/**
 What every behaviour of LaneProtocol keeps: lock ownership, reference counts of
 the session table, and task references.
 */
module LaneSafety {
  import opened Options
  import opened LaneTable
  import opened LaneProtocol

  /** A lock is held exactly by the process whose program counter owns it. */
  ghost predicate LocksOk(s: State) {
    && (forall l :: l in s.locks ==> s.locks[l] in s.procs && Holds(s.procs[s.locks[l]], l))
    && (forall p, l :: p in s.procs && Holds(s.procs[p], l) ==> l in s.locks && s.locks[l] == p)
  }

  /** The processes owning, waiting on or about to unreference entry `h`. */
  ghost function Pinners(procs: map<Proc, Pc>, h: Handle): set<Proc> {
    set p | p in procs && PinOf(procs[p]) == Some(h)
  }

  /** Reference counts are exact, and every entry a process may touch is live. */
  ghost predicate PinsOk(s: State) {
    && TableOk(s.table)
    && (forall p :: p in s.procs && PinOf(s.procs[p]).Some? ==> PinOf(s.procs[p]).value in s.table.recs)
    && (forall h :: h in s.table.recs ==> s.table.recs[h].refs == |Pinners(s.procs, h)|)
  }

  /** An entry a process pinned answers to the session the process asked for. */
  ghost predicate IdsOk(s: State) {
    forall p :: p in s.procs && PinOf(s.procs[p]).Some? ==>
      && PinOf(s.procs[p]).value in s.table.recs
      && s.procs[p].Chat?
      && s.table.recs[PinOf(s.procs[p]).value].id == Key(s.procs[p].c.session)
  }

  /** chat_lane_run holds one reference on its task while it says so, and none otherwise. */
  ghost predicate TasksOk(s: State) {
    forall p: Proc :: Refs(s, p) == if p in s.procs && HasTask(s.procs[p]) then 1 else 0
  }

  ghost predicate Safe(s: State) {
    LocksOk(s) && PinsOk(s) && IdsOk(s) && TasksOk(s)
  }

  // ----- preservation -----

  lemma TakeKeepsLocks(s: State, p: Proc, pc': Pc, l: Lock)
    requires LocksOk(s) && p in s.procs && l !in s.locks
    requires forall k :: Holds(pc', k) <==> Holds(s.procs[p], k) || k == l
    ensures LocksOk(s.(locks := s.locks[l := p], procs := s.procs[p := pc']))
  {
  }

  lemma DropKeepsLocks(s: State, p: Proc, pc': Pc, l: Lock)
    requires LocksOk(s) && p in s.procs && Holds(s.procs[p], l)
    requires forall k :: Holds(pc', k) <==> Holds(s.procs[p], k) && k != l
    ensures LocksOk(s.(locks := s.locks - {l}, procs := s.procs[p := pc']))
  {
    var t := s.(locks := s.locks - {l}, procs := s.procs[p := pc']);
    assert s.locks[l] == p;
    forall k | k in t.locks ensures t.locks[k] in t.procs && Holds(t.procs[t.locks[k]], k) {
      assert k in s.locks && k != l && t.locks[k] == s.locks[k];
    }
    forall q, k | q in t.procs && Holds(t.procs[q], k) ensures k in t.locks && t.locks[k] == q {
      assert Holds(s.procs[q], k) && s.locks[k] == q;
    }
  }

  lemma KeepKeepsLocks(s: State, t: State, p: Proc, pc': Pc)
    requires LocksOk(s) && p in s.procs && SameLocks(s.procs[p], pc')
    requires t.locks == s.locks && t.procs == s.procs[p := pc']
    ensures LocksOk(t)
  {
    forall k ensures Holds(pc', k) <==> Holds(s.procs[p], k) {
    }
  }

  lemma AdvanceKeepsLocks(s: State, p: Proc, op: Op, pc': Pc)
    requires LocksOk(s) && PinsOk(s) && Enabled(s, Advance(p, op, pc'))
    ensures LocksOk(Next(s, Advance(p, op, pc')))
  {
    if op.Take? {
      TakesInRankOrder(s, p, op, pc');
      TakeKeepsLocks(s, p, pc', op.l);
    } else if op.Drop? {
      DropsWhatItHolds(s, p, op, pc');
      DropKeepsLocks(s, p, pc', op.l);
    } else {
      OtherMovesKeepLocks(s, p, op, pc');
      OtherOpsKeepLocks(s, p, op, pc');
      KeepKeepsLocks(s, Next(s, Advance(p, op, pc')), p, pc');
    }
  }

  lemma OtherOpsKeepLocks(s: State, p: Proc, op: Op, pc': Pc)
    requires LocksOk(s) && PinsOk(s) && Enabled(s, Advance(p, op, pc')) && !op.Take? && !op.Drop?
    ensures Apply(s, p, op).locks == s.locks
  {
    hide Move, LocksOk, PinsOk;
    if op.Make? {
      PinDiscipline(s, p, op, pc');
      FreeEntryIsUnlocked(s, op.h);
    }
  }

  lemma FreeEntryIsUnlocked(s: State, h: Handle)
    requires LocksOk(s) && PinsOk(s) && h !in s.table.recs
    ensures Sess(h) !in s.locks
  {
    if Sess(h) in s.locks {
      var q := s.locks[Sess(h)];
      OwnerPins(s.procs[q], h);
      assert false;
    }
  }

  lemma OwnerPins(pc: Pc, h: Handle)
    requires Holds(pc, Sess(h))
    ensures PinOf(pc) == Some(h)
  {
  }

  /** Moving one process changes an entry's pinners by that process only. */
  lemma PinnersAfterMove(procs: map<Proc, Pc>, p: Proc, pc': Pc, h: Handle)
    ensures Pinners(procs[p := pc'], h)
         == Pinners(procs, h) - {p} + if PinOf(pc') == Some(h) then {p} else {}
    ensures p in Pinners(procs, h) <==> p in procs && PinOf(procs[p]) == Some(h)
  {
  }

  /** How a move changes whom an entry's count covers. */
  lemma PinnersAfterAdvance(s: State, p: Proc, op: Op, pc': Pc, h: Handle)
    requires Enabled(s, Advance(p, op, pc'))
    ensures var after := Pinners(s.procs[p := pc'], h); var before := Pinners(s.procs, h);
            if (op.Pin? || op.Make?) && op.h == h then p !in before && after == before + {p}
            else if op.Unpin? && op.h == h then p in before && after == before - {p}
            else after == before
  {
    PinnersAfterMove(s.procs, p, pc', h);
    if op.Take? {
      TakesInRankOrder(s, p, op, pc');
    } else if op.Drop? {
      DropsWhatItHolds(s, p, op, pc');
    } else {
      PinDiscipline(s, p, op, pc');
    }
  }

  lemma AdvanceKeepsCounts(s: State, p: Proc, op: Op, pc': Pc, h: Handle)
    requires Enabled(s, Advance(p, op, pc'))
    requires h in s.table.recs ==> s.table.recs[h].refs == |Pinners(s.procs, h)|
    requires h !in s.table.recs ==> Pinners(s.procs, h) == {}
    requires h in Next(s, Advance(p, op, pc')).table.recs
    ensures var t := Next(s, Advance(p, op, pc'));
            t.table.recs[h].refs == |Pinners(t.procs, h)|
  {
    PinnersAfterAdvance(s, p, op, pc', h);
    if op.Make? {
      PinDiscipline(s, p, op, pc');
    }
    CountAfterOp(s, p, op, h, Pinners(s.procs, h), Pinners(s.procs[p := pc'], h));
  }

  /** How an operation moves a count that is exact before it. */
  lemma CountAfterOp(s: State, p: Proc, op: Op, h: Handle, before: set<Proc>, after: set<Proc>)
    requires if h in s.table.recs then s.table.recs[h].refs == |before| else before == {}
    requires op.Make? ==> op.h !in s.table.recs
    requires if (op.Pin? || op.Make?) && op.h == h then p !in before && after == before + {p}
             else if op.Unpin? && op.h == h then p in before && after == before - {p}
             else after == before
    requires h in Apply(s, p, op).table.recs
    ensures Apply(s, p, op).table.recs[h].refs == |after|
  {
  }

  /** No entry is freed while anybody still counts on it. */
  lemma AdvanceKeepsPinnedLive(s: State, p: Proc, op: Op, pc': Pc, q: Proc)
    requires PinsOk(s) && Enabled(s, Advance(p, op, pc'))
    requires var t := Next(s, Advance(p, op, pc')); q in t.procs && PinOf(t.procs[q]).Some?
    ensures var t := Next(s, Advance(p, op, pc')); PinOf(t.procs[q]).value in t.table.recs
    ensures q != p ==>
      s.table.recs[PinOf(s.procs[q]).value].id == Next(s, Advance(p, op, pc')).table.recs[PinOf(s.procs[q]).value].id
  {
    hide Move, TableOk;
    if op.Take? {
      TakesInRankOrder(s, p, op, pc');
    } else if op.Drop? {
      DropsWhatItHolds(s, p, op, pc');
    } else {
      PinDiscipline(s, p, op, pc');
    }
    if op.Unpin? && q != p && PinOf(s.procs[q]) == Some(op.h) {
      assert {p, q} <= Pinners(s.procs, op.h);
      AtLeastTwo(Pinners(s.procs, op.h), p, q);
    }
  }

  lemma AtLeastTwo<T>(s: set<T>, a: T, b: T)
    requires a in s && b in s && a != b
    ensures |s| > 1
  {
    assert |s| == |s - {a}| + 1;
    assert b in s - {a};
  }

  lemma AdvanceKeepsTable(s: State, p: Proc, op: Op, pc': Pc)
    requires PinsOk(s) && Enabled(s, Advance(p, op, pc'))
    ensures TableOk(Next(s, Advance(p, op, pc')).table)
  {
    if !op.Take? && !op.Drop? {
      PinDiscipline(s, p, op, pc');
    }
    match op {
      case Pin(h) => PinKeepsOk(s.table, h);
      case Make(h, id) => MakeKeepsOk(s.table, h, id);
      case Unpin(h) => UnpinKeepsOk(s.table, h);
      case _ =>
    }
  }

  lemma AdvanceKeepsPins(s: State, p: Proc, op: Op, pc': Pc)
    requires PinsOk(s) && Enabled(s, Advance(p, op, pc'))
    ensures PinsOk(Next(s, Advance(p, op, pc')))
  {
    var t := Next(s, Advance(p, op, pc'));
    AdvanceKeepsTable(s, p, op, pc');
    forall q | q in t.procs && PinOf(t.procs[q]).Some? ensures PinOf(t.procs[q]).value in t.table.recs {
      AdvanceKeepsPinnedLive(s, p, op, pc', q);
    }
    forall h | h in t.table.recs ensures t.table.recs[h].refs == |Pinners(t.procs, h)| {
      assert h !in s.table.recs ==> Pinners(s.procs, h) == {};
      AdvanceKeepsCounts(s, p, op, pc', h);
    }
  }

  /** A process keeps its call, and so its session, from entry to return. */
  lemma MoveKeepsSession(s: State, p: Proc, op: Op, pc': Pc)
    requires p in s.procs && Move(s, p, op, pc') && PinOf(pc').Some?
    ensures s.procs[p].Chat? && pc'.Chat? && pc'.c == s.procs[p].c
    ensures op.Make? ==> op.id == Key(pc'.c.session)
    ensures op.Pin? ==> op.h in s.table.recs && s.table.recs[op.h].id == Key(pc'.c.session)
  {
  }

  lemma AdvanceKeepsIds(s: State, p: Proc, op: Op, pc': Pc)
    requires PinsOk(s) && IdsOk(s) && Enabled(s, Advance(p, op, pc'))
    ensures IdsOk(Next(s, Advance(p, op, pc')))
  {
    var t := Next(s, Advance(p, op, pc'));
    forall q | q in t.procs && PinOf(t.procs[q]).Some?
      ensures PinOf(t.procs[q]).value in t.table.recs && t.procs[q].Chat?
      ensures t.table.recs[PinOf(t.procs[q]).value].id == Key(t.procs[q].c.session)
    {
      AdvanceKeepsPinnedLive(s, p, op, pc', q);
      if q == p {
        OwnEntryKeepsId(s, p, op, pc');
      }
    }
  }

  lemma OwnEntryKeepsId(s: State, p: Proc, op: Op, pc': Pc)
    requires PinsOk(s) && IdsOk(s) && Enabled(s, Advance(p, op, pc')) && PinOf(pc').Some?
    requires PinOf(pc').value in Next(s, Advance(p, op, pc')).table.recs
    ensures pc'.Chat?
    ensures Next(s, Advance(p, op, pc')).table.recs[PinOf(pc').value].id == Key(pc'.c.session)
  {
    MoveKeepsSession(s, p, op, pc');
    if op.Take? {
      TakesInRankOrder(s, p, op, pc');
    } else if op.Drop? {
      DropsWhatItHolds(s, p, op, pc');
    } else {
      PinDiscipline(s, p, op, pc');
    }
  }

  lemma AdvanceKeepsTasks(s: State, p: Proc, op: Op, pc': Pc)
    requires TasksOk(s) && Enabled(s, Advance(p, op, pc'))
    ensures TasksOk(Next(s, Advance(p, op, pc')))
  {
    TaskDiscipline(s, p, op, pc');
    var t := Next(s, Advance(p, op, pc'));
    forall q: Proc ensures Refs(t, q) == if q in t.procs && HasTask(t.procs[q]) then 1 else 0 {
      assert Refs(s, q) == if q in s.procs && HasTask(s.procs[q]) then 1 else 0;
    }
  }

  lemma EntryOwnsNothing(pc: Pc)
    requires Entry(pc)
    ensures PinOf(pc).None? && !HasTask(pc) && forall l :: !Holds(pc, l)
  {
  }

  lemma ArriveKeepsLocks(s: State, p: Proc, pc: Pc)
    requires LocksOk(s) && p !in s.procs && forall l :: !Holds(pc, l)
    ensures LocksOk(s.(procs := s.procs[p := pc]))
  {
    hide Holds;
  }

  lemma ArriveKeepsPins(s: State, p: Proc, pc: Pc)
    requires PinsOk(s) && p !in s.procs && PinOf(pc).None?
    ensures PinsOk(s.(procs := s.procs[p := pc]))
  {
    hide TableOk, PinOf;
    forall h | h in s.table.recs ensures s.table.recs[h].refs == |Pinners(s.procs[p := pc], h)| {
      PinnersAfterMove(s.procs, p, pc, h);
      assert Pinners(s.procs[p := pc], h) == Pinners(s.procs, h);
    }
  }

  lemma ArriveKeepsTasks(s: State, p: Proc, pc: Pc)
    requires TasksOk(s) && p !in s.procs && !HasTask(pc)
    ensures TasksOk(s.(procs := s.procs[p := pc]))
  {
    hide HasTask;
    var t := s.(procs := s.procs[p := pc]);
    forall q: Proc ensures Refs(t, q) == if q in t.procs && HasTask(t.procs[q]) then 1 else 0 {
      assert Refs(s, q) == if q in s.procs && HasTask(s.procs[q]) then 1 else 0;
    }
  }

  lemma ArriveKeepsSafe(s: State, p: Proc, pc: Pc)
    requires Safe(s) && p !in s.procs && Entry(pc)
    ensures Safe(Next(s, Arrive(p, pc)))
  {
    hide Entry, LocksOk, PinsOk, TasksOk, PinOf, HasTask, Holds;
    EntryOwnsNothing(pc);
    ArriveKeepsLocks(s, p, pc);
    ArriveKeepsPins(s, p, pc);
    ArriveKeepsTasks(s, p, pc);
  }

  lemma StepKeepsSafe(s: State, a: Act)
    requires Safe(s) && Enabled(s, a)
    ensures Safe(Next(s, a))
  {
    match a
    case Advance(p, op, pc') =>
      AdvanceKeepsLocks(s, p, op, pc');
      AdvanceKeepsPins(s, p, op, pc');
      AdvanceKeepsIds(s, p, op, pc');
      AdvanceKeepsTasks(s, p, op, pc');
    case Arrive(p, pc) => ArriveKeepsSafe(s, p, pc);
    case Abort(p) =>
      assert forall q :: Refs(Next(s, a), q) == Refs(s, q);
  }

  /** Whatever processes arrive, however they interleave and whenever they are
      aborted, every state of the run is safe. */
  lemma {:induction false} EveryBehaviourIsSafe(s0: State, acts: seq<Act>)
    requires Initial(s0) && Behaviour(s0, acts)
    ensures Safe(Final(s0, acts))
  {
    if acts == [] {
      assert forall q :: Refs(s0, q) == 0;
    } else {
      EveryBehaviourIsSafe(s0, acts[..|acts| - 1]);
      StepKeepsSafe(Final(s0, acts[..|acts| - 1]), acts[|acts| - 1]);
    }
  }
}
