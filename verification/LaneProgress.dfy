/**
 Consequences of LaneSafety: who may own what, what is left behind on return, and
 that from every reachable state the processes present can all run to their end.
 */
module LaneProgress {
  import opened LaneTable
  import opened LaneProtocol
  import opened LaneSafety
  import opened LlmSwap

  // ----- exclusion -----

  /** Two tasks never own the same session at once, although its entry may have
      been freed and created again any number of times. */
  lemma SessionOwnerIsUnique(s0: State, acts: seq<Act>, p: Proc, q: Proc)
    requires Initial(s0) && Behaviour(s0, acts)
    requires p in Final(s0, acts).procs && q in Final(s0, acts).procs && p != q
    requires SessionOf(Final(s0, acts).procs[p]).Some? && SessionOf(Final(s0, acts).procs[q]).Some?
    ensures Key(Final(s0, acts).procs[p].c.session) != Key(Final(s0, acts).procs[q].c.session)
  {
    hide Behaviour, Final;
    EveryBehaviourIsSafe(s0, acts);
    OwnersDiffer(Final(s0, acts), p, q, SessionOf(Final(s0, acts).procs[p]).value, SessionOf(Final(s0, acts).procs[q]).value);
  }

  lemma OwnersDiffer(s: State, p: Proc, q: Proc, g: Handle, h: Handle)
    requires Safe(s) && p in s.procs && q in s.procs && p != q
    requires Holds(s.procs[p], Sess(g)) && Holds(s.procs[q], Sess(h))
    ensures Key(s.procs[p].c.session) != Key(s.procs[q].c.session)
  {
    hide Holds, PinOf, TableOk, TasksOk;
    OwnerPins(s.procs[p], g);
    OwnerPins(s.procs[q], h);
    assert s.locks[Sess(g)] == p && s.locks[Sess(h)] == q;
    IdsDiffer(s.table, g, h);
  }

  lemma IdsDiffer(t: Table<Handle>, g: Handle, h: Handle)
    requires TableOk(t) && g in t.recs && h in t.recs && g != h
    ensures t.recs[g].id != t.recs[h].id
  {
  }

  /** An entry is listed exactly while some process owns it, waits for it or is
      about to drop it, and its count is the number of those processes. */
  lemma ListedWhilePinned(s0: State, acts: seq<Act>, h: Handle)
    requires Initial(s0) && Behaviour(s0, acts)
    ensures var s := Final(s0, acts);
            && (h in s.table.list <==> Pinners(s.procs, h) != {})
            && (h in s.table.list ==> h in s.table.recs && s.table.recs[h].refs == |Pinners(s.procs, h)|)
  {
    EveryBehaviourIsSafe(s0, acts);
    var s := Final(s0, acts);
    if Pinners(s.procs, h) != {} {
      var p :| p in Pinners(s.procs, h);
      assert h in s.table.recs;
    }
  }

  /** A process never holds two locks of one rank. */
  lemma OneLockPerRank(pc: Pc, k: Lock, l: Lock)
    requires Holds(pc, k) && Holds(pc, l) && Rank(k) == Rank(l)
    ensures k == l
  {
  }

  /** The locks a process holds, as the lock table sees it. */
  ghost function Held(s: State, p: Proc): set<Lock> {
    set l | l in s.locks && s.locks[l] == p
  }

  /** Every way out of chat_lane_run leaves the caller with exactly the locks and
      task references it had going in, and in no entry's count. */
  lemma CallLeavesNothingBehind(s0: State, acts: seq<Act>, p: Proc)
    requires Initial(s0) && Behaviour(s0, acts) && p in Final(s0, acts).procs
    requires !Final(s0, acts).procs[p].Chat?
    ensures var s := Final(s0, acts);
            && Refs(s, p) == 0
            && (forall h :: p !in Pinners(s.procs, h))
            && (s.procs[p].RoomHeld? ==> Held(s, p) == {Room(s.procs[p].bucket)})
            && (s.procs[p] == Done ==> Held(s, p) == {})
  {
    hide Behaviour, Final, TableOk;
    EveryBehaviourIsSafe(s0, acts);
    HeldIsHolds(Final(s0, acts), p);
    var s := Final(s0, acts);
    if s.procs[p].RoomHeld? {
      assert forall l :: Holds(s.procs[p], l) <==> l == Room(s.procs[p].bucket);
    }
  }

  lemma HeldIsHolds(s: State, p: Proc)
    requires LocksOk(s) && p in s.procs
    ensures forall l :: l in Held(s, p) <==> Holds(s.procs[p], l)
  {
  }

  // ----- deadlock -----

  predicate Awaits(pc: Pc, l: Lock) {
    match pc
    case RoomCheck(b) => l == Room(b)
    case RoomTry(b) => l == Room(b)
    case Chat(_, SessCheck(e)) => l == Sess(e)
    case Chat(_, SessTry(e)) => l == Sess(e)
    case Chat(_, LaneCheck(_)) => l.Lane? && l.lane < LANES
    case Chat(_, LaneTry(_, _)) => l.Lane? && l.lane < LANES
    case SoloLock => l == Lane(0)
    case SwapLock(i, _) => l == Lane(i)
    case _ => false
  }

  predicate Waiting(pc: Pc) {
    || pc.RoomCheck? || pc.RoomTry? || pc.SoloLock? || pc.SwapLock?
    || (pc.Chat? && (pc.at.SessCheck? || pc.at.SessTry? || pc.at.LaneCheck? || pc.at.LaneTry?))
  }

  /** Every lock that would let the process on is held. */
  ghost predicate Blocked(s: State, p: Proc)
    requires p in s.procs
  {
    Waiting(s.procs[p]) && forall l :: Awaits(s.procs[p], l) ==> l in s.locks
  }

  function WaitRank(pc: Pc): nat {
    match pc
    case RoomCheck(_) => 0
    case RoomTry(_) => 0
    case Chat(_, SessCheck(_)) => 1
    case Chat(_, SessTry(_)) => 1
    case Chat(_, LaneCheck(_)) => 2
    case Chat(_, LaneTry(_, _)) => 2
    case SoloLock => 2
    case SwapLock(_, _) => 2
    case _ => 3
  }

  /** Who holds a lock waits, if at all, only for locks of higher rank. */
  lemma HolderWaitsHigher(pc: Pc, l: Lock)
    requires Holds(pc, l)
    ensures Rank(l) < WaitRank(pc)
  {
  }

  lemma AwaitedLock(pc: Pc) returns (l: Lock)
    requires Waiting(pc)
    ensures Awaits(pc, l) && Rank(l) == WaitRank(pc)
  {
    match pc
    case RoomCheck(b) => l := Room(b);
    case RoomTry(b) => l := Room(b);
    case Chat(_, at) =>
      if at.SessCheck? || at.SessTry? {
        l := Sess(at.e);
      } else {
        l := Lane(0);
      }
    case SoloLock => l := Lane(0);
    case SwapLock(i, _) => l := Lane(i);
  }

  /** `q` holds a lock that blocked `p` is waiting for. */
  ghost predicate WaitsOn(s: State, p: Proc, q: Proc) {
    p in s.procs && q in s.procs && Blocked(s, p) && exists l :: Awaits(s.procs[p], l) && l in s.locks && s.locks[l] == q
  }

  /** Following holders from any process ends, within three hops, at one that is
      not blocked: no set of processes waits in a circle. */
  lemma {:induction false} WaitChainEnds(s: State, p: Proc) returns (chain: seq<Proc>)
    requires LocksOk(s) && p in s.procs
    ensures 1 <= |chain| <= 4 - WaitRank(s.procs[p]) && chain[0] == p
    ensures forall k :: 0 <= k < |chain| - 1 ==> WaitsOn(s, chain[k], chain[k + 1])
    ensures var q := chain[|chain| - 1]; q in s.procs && !Blocked(s, q) && (|chain| > 1 ==> s.procs[q] != Done)
    decreases 3 - WaitRank(s.procs[p])
  {
    if !Blocked(s, p) {
      return [p];
    }
    var l := AwaitedLock(s.procs[p]);
    var q := s.locks[l];
    HolderWaitsHigher(s.procs[q], l);
    var rest := WaitChainEnds(s, q);
    chain := [p] + rest;
    forall k | 0 <= k < |chain| - 1 ensures WaitsOn(s, chain[k], chain[k + 1]) {
      if k > 0 {
        assert WaitsOn(s, rest[k - 1], rest[k]);
      }
    }
  }

  // ----- running to the end -----

  lemma {:induction false} Compose(s: State, a: seq<Act>, b: seq<Act>)
    requires Behaviour(s, a) && Behaviour(Final(s, a), b)
    ensures Behaviour(s, a + b) && Final(s, a + b) == Final(Final(s, a), b)
  {
    if b == [] {
      assert a + b == a;
    } else {
      Compose(s, a, b[..|b| - 1]);
      assert (a + b)[..|a + b| - 1] == a + b[..|b| - 1];
    }
  }

  lemma Nothing(s: State)
    ensures Behaviour(s, []) && Final(s, []) == s
  {
  }

  lemma One(s: State, a: Act)
    requires Enabled(s, a)
    ensures Behaviour(s, [a]) && Final(s, [a]) == Next(s, a)
  {
    assert [a][..0] == [];
  }

  lemma {:induction false} BehaviourKeepsInvariants(s: State, acts: seq<Act>)
    requires Safe(s) && LanesOk(s) && Behaviour(s, acts)
    ensures Safe(Final(s, acts)) && LanesOk(Final(s, acts))
  {
    if acts != [] {
      BehaviourKeepsInvariants(s, acts[..|acts| - 1]);
      StepKeepsSafe(Final(s, acts[..|acts| - 1]), acts[|acts| - 1]);
      StepKeepsLanesOk(Final(s, acts[..|acts| - 1]), acts[|acts| - 1]);
    }
  }

  lemma Unused(s: set<nat>) returns (x: nat)
    ensures x !in s
  {
    x := 0;
    var seen: set<nat> := {};
    while x in s
      invariant seen <= s && forall y: nat :: y in seen <==> y < x
      decreases |s - seen|
    {
      assert x in s - seen;
      assert s - (seen + {x}) == (s - seen) - {x};
      seen := seen + {x};
      x := x + 1;
    }
  }

  function StageRest(at: Stage): nat {
    match at
    case SessLeft(_) => 1
    case SessLeave(_) => 2
    case LaneLeave(_, _) => 3
    case Ran(_, _) => 4
    case Running(_, _, _) => 5
    case LaneHeld(_, _) => 6
    case Abandon => 1
    case LaneGaveUp(_) => 2
    case LaneGiveUp(_) => 3
    case SessGiveUp(_) => 2
    case LaneTry(_, _) => 7
    case LaneCheck(_) => 7
    case SessTry(_) => 8
    case SessCheck(_) => 9
    case Lookup => 10
    case Acquire => 11
  }

  /** Lock acquisitions, releases and checks left on a straight way to the end. */
  function Rest(pc: Pc): nat {
    match pc
    case RoomCheck(_) => 3
    case RoomTry(_) => 2
    case RoomHeld(_) => 1
    case Chat(c, at) => StageRest(at) + if c.room.Some? then 1 else 0
    case SoloLock => 4
    case SoloHeld => 3
    case SoloRunning(_) => 2
    case SoloLeave => 1
    case SwapCreate => 3 * LANES + 4
    case SwapLock(i, _) => if i < LANES then 3 * (LANES - 1 - i) + 6 else 0
    case SwapSet(i, _) => if i < LANES then 3 * (LANES - 1 - i) + 5 else 0
    case SwapUnlock(i, _) => if i < LANES then 3 * (LANES - 1 - i) + 4 else 0
    case SwapRead(_) => 3
    case SwapPublish(_, _) => 2
    case SwapDestroy(_) => 1
    case Done => 0
  }

  /** No LLM is created. */
  ghost predicate NoCreation(acts: seq<Act>) {
    forall k :: 0 <= k < |acts| ==> !(acts[k].Advance? && acts[k].op.NewLlm?)
  }

  /** `acts` are moves of `p` alone, and take it closer to its end. */
  ghost predicate Closer(s: State, p: Proc, acts: seq<Act>) {
    && p in s.procs && Behaviour(s, acts)
    && (forall k :: 0 <= k < |acts| ==> acts[k].Advance? && acts[k].p == p)
    && p in Final(s, acts).procs
    && Final(s, acts).procs == s.procs[p := Final(s, acts).procs[p]]
    && Rest(Final(s, acts).procs[p]) < Rest(s.procs[p])
  }

  lemma OneMoveIsCloser(s: State, p: Proc, op: Op, pc': Pc)
    requires p in s.procs && Move(s, p, op, pc') && Rest(pc') < Rest(s.procs[p])
    ensures Closer(s, p, [Advance(p, op, pc')]) && (!op.NewLlm? ==> NoCreation([Advance(p, op, pc')]))
  {
    One(s, Advance(p, op, pc'));
  }

  /** A move that changes nothing but the program counter, and then others of the same
      process. */
  lemma NopThen(s: State, p: Proc, pc': Pc, rest: seq<Act>)
    requires p in s.procs && Move(s, p, Nop, pc') && Rest(pc') <= Rest(s.procs[p])
    requires Closer(s.(procs := s.procs[p := pc']), p, rest) && NoCreation(rest)
    ensures Closer(s, p, [Advance(p, Nop, pc')] + rest) && NoCreation([Advance(p, Nop, pc')] + rest)
  {
    hide Behaviour, Final, Move, Rest;
    NopStep(s, p, pc');
    Compose(s, [Advance(p, Nop, pc')], rest);
  }

  lemma NopStep(s: State, p: Proc, pc': Pc)
    requires p in s.procs && Move(s, p, Nop, pc')
    ensures var a := [Advance(p, Nop, pc')]; Behaviour(s, a) && Final(s, a) == s.(procs := s.procs[p := pc'])
  {
    hide Move;
    One(s, Advance(p, Nop, pc'));
  }

  /** Scanning the lanes from `i`, a process reaches the free lane `j`. */
  lemma {:induction false} ScanTo(s: State, p: Proc, i: nat, j: nat) returns (acts: seq<Act>)
    requires p in s.procs && s.procs[p].Chat? && s.procs[p].at.LaneTry? && s.procs[p].at.i == i
    requires i <= j < LANES && Lane(j) !in s.locks
    ensures Closer(s, p, acts) && NoCreation(acts)
    decreases j - i
  {
    var c, e := s.procs[p].c, s.procs[p].at.e;
    if Lane(i) !in s.locks {
      OneMoveIsCloser(s, p, Take(Lane(i)), Chat(c, LaneHeld(e, i)));
      return [Advance(p, Take(Lane(i)), Chat(c, LaneHeld(e, i)))];
    }
    var pc' := Chat(c, LaneTry(e, i + 1));
    var rest := ScanTo(s.(procs := s.procs[p := pc']), p, i + 1, j);
    NopThen(s, p, pc', rest);
    acts := [Advance(p, Nop, pc')] + rest;
  }

  /** The rest of a scan that misses, up to the check that starts the next one. */
  lemma {:induction false} ScanOut(s: State, p: Proc, i: nat) returns (acts: seq<Act>, closer: bool)
    requires p in s.procs && s.procs[p].Chat? && s.procs[p].at.LaneTry? && s.procs[p].at.i == i < LANES
    ensures NoCreation(acts)
    ensures closer ==> Closer(s, p, acts)
    ensures !closer ==> Back(s, p, acts)
    decreases LANES - i
  {
    var c, e := s.procs[p].c, s.procs[p].at.e;
    if Lane(i) !in s.locks {
      OneMoveIsCloser(s, p, Take(Lane(i)), Chat(c, LaneHeld(e, i)));
      return [Advance(p, Take(Lane(i)), Chat(c, LaneHeld(e, i)))], true;
    }
    if i + 1 < LANES {
      var pc' := Chat(c, LaneTry(e, i + 1));
      var rest, cl := ScanOut(s.(procs := s.procs[p := pc']), p, i + 1);
      if cl {
        NopThen(s, p, pc', rest);
      } else {
        NopThenBack(s, p, pc', rest);
      }
      acts, closer := [Advance(p, Nop, pc')] + rest, cl;
    } else {
      NopStep(s, p, Chat(c, LaneCheck(e)));
      acts, closer := [Advance(p, Nop, Chat(c, LaneCheck(e)))], false;
    }
  }

  /** `acts` are moves of `p`, which is scanning, back to the check and change nothing else. */
  ghost predicate Back(s: State, p: Proc, acts: seq<Act>)
    requires p in s.procs && s.procs[p].Chat? && s.procs[p].at.LaneTry?
  {
    && Behaviour(s, acts) && (forall k :: 0 <= k < |acts| ==> acts[k].Advance? && acts[k].p == p)
    && Final(s, acts) == s.(procs := s.procs[p := Chat(s.procs[p].c, LaneCheck(s.procs[p].at.e))])
  }

  lemma NopThenBack(s: State, p: Proc, pc': Pc, rest: seq<Act>)
    requires p in s.procs && s.procs[p].Chat? && s.procs[p].at.LaneTry?
    requires pc'.Chat? && pc'.at.LaneTry? && pc'.c == s.procs[p].c && pc'.at.e == s.procs[p].at.e
    requires Move(s, p, Nop, pc') && Back(s.(procs := s.procs[p := pc']), p, rest) && NoCreation(rest)
    ensures Back(s, p, [Advance(p, Nop, pc')] + rest) && NoCreation([Advance(p, Nop, pc')] + rest)
  {
    hide Behaviour, Final, Move;
    NopStep(s, p, pc');
    Compose(s, [Advance(p, Nop, pc')], rest);
  }

  lemma LaneCheckCloser(s: State, p: Proc, j: nat) returns (acts: seq<Act>)
    requires p in s.procs && s.procs[p].Chat? && s.procs[p].at.LaneCheck?
    requires j < LANES && Lane(j) !in s.locks
    ensures Closer(s, p, acts) && NoCreation(acts)
  {
    var c, e := s.procs[p].c, s.procs[p].at.e;
    if p in s.aborted {
      OneMoveIsCloser(s, p, Nop, Chat(c, LaneGiveUp(e)));
      return [Advance(p, Nop, Chat(c, LaneGiveUp(e)))];
    }
    var pc' := Chat(c, LaneTry(e, 0));
    var rest := ScanTo(s.(procs := s.procs[p := pc']), p, 0, j);
    NopThen(s, p, pc', rest);
    acts := [Advance(p, Nop, pc')] + rest;
  }

  lemma LaneWaitCloser(s: State, p: Proc, j: nat) returns (acts: seq<Act>)
    requires p in s.procs && s.procs[p].Chat? && (s.procs[p].at.LaneCheck? || s.procs[p].at.LaneTry?)
    requires LanesOk(s) && j < LANES && Lane(j) !in s.locks
    ensures Closer(s, p, acts) && NoCreation(acts)
  {
    if s.procs[p].at.LaneCheck? {
      acts := LaneCheckCloser(s, p, j);
    } else {
      var out, closer := ScanOut(s, p, s.procs[p].at.i);
      if closer {
        return out;
      }
      acts := ThenCheck(s, p, j, out);
    }
  }

  /** A process that has come back from a vain scan checks and scans again. */
  lemma ThenCheck(s: State, p: Proc, j: nat, out: seq<Act>) returns (acts: seq<Act>)
    requires p in s.procs && s.procs[p].Chat? && s.procs[p].at.LaneTry? && Back(s, p, out) && NoCreation(out)
    requires j < LANES && Lane(j) !in s.locks
    ensures Closer(s, p, acts) && NoCreation(acts)
  {
    hide Behaviour, Final;
    var rest := LaneCheckCloser(Final(s, out), p, j);
    Compose(s, out, rest);
    acts := out + rest;
  }

  /** A lookup finds an entry or can make one. */
  lemma AnyLookup(s: State, p: Proc, c: Call) returns (op: Op, pc': Pc)
    ensures ChatMove(s, p, c, Lookup, op, pc') && pc'.Chat? && pc'.c == c && pc'.at.SessCheck? && !op.NewLlm?
  {
    match Find(s.table, s.table.list, Key(c.session)) {
      case Some(h) => op, pc' := Pin(h), Chat(c, SessCheck(h));
      case None =>
        var h := Unused(s.table.recs.Keys);
        op, pc' := Make(h, Key(c.session)), Chat(c, SessCheck(h));
    }
  }

  lemma ChatCloser(s: State, p: Proc) returns (acts: seq<Act>)
    requires LanesOk(s) && p in s.procs && s.procs[p].Chat? && !Waiting(s.procs[p])
    ensures Closer(s, p, acts) && NoCreation(acts)
  {
    var c, at := s.procs[p].c, s.procs[p].at;
    var op, pc' := Nop, After(c);
    match at {
      case Acquire => op, pc' := TaskUp, Chat(c, Lookup);
      case Lookup => op, pc' := AnyLookup(s, p, c);
      case SessGiveUp(e) => op, pc' := Unpin(e), Chat(c, Abandon);
      case LaneGiveUp(e) => op, pc' := Drop(Sess(e)), Chat(c, LaneGaveUp(e));
      case LaneGaveUp(e) => op, pc' := Unpin(e), Chat(c, Abandon);
      case Abandon => op := TaskDown;
      case LaneHeld(e, i) => pc' := Chat(c, Running(e, i, s.lanes[i]));
      case Running(e, i, _) => pc' := Chat(c, Ran(e, i));
      case Ran(e, i) => op, pc' := TaskDown, Chat(c, LaneLeave(e, i));
      case LaneLeave(e, i) => op, pc' := Drop(Lane(i)), Chat(c, SessLeave(e));
      case SessLeave(e) => op, pc' := Drop(Sess(e)), Chat(c, SessLeft(e));
      case SessLeft(e) => op := Unpin(e);
      case _ =>
    }
    OneMoveIsCloser(s, p, op, pc');
    acts := [Advance(p, op, pc')];
  }

  /** `create` is whether a swap that has not created its LLM is to succeed in it. */
  lemma PlainCloser(s: State, p: Proc, create: bool) returns (acts: seq<Act>)
    requires LanesOk(s) && p in s.procs && !s.procs[p].Chat? && s.procs[p] != Done && !Waiting(s.procs[p])
    ensures Closer(s, p, acts) && (!create ==> NoCreation(acts))
  {
    var op, pc' := Nop, Done;
    match s.procs[p] {
      case RoomHeld(b) => op := Drop(Room(b));
      case SoloHeld => pc' := SoloRunning(s.lanes[0]);
      case SoloRunning(_) => pc' := SoloLeave;
      case SoloLeave => op := Drop(Lane(0));
      case SwapCreate =>
        if create {
          var x := Unused(s.live);
          op, pc' := NewLlm(x), SwapLock(0, x);
        }
      case SwapSet(i, x) => op, pc' := SetLane(i, x), SwapUnlock(i, x);
      case SwapUnlock(i, x) =>
        op, pc' := Drop(Lane(i)), if i + 1 < LANES then SwapLock(i + 1, x) else SwapRead(x);
      case SwapRead(x) => pc' := SwapPublish(x, s.ctxLlm);
      case SwapPublish(x, retired) => op, pc' := Publish(x), SwapDestroy(retired);
      case SwapDestroy(x) => op := Destroy(x);
      case _ =>
    }
    OneMoveIsCloser(s, p, op, pc');
    acts := [Advance(p, op, pc')];
  }

  lemma WaiterCloser(s: State, p: Proc) returns (acts: seq<Act>)
    requires LanesOk(s) && p in s.procs && Waiting(s.procs[p]) && !Blocked(s, p)
    ensures Closer(s, p, acts) && NoCreation(acts)
  {
    var l :| Awaits(s.procs[p], l) && l !in s.locks;
    if s.procs[p].Chat? && (s.procs[p].at.LaneCheck? || s.procs[p].at.LaneTry?) {
      acts := LaneWaitCloser(s, p, l.lane);
      return;
    }
    var op, pc' := Nop, Done;
    match s.procs[p] {
      case RoomCheck(b) => pc' := if p in s.aborted then Done else RoomTry(b);
      case RoomTry(b) => op, pc' := Take(l), RoomHeld(b);
      case SoloLock => op, pc' := Take(l), SoloHeld;
      case SwapLock(i, x) => op, pc' := Take(l), SwapSet(i, x);
      case Chat(c, at) =>
        match at {
          case SessCheck(e) => pc' := Chat(c, if p in s.aborted then SessGiveUp(e) else SessTry(e));
          case SessTry(e) => op, pc' := Take(l), Chat(c, LaneCheck(e));
          case _ =>
        }
      case _ =>
    }
    OneMoveIsCloser(s, p, op, pc');
    acts := [Advance(p, op, pc')];
  }

  ghost function Total(procs: map<Proc, Pc>): nat
    decreases |procs|
  {
    if procs == map[] then 0
    else
      var p :| p in procs;
      assert |procs - {p}| < |procs| by { assert procs.Keys == (procs - {p}).Keys + {p}; }
      Rest(procs[p]) + Total(procs - {p})
  }

  lemma {:induction false} TotalAt(procs: map<Proc, Pc>, p: Proc)
    requires p in procs
    ensures Total(procs) == Rest(procs[p]) + Total(procs - {p})
    decreases |procs|
  {
    var q :| q in procs && Total(procs) == Rest(procs[q]) + Total(procs - {q});
    assert procs.Keys == (procs - {q}).Keys + {q};
    assert procs.Keys == (procs - {p}).Keys + {p};
    if q != p {
      TotalAt(procs - {q}, p);
      TotalAt(procs - {p}, q);
      assert (procs - {q}) - {p} == (procs - {p}) - {q};
    }
  }

  lemma CloserLowersTotal(s: State, p: Proc, acts: seq<Act>)
    requires Closer(s, p, acts)
    ensures Total(Final(s, acts).procs) < Total(s.procs)
  {
    var t := Final(s, acts).procs;
    TotalAt(s.procs, p);
    TotalAt(t, p);
    assert t - {p} == s.procs - {p};
  }

  ghost predicate AllDone(s: State) {
    forall p :: p in s.procs ==> s.procs[p] == Done
  }

  /** The processes of a set stand still and hold nothing. */
  ghost predicate Idle(s: State, parked: set<Proc>) {
    forall p :: p in parked ==> p in s.procs && forall l :: !Holds(s.procs[p], l)
  }

  /** A process that is neither done nor parked, and can take a step. */
  lemma SomeoneCanMove(s: State, parked: set<Proc>) returns (q: Proc)
    requires LocksOk(s) && Idle(s, parked)
    requires exists p :: p in s.procs && p !in parked && s.procs[p] != Done
    ensures q in s.procs && q !in parked && s.procs[q] != Done && !Blocked(s, q)
  {
    var p :| p in s.procs && p !in parked && s.procs[p] != Done;
    var chain := WaitChainEnds(s, p);
    q := chain[|chain| - 1];
    if |chain| > 1 {
      assert WaitsOn(s, chain[|chain| - 2], q);
    }
  }

  lemma MoveCloser(s: State, q: Proc, create: bool) returns (acts: seq<Act>)
    requires LanesOk(s) && q in s.procs && s.procs[q] != Done && !Blocked(s, q)
    ensures Closer(s, q, acts) && (!create ==> NoCreation(acts))
  {
    if Waiting(s.procs[q]) {
      acts := WaiterCloser(s, q);
    } else if s.procs[q].Chat? {
      acts := ChatCloser(s, q);
    } else {
      acts := PlainCloser(s, q, create);
    }
  }

  /** Everything but the parked processes has returned. */
  ghost predicate Drained(procs: map<Proc, Pc>, t: map<Proc, Pc>, parked: set<Proc>) {
    t.Keys == procs.Keys && forall p :: p in t ==> t[p] == if p in parked && p in procs then procs[p] else Done
  }

  /** One process is brought closer to its end; the parked ones stay. */
  lemma DrainTurn(s: State, parked: set<Proc>, create: bool) returns (acts: seq<Act>)
    requires Safe(s) && LanesOk(s) && Idle(s, parked)
    requires exists p :: p in s.procs && p !in parked && s.procs[p] != Done
    ensures Behaviour(s, acts) && (forall k :: 0 <= k < |acts| ==> acts[k].Advance?) && (!create ==> NoCreation(acts))
    ensures var t := Final(s, acts);
            && Safe(t) && LanesOk(t) && Idle(t, parked) && Total(t.procs) < Total(s.procs)
            && t.procs.Keys == s.procs.Keys && forall p :: p in parked ==> t.procs[p] == s.procs[p]
  {
    hide Behaviour, Final, LanesOk, PinsOk, IdsOk, TasksOk, Total, Rest, Holds;
    var q := SomeoneCanMove(s, parked);
    acts := MoveCloser(s, q, create);
    CloserLowersTotal(s, q, acts);
    BehaviourKeepsInvariants(s, acts);
  }

  /** All processes but those parked can be run until every one of them has returned,
      without aborting any. */
  lemma {:induction false} DrainBut(s: State, parked: set<Proc>, create: bool) returns (acts: seq<Act>)
    requires Safe(s) && LanesOk(s) && Idle(s, parked)
    ensures Behaviour(s, acts) && Safe(Final(s, acts)) && LanesOk(Final(s, acts))
    ensures forall k :: 0 <= k < |acts| ==> acts[k].Advance?
    ensures !create ==> NoCreation(acts)
    ensures Drained(s.procs, Final(s, acts).procs, parked)
    decreases Total(s.procs)
  {
    hide Behaviour, Final, Safe, LanesOk, Idle, Total;
    if forall p :: p in s.procs && p !in parked ==> s.procs[p] == Done {
      Nothing(s);
      return [];
    }
    var first := DrainTurn(s, parked, create);
    var rest := DrainBut(Final(s, first), parked, create);
    Compose(s, first, rest);
    acts := first + rest;
  }

  /** No deadlock, in its strong form: from a safe state the processes present can
      be run until every one of them has returned, without aborting any. */
  lemma Drain(s: State) returns (acts: seq<Act>)
    requires Safe(s) && LanesOk(s)
    ensures Behaviour(s, acts) && AllDone(Final(s, acts))
    ensures forall k :: 0 <= k < |acts| ==> acts[k].Advance?
    ensures Safe(Final(s, acts))
  {
    acts := DrainBut(s, {}, true);
  }

  /** From every reachable state the system can run to rest, and at rest no lock is
      held, the session table is empty and no task is referenced. */
  lemma EveryReachableStateDrains(s0: State, acts: seq<Act>) returns (more: seq<Act>)
    requires Initial(s0) && Behaviour(s0, acts)
    ensures Behaviour(s0, acts + more)
    ensures forall k :: 0 <= k < |more| ==> more[k].Advance?
    ensures var s := Final(s0, acts + more);
            AllDone(s) && s.locks == map[] && s.table == Table([], map[]) && forall p :: Refs(s, p) == 0
  {
    EveryBehaviourIsSafe(s0, acts);
    assert Safe(s0) by { EveryBehaviourIsSafe(s0, []); }
    BehaviourKeepsInvariants(s0, acts);
    more := Drain(Final(s0, acts));
    Compose(s0, acts, more);
    AtRest(Final(s0, acts + more));
  }

  lemma AtRest(s: State)
    requires Safe(s) && AllDone(s)
    ensures s.locks == map[] && s.table == Table([], map[]) && forall p :: Refs(s, p) == 0
  {
    forall l ensures l !in s.locks {
      assert forall p :: p in s.procs ==> !Holds(s.procs[p], l);
    }
    forall h ensures h !in s.table.recs {
      assert Pinners(s.procs, h) == {};
    }
    HeadIsMember(s.table.list);
  }

  lemma HeadIsMember<T>(s: seq<T>)
    ensures s != [] ==> s[0] in s
  {
  }
}
