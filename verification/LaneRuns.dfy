/**
 That calls get through: alone, with nobody in its way, each kind of call runs as its code
 says and leaves nothing behind, and so does each way of giving up.
 */
module LaneRuns {
  import opened Options
  import opened Rooms
  import opened LaneTable
  import opened LaneProtocol
  import opened LaneSafety
  import opened LlmSwap
  import opened LaneProgress

  // ----- runs of one process -----

  ghost predicate Own(acts: seq<Act>, p: Proc) {
    forall k :: 0 <= k < |acts| ==> (acts[k].Advance? || acts[k].Arrive?) && acts[k].p == p
  }

  /** `p` alone leads from `s` to `t`. */
  ghost predicate Leads(s: State, p: Proc, t: State) {
    exists acts :: Behaviour(s, acts) && Own(acts, p) && Final(s, acts) == t
  }

  lemma Stay(s: State, p: Proc)
    ensures Leads(s, p, s)
  {
    Nothing(s);
    var none: seq<Act> := [];
    assert Own(none, p);
  }

  lemma Do(s: State, p: Proc, a: Act, t: State)
    requires Enabled(s, a) && (a.Advance? || a.Arrive?) && a.p == p && Next(s, a) == t
    ensures Leads(s, p, t)
  {
    hide Enabled, Next;
    One(s, a);
    assert Own([a], p);
  }

  lemma Via(s: State, p: Proc, t: State, u: State)
    requires Leads(s, p, t) && Leads(t, p, u)
    ensures Leads(s, p, u)
  {
    hide Behaviour, Final;
    var a :| Behaviour(s, a) && Own(a, p) && Final(s, a) == t;
    var b :| Behaviour(t, b) && Own(b, p) && Final(t, b) == u;
    Compose(s, a, b);
    assert Own(a + b, p);
  }

  /** `s` with process `p` at `pc`, and locks, table and task references as given. */
  function In(s: State, p: Proc, pc: Pc, locks: map<Lock, Proc>, table: Table<Handle>, refs: map<Proc, nat>): State {
    s.(procs := s.procs[p := pc], locks := locks, table := table, taskRefs := refs)
  }

  /** An operation on locks, table or references takes `p` from one such state to another. */
  lemma Moves(s: State, p: Proc, t: State, u: State, locks: map<Lock, Proc>, table: Table<Handle>, refs: map<Proc, nat>, pc: Pc,
              op: Op, pc': Pc)
    requires Leads(s, p, t) && t == In(s, p, pc, locks, table, refs) && Move(t, p, op, pc')
    requires !op.NewLlm? && !op.SetLane? && !op.Publish? && !op.Destroy?
    requires u == In(s, p, pc', LocksAfter(locks, p, op), TableAfter(table, op), RefsAfter(t, p, op))
    ensures Leads(s, p, u)
  {
    hide Leads, Move, LocksAfter, TableAfter, RefsAfter;
    assert t.procs[p := pc'] == s.procs[p := pc'];
    Do(t, p, Advance(p, op, pc'), u);
    Via(s, p, t, u);
  }

  lemma NopMoves(s: State, p: Proc, locks: map<Lock, Proc>, table: Table<Handle>, refs: map<Proc, nat>, pc: Pc, pc': Pc)
    requires Leads(s, p, In(s, p, pc, locks, table, refs)) && Move(In(s, p, pc, locks, table, refs), p, Nop, pc')
    ensures Leads(s, p, In(s, p, pc', locks, table, refs))
  {
    hide Leads, Move;
    Moves(s, p, In(s, p, pc, locks, table, refs), In(s, p, pc', locks, table, refs), locks, table, refs, pc, Nop, pc');
  }

  lemma TakeMoves(s: State, p: Proc, locks: map<Lock, Proc>, table: Table<Handle>, refs: map<Proc, nat>, pc: Pc, l: Lock, pc': Pc)
    requires Leads(s, p, In(s, p, pc, locks, table, refs)) && Move(In(s, p, pc, locks, table, refs), p, Take(l), pc')
    ensures Leads(s, p, In(s, p, pc', locks[l := p], table, refs))
  {
    hide Leads, Move;
    Moves(s, p, In(s, p, pc, locks, table, refs), In(s, p, pc', locks[l := p], table, refs), locks, table, refs, pc, Take(l), pc');
  }

  /** Giving back a lock that was free before. */
  lemma DropMoves(s: State, p: Proc, locks: map<Lock, Proc>, table: Table<Handle>, refs: map<Proc, nat>, pc: Pc, l: Lock, pc': Pc)
    requires l !in locks && Leads(s, p, In(s, p, pc, locks[l := p], table, refs))
    requires Move(In(s, p, pc, locks[l := p], table, refs), p, Drop(l), pc')
    ensures Leads(s, p, In(s, p, pc', locks, table, refs))
  {
    hide Leads, Move;
    assert locks[l := p] - {l} == locks;
    Moves(s, p, In(s, p, pc, locks[l := p], table, refs), In(s, p, pc', locks, table, refs), locks[l := p], table, refs, pc, Drop(l), pc');
  }

  /** What the process does next, where the code leaves it no choice. */
  lemma Onward(t: State, p: Proc)
    requires p in t.procs
    ensures match t.procs[p]
            case Chat(c, Running(e, i, _)) => Move(t, p, Nop, Chat(c, Ran(e, i)))
            case Chat(c, Ran(e, i)) => Move(t, p, TaskDown, Chat(c, LaneLeave(e, i)))
            case Chat(c, LaneLeave(e, i)) => Move(t, p, Drop(Lane(i)), Chat(c, SessLeave(e)))
            case Chat(c, SessLeave(e)) => Move(t, p, Drop(Sess(e)), Chat(c, SessLeft(e)))
            case Chat(c, SessLeft(e)) => Move(t, p, Unpin(e), After(c))
            case SoloHeld => |t.lanes| > 0 ==> Move(t, p, Nop, SoloRunning(t.lanes[0]))
            case SoloRunning(_) => Move(t, p, Nop, SoloHeld) && Move(t, p, Nop, SoloLeave)
            case SoloLeave => Move(t, p, Drop(Lane(0)), Done)
            case _ => true
  {
  }

  lemma Scans(t: State, p: Proc, c: Call, e: Handle)
    requires p in t.procs && p !in t.aborted
    ensures t.procs[p] == Chat(c, LaneCheck(e)) ==> Move(t, p, Nop, Chat(c, LaneTry(e, 0)))
    ensures t.procs[p] == Chat(c, LaneTry(e, 0)) && Lane(0) !in t.locks ==> Move(t, p, Take(Lane(0)), Chat(c, LaneHeld(e, 0)))
    ensures t.procs[p] == Chat(c, LaneHeld(e, 0)) && |t.lanes| > 0 ==> Move(t, p, Nop, Chat(c, Running(e, 0, t.lanes[0])))
  {
  }

  // ----- chat_lane_run -----

  predicate OnlyRooms(locks: map<Lock, Proc>) {
    forall l :: l in locks ==> l.Room?
  }

  /** The session id a call asks for. */
  function Asked(c: Call): string {
    if c.session == "" then "default" else c.session
  }

  /** How a lookup leaves the table, and which entry it gives. */
  ghost predicate Entered(t: Table<Handle>, t': Table<Handle>, e: Handle, id: string) {
    && e in t'.recs && t'.recs[e].id == id && LaneTable.Unpin(t', e) == t
  }

  lemma PinnedIsUndone(t: Table<Handle>, h: Handle)
    requires TableOk(t) && h in t.recs
    ensures LaneTable.Unpin(LaneTable.Pin(t, h), h) == t
  {
    assert t.recs[h := t.recs[h]] == t.recs;
  }

  lemma MadeIsUndone(t: Table<Handle>, h: Handle, id: string)
    requires h !in t.recs
    ensures LaneTable.Unpin(LaneTable.Make(t, h, id), h) == t
  {
    assert LaneTable.Without([h] + t.list, h) == t.list;
    assert t.recs[h := Rec(id, 1)] - {h} == t.recs;
  }

  /** The lookup of a session finds its entry or can make one. */
  lemma AnEntry(s: State, p: Proc, c: Call) returns (e: Handle, op: Op)
    requires TableOk(s.table) && OnlyRooms(s.locks)
    ensures ChatMove(s, p, c, Lookup, op, Chat(c, SessCheck(e))) && (op == Pin(e) || op == Make(e, Asked(c)))
    ensures Entered(s.table, TableAfter(s.table, op), e, Asked(c)) && LocksAfter(s.locks, p, op) == s.locks
  {
    var r := Find(s.table, s.table.list, Key(c.session));
    if r.Some? {
      e, op := r.value, Pin(r.value);
      PinnedIsUndone(s.table, e);
    } else {
      e := Unused(s.table.recs.Keys);
      op := Make(e, Key(c.session));
      MadeIsUndone(s.table, e, Key(c.session));
      assert s.locks - {Sess(e)} == s.locks;
    }
  }

  /** Taken up: referenced once more and counted in its session's entry. */
  lemma TakesUp(s: State, p: Proc, c: Call) returns (e: Handle, table: Table<Handle>, refs: map<Proc, nat>)
    requires p in s.procs && s.procs[p] == Chat(c, Acquire) && TableOk(s.table) && OnlyRooms(s.locks)
    ensures Entered(s.table, table, e, Asked(c)) && refs == s.taskRefs[p := Refs(s, p) + 1]
    ensures Leads(s, p, In(s, p, Chat(c, SessCheck(e)), s.locks, table, refs))
  {
    hide Leads, TableOk, Entered, TableAfter;
    refs := s.taskRefs[p := Refs(s, p) + 1];
    Stay(s, p);
    assert s == In(s, p, Chat(c, Acquire), s.locks, s.table, s.taskRefs);
    var a := In(s, p, Chat(c, Lookup), s.locks, s.table, refs);
    Raised(s, p);
    Moves(s, p, s, a, s.locks, s.table, s.taskRefs, Chat(c, Acquire), TaskUp, Chat(c, Lookup));
    var op;
    e, op := AnEntry(a, p, c);
    table := TableAfter(s.table, op);
    Moves(s, p, a, In(s, p, Chat(c, SessCheck(e)), s.locks, table, refs), s.locks, s.table, refs, Chat(c, Lookup), op, Chat(c, SessCheck(e)));
  }

  lemma Raised(s: State, p: Proc)
    ensures LocksAfter(s.locks, p, TaskUp) == s.locks && TableAfter(s.table, TaskUp) == s.table
    ensures RefsAfter(s, p, TaskUp) == s.taskRefs[p := Refs(s, p) + 1]
  {
  }

  /** From the entry to its lock. */
  lemma TakesSession(s: State, p: Proc, c: Call, e: Handle, table: Table<Handle>, refs: map<Proc, nat>)
    requires p !in s.aborted && OnlyRooms(s.locks)
    requires Leads(s, p, In(s, p, Chat(c, SessCheck(e)), s.locks, table, refs))
    ensures Leads(s, p, In(s, p, Chat(c, LaneCheck(e)), s.locks[Sess(e) := p], table, refs))
  {
    hide Leads;
    var a := In(s, p, Chat(c, SessCheck(e)), s.locks, table, refs);
    var b := In(s, p, Chat(c, SessTry(e)), s.locks, table, refs);
    Moves(s, p, a, b, s.locks, table, refs, Chat(c, SessCheck(e)), Nop, Chat(c, SessTry(e)));
    Moves(s, p, b, In(s, p, Chat(c, LaneCheck(e)), s.locks[Sess(e) := p], table, refs), s.locks, table, refs,
          Chat(c, SessTry(e)), Take(Sess(e)), Chat(c, LaneCheck(e)));
  }

  /** From there to the first lane. */
  lemma TakesLane(s: State, p: Proc, c: Call, e: Handle, locks: map<Lock, Proc>, table: Table<Handle>, refs: map<Proc, nat>)
    requires p !in s.aborted && Lane(0) !in locks && |s.lanes| == LANES
    requires Leads(s, p, In(s, p, Chat(c, LaneCheck(e)), locks, table, refs))
    ensures Leads(s, p, In(s, p, Chat(c, Running(e, 0, s.lanes[0])), locks[Lane(0) := p], table, refs))
  {
    hide Leads, Move;
    var l := locks[Lane(0) := p];
    Scans(In(s, p, Chat(c, LaneCheck(e)), locks, table, refs), p, c, e);
    NopMoves(s, p, locks, table, refs, Chat(c, LaneCheck(e)), Chat(c, LaneTry(e, 0)));
    Scans(In(s, p, Chat(c, LaneTry(e, 0)), locks, table, refs), p, c, e);
    TakeMoves(s, p, locks, table, refs, Chat(c, LaneTry(e, 0)), Lane(0), Chat(c, LaneHeld(e, 0)));
    Scans(In(s, p, Chat(c, LaneHeld(e, 0)), l, table, refs), p, c, e);
    NopMoves(s, p, l, table, refs, Chat(c, LaneHeld(e, 0)), Chat(c, Running(e, 0, s.lanes[0])));
  }

  /** Through: alone, with the locks of sessions and lanes free, a call gets its session and
      the first lane, and runs there with that lane's LLM. */
  lemma ACallRuns(s: State, p: Proc, c: Call) returns (e: Handle, m: State)
    requires p in s.procs && s.procs[p] == Chat(c, Acquire) && TableOk(s.table) && OnlyRooms(s.locks)
    requires p !in s.aborted && |s.lanes| == LANES
    ensures Leads(s, p, m) && Entered(s.table, m.table, e, Asked(c))
    ensures m == In(s, p, Chat(c, Running(e, 0, s.lanes[0])), s.locks[Sess(e) := p][Lane(0) := p], m.table, s.taskRefs[p := Refs(s, p) + 1])
  {
    hide Leads, Entered, TableOk;
    var table, refs;
    e, table, refs := TakesUp(s, p, c);
    TakesSession(s, p, c, e, table, refs);
    TakesLane(s, p, c, e, s.locks[Sess(e) := p], table, refs);
    m := In(s, p, Chat(c, Running(e, 0, s.lanes[0])), s.locks[Sess(e) := p][Lane(0) := p], table, refs);
  }

  /** A task reference taken before is given back. */
  lemma DownMoves(s: State, p: Proc, locks: map<Lock, Proc>, table: Table<Handle>, pc: Pc, pc': Pc)
    requires Leads(s, p, In(s, p, pc, locks, table, s.taskRefs[p := Refs(s, p) + 1]))
    requires Move(In(s, p, pc, locks, table, s.taskRefs[p := Refs(s, p) + 1]), p, TaskDown, pc')
    ensures Leads(s, p, In(s, p, pc', locks, table, s.taskRefs[p := Refs(s, p)]))
  {
    hide Leads, Move;
    var up, down := s.taskRefs[p := Refs(s, p) + 1], s.taskRefs[p := Refs(s, p)];
    assert up[p := Refs(s, p)] == down;
    Moves(s, p, In(s, p, pc, locks, table, up), In(s, p, pc', locks, table, down), locks, table, up, pc, TaskDown, pc');
  }

  /** The run over, lane and session are given back and the task is let go. */
  lemma GivesBackLane(s: State, p: Proc, c: Call, e: Handle, llm: Llm, locks: map<Lock, Proc>, table: Table<Handle>)
    requires Lane(0) !in locks
    requires Leads(s, p, In(s, p, Chat(c, Running(e, 0, llm)), locks[Lane(0) := p], table, s.taskRefs[p := Refs(s, p) + 1]))
    ensures Leads(s, p, In(s, p, Chat(c, SessLeave(e)), locks, table, s.taskRefs[p := Refs(s, p)]))
  {
    hide Leads, Move;
    var up, down, l := s.taskRefs[p := Refs(s, p) + 1], s.taskRefs[p := Refs(s, p)], locks[Lane(0) := p];
    Onward(In(s, p, Chat(c, Running(e, 0, llm)), l, table, up), p);
    NopMoves(s, p, l, table, up, Chat(c, Running(e, 0, llm)), Chat(c, Ran(e, 0)));
    Onward(In(s, p, Chat(c, Ran(e, 0)), l, table, up), p);
    DownMoves(s, p, l, table, Chat(c, Ran(e, 0)), Chat(c, LaneLeave(e, 0)));
    Onward(In(s, p, Chat(c, LaneLeave(e, 0)), l, table, down), p);
    DropMoves(s, p, locks, table, down, Chat(c, LaneLeave(e, 0)), Lane(0), Chat(c, SessLeave(e)));
  }

  lemma GivesBackSession(s: State, p: Proc, c: Call, e: Handle, locks: map<Lock, Proc>, table: Table<Handle>, refs: map<Proc, nat>)
    requires Sess(e) !in locks
    requires Leads(s, p, In(s, p, Chat(c, SessLeave(e)), locks[Sess(e) := p], table, refs))
    ensures Leads(s, p, In(s, p, After(c), locks, LaneTable.Unpin(table, e), refs))
  {
    hide Leads, Move;
    Onward(In(s, p, Chat(c, SessLeave(e)), locks[Sess(e) := p], table, refs), p);
    DropMoves(s, p, locks, table, refs, Chat(c, SessLeave(e)), Sess(e), Chat(c, SessLeft(e)));
    var a := In(s, p, Chat(c, SessLeft(e)), locks, table, refs);
    Onward(a, p);
    Moves(s, p, a, In(s, p, After(c), locks, LaneTable.Unpin(table, e), refs), locks, table, refs,
          Chat(c, SessLeft(e)), Unpin(e), After(c));
  }

  /** Where a call that leaves nothing behind has led. */
  function Returned(s: State, p: Proc, c: Call): State {
    In(s, p, After(c), s.locks, s.table, s.taskRefs[p := Refs(s, p)])
  }

  /** A call can run to its end and leave locks, table and references as they were. */
  lemma ACallRunsAndReturns(s: State, p: Proc, c: Call) returns (e: Handle, m: State)
    requires p in s.procs && s.procs[p] == Chat(c, Acquire) && TableOk(s.table) && OnlyRooms(s.locks)
    requires p !in s.aborted && |s.lanes| == LANES
    ensures Leads(s, p, m) && m.procs[p] == Chat(c, Running(e, 0, s.lanes[0]))
    ensures m.locks == s.locks[Sess(e) := p][Lane(0) := p] && e in m.table.recs && m.table.recs[e].id == Asked(c)
    ensures Leads(s, p, Returned(s, p, c))
  {
    hide Leads, TableOk;
    e, m := ACallRuns(s, p, c);
    var l := s.locks[Sess(e) := p];
    GivesBackLane(s, p, c, e, s.lanes[0], l, m.table);
    GivesBackSession(s, p, c, e, s.locks, m.table, s.taskRefs[p := Refs(s, p)]);
  }

  // ----- ways of giving up -----

  /** A task that is gone is refused. */
  lemma ACallIsRefused(s: State, p: Proc, c: Call)
    requires p in s.procs && s.procs[p] == Chat(c, Acquire)
    ensures Leads(s, p, s.(procs := s.procs[p := After(c)]))
  {
    Do(s, p, Advance(p, Nop, After(c)), s.(procs := s.procs[p := After(c)]));
  }

  lemma LetsGo(s: State, p: Proc, c: Call, table: Table<Handle>)
    requires Leads(s, p, In(s, p, Chat(c, Abandon), s.locks, table, s.taskRefs[p := Refs(s, p) + 1]))
    ensures Leads(s, p, In(s, p, After(c), s.locks, table, s.taskRefs[p := Refs(s, p)]))
  {
    hide Leads;
    DownMoves(s, p, s.locks, table, Chat(c, Abandon), After(c));
  }

  /** Without memory for a new entry the call returns, and has changed nothing. */
  lemma ACallWithoutMemoryReturns(s: State, p: Proc, c: Call)
    requires p in s.procs && s.procs[p] == Chat(c, Acquire) && Find(s.table, s.table.list, Key(c.session)).None?
    ensures Leads(s, p, Returned(s, p, c))
  {
    hide Leads, Find;
    var up := s.taskRefs[p := Refs(s, p) + 1];
    Stay(s, p);
    assert s == In(s, p, Chat(c, Acquire), s.locks, s.table, s.taskRefs);
    var a := In(s, p, Chat(c, Lookup), s.locks, s.table, up);
    Raised(s, p);
    Moves(s, p, s, a, s.locks, s.table, s.taskRefs, Chat(c, Acquire), TaskUp, Chat(c, Lookup));
    Moves(s, p, a, In(s, p, Chat(c, Abandon), s.locks, s.table, up), s.locks, s.table, up, Chat(c, Lookup), Nop, Chat(c, Abandon));
    LetsGo(s, p, c, s.table);
  }

  /** An aborted call returns before it has its session, and has changed nothing. */
  lemma AnAbortedCallReturns(s: State, p: Proc, c: Call)
    requires p in s.procs && s.procs[p] == Chat(c, Acquire) && TableOk(s.table) && OnlyRooms(s.locks) && p in s.aborted
    ensures Leads(s, p, Returned(s, p, c))
  {
    hide Leads, TableOk;
    var e, table, up := TakesUp(s, p, c);
    var a := In(s, p, Chat(c, SessCheck(e)), s.locks, table, up);
    var b := In(s, p, Chat(c, SessGiveUp(e)), s.locks, table, up);
    Moves(s, p, a, b, s.locks, table, up, Chat(c, SessCheck(e)), Nop, Chat(c, SessGiveUp(e)));
    Moves(s, p, b, In(s, p, Chat(c, Abandon), s.locks, s.table, up), s.locks, table, up, Chat(c, SessGiveUp(e)), Unpin(e), Chat(c, Abandon));
    LetsGo(s, p, c, s.table);
  }

  /** Any process may be aborted at any time, which by itself changes nothing else. */
  lemma AnAbortIsSeen(s: State, p: Proc)
    requires p in s.procs
    ensures Enabled(s, Abort(p)) && Next(s, Abort(p)) == s.(aborted := s.aborted + {p})
  {
  }

  lemma GivesUp(t: State, p: Proc, c: Call, e: Handle)
    requires p in t.procs && p in t.aborted
    ensures t.procs[p] == Chat(c, LaneCheck(e)) ==> Move(t, p, Nop, Chat(c, LaneGiveUp(e)))
    ensures t.procs[p] == Chat(c, LaneGiveUp(e)) ==> Move(t, p, Drop(Sess(e)), Chat(c, LaneGaveUp(e)))
    ensures t.procs[p] == Chat(c, LaneGaveUp(e)) ==> Move(t, p, Unpin(e), Chat(c, Abandon))
    ensures t.procs[p] == Chat(c, Abandon) ==> Move(t, p, TaskDown, After(c))
  {
  }

  /** A call aborted while it waits for a lane gives its session back and returns. */
  lemma AnAbortedWaiterReturns(s: State, p: Proc, c: Call, e: Handle, locks: map<Lock, Proc>, n: nat)
    requires p in s.procs && s.procs[p] == Chat(c, LaneCheck(e)) && p in s.aborted
    requires Sess(e) !in locks && s.locks == locks[Sess(e) := p] && Refs(s, p) == n + 1
    ensures Leads(s, p, In(s, p, After(c), locks, LaneTable.Unpin(s.table, e), s.taskRefs[p := n]))
  {
    hide Leads, Move;
    Stay(s, p);
    assert s == In(s, p, Chat(c, LaneCheck(e)), locks[Sess(e) := p], s.table, s.taskRefs);
    GivesUp(s, p, c, e);
    GivesUp(In(s, p, Chat(c, LaneGiveUp(e)), locks[Sess(e) := p], s.table, s.taskRefs), p, c, e);
    NopMoves(s, p, locks[Sess(e) := p], s.table, s.taskRefs, Chat(c, LaneCheck(e)), Chat(c, LaneGiveUp(e)));
    DropMoves(s, p, locks, s.table, s.taskRefs, Chat(c, LaneGiveUp(e)), Sess(e), Chat(c, LaneGaveUp(e)));
    var a := In(s, p, Chat(c, LaneGaveUp(e)), locks, s.table, s.taskRefs);
    var b := In(s, p, Chat(c, Abandon), locks, LaneTable.Unpin(s.table, e), s.taskRefs);
    GivesUp(a, p, c, e);
    GivesUp(b, p, c, e);
    Moves(s, p, a, b, locks, s.table, s.taskRefs, Chat(c, LaneGaveUp(e)), Unpin(e), Chat(c, Abandon));
    Moves(s, p, b, In(s, p, After(c), locks, LaneTable.Unpin(s.table, e), s.taskRefs[p := n]), locks, LaneTable.Unpin(s.table, e), s.taskRefs,
          Chat(c, Abandon), TaskDown, After(c));
  }

  // ----- the other kinds of process -----

  predicate Arrives(pc: Pc, bucket: nat, session: string) {
    pc == RoomCheck(bucket) || pc == Chat(Call(None, session), Acquire) || pc == SoloLock || pc == SwapCreate
  }

  /** Every kind of process may arrive at any time. */
  lemma AnyMayArrive(s: State, p: Proc, bucket: nat, session: string)
    requires p !in s.procs && bucket < 64
    ensures forall pc :: Arrives(pc, bucket, session) ==> Leads(s, p, s.(procs := s.procs[p := pc]))
  {
    forall pc | Arrives(pc, bucket, session)
      ensures Leads(s, p, s.(procs := s.procs[p := pc]))
    {
      Do(s, p, Arrive(p, pc), s.(procs := s.procs[p := pc]));
    }
  }

  lemma Frame(s: State, p: Proc, pc: Pc)
    ensures s.(procs := s.procs[p := pc]) == In(s, p, pc, s.locks, s.table, s.taskRefs)
  {
  }

  /** A discussion whose room is free takes it and calls on behalf of a member. */
  lemma ADiscussionCalls(s: State, p: Proc, bucket: nat, session: string)
    requires p in s.procs && s.procs[p] == RoomCheck(bucket) && Room(bucket) !in s.locks && p !in s.aborted
    ensures Leads(s, p, In(s, p, Chat(Call(Some(bucket), session), Acquire), s.locks[Room(bucket) := p], s.table, s.taskRefs))
  {
    hide Leads;
    var l := s.locks[Room(bucket) := p];
    var a := In(s, p, RoomTry(bucket), s.locks, s.table, s.taskRefs);
    var b := In(s, p, RoomHeld(bucket), l, s.table, s.taskRefs);
    var call := Chat(Call(Some(bucket), session), Acquire);
    Stay(s, p);
    assert s == In(s, p, RoomCheck(bucket), s.locks, s.table, s.taskRefs);
    Moves(s, p, s, a, s.locks, s.table, s.taskRefs, RoomCheck(bucket), Nop, RoomTry(bucket));
    Moves(s, p, a, b, s.locks, s.table, s.taskRefs, RoomTry(bucket), Take(Room(bucket)), RoomHeld(bucket));
    Moves(s, p, b, In(s, p, call, l, s.table, s.taskRefs), l, s.table, s.taskRefs, RoomHeld(bucket), Nop, call);
  }

  /** A call of a discussion comes back to the room, which can be given back. */
  lemma ADiscussionLeaves(s: State, p: Proc, bucket: nat)
    requires p in s.procs && s.procs[p] == RoomHeld(bucket)
    ensures Leads(s, p, s.(procs := s.procs[p := Done], locks := s.locks - {Room(bucket)}))
    ensures forall session :: After(Call(Some(bucket), session)) == RoomHeld(bucket)
  {
    Do(s, p, Advance(p, Drop(Room(bucket)), Done), s.(procs := s.procs[p := Done], locks := s.locks - {Room(bucket)}));
  }

  /** An aborted discussion does not take its room. */
  lemma AnAbortedDiscussionReturns(s: State, p: Proc, bucket: nat)
    requires p in s.procs && s.procs[p] == RoomCheck(bucket) && p in s.aborted
    ensures Leads(s, p, s.(procs := s.procs[p := Done]))
  {
    Do(s, p, Advance(p, Nop, Done), s.(procs := s.procs[p := Done]));
  }

  /** A single-agent call runs on the first lane, twice if it must, and gives it back. */
  lemma ASoloCallRuns(s: State, p: Proc)
    requires p in s.procs && s.procs[p] == SoloLock && Lane(0) !in s.locks && |s.lanes| == LANES
    ensures var l := s.locks[Lane(0) := p];
            && Leads(s, p, In(s, p, SoloRunning(s.lanes[0]), l, s.table, s.taskRefs))
            && (forall x :: Leads(In(s, p, SoloRunning(x), l, s.table, s.taskRefs), p,
                                  In(s, p, SoloRunning(s.lanes[0]), l, s.table, s.taskRefs)))
    ensures Leads(s, p, s.(procs := s.procs[p := Done]))
  {
    hide Leads;
    Stay(s, p);
    assert s == In(s, p, SoloLock, s.locks, s.table, s.taskRefs);
    TakeMoves(s, p, s.locks, s.table, s.taskRefs, SoloLock, Lane(0), SoloHeld);
    hide Move;
    var l := s.locks[Lane(0) := p];
    Onward(In(s, p, SoloHeld, l, s.table, s.taskRefs), p);
    NopMoves(s, p, l, s.table, s.taskRefs, SoloHeld, SoloRunning(s.lanes[0]));
    Onward(In(s, p, SoloRunning(s.lanes[0]), l, s.table, s.taskRefs), p);
    NopMoves(s, p, l, s.table, s.taskRefs, SoloRunning(s.lanes[0]), SoloLeave);
    Onward(In(s, p, SoloLeave, l, s.table, s.taskRefs), p);
    DropMoves(s, p, s.locks, s.table, s.taskRefs, SoloLeave, Lane(0), Done);
    Frame(s, p, Done);
    forall x ensures Leads(In(s, p, SoloRunning(x), l, s.table, s.taskRefs), p, In(s, p, SoloRunning(s.lanes[0]), l, s.table, s.taskRefs)) {
      RunsAgain(s, p, x, l);
    }
  }

  lemma RunsAgain(s: State, p: Proc, x: Llm, l: map<Lock, Proc>)
    requires |s.lanes| == LANES
    ensures Leads(In(s, p, SoloRunning(x), l, s.table, s.taskRefs), p, In(s, p, SoloRunning(s.lanes[0]), l, s.table, s.taskRefs))
  {
    hide Leads, Move;
    var t := In(s, p, SoloRunning(x), l, s.table, s.taskRefs);
    var u := In(s, p, SoloHeld, l, s.table, s.taskRefs);
    var v := In(s, p, SoloRunning(s.lanes[0]), l, s.table, s.taskRefs);
    Onward(t, p);
    Onward(u, p);
    assert t.procs[p := SoloHeld] == u.procs && u.procs[p := SoloRunning(s.lanes[0])] == v.procs;
    Do(t, p, Advance(p, Nop, SoloHeld), u);
    Do(u, p, Advance(p, Nop, SoloRunning(s.lanes[0])), v);
    Via(t, p, u, v);
  }
}
