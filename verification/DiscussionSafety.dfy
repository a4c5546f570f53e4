/**
 What every interleaving of Discussion keeps, and the takeover guarantees that
 follow from it.
 */
module DiscussionSafety {
  import opened Options
  import opened Rooms
  import opened Discussion

  // ----- the log -----

  lemma {:induction false} LatestIsLast(log: seq<Msg>, i: nat)
    requires i < |log| && log[i].Human?
    requires forall k, j :: 0 <= k < j < |log| ==> log[k].id < log[j].id
    ensures Latest(log) >= log[i].id
    ensures Human(Latest(log)) in log
  {
    var n := |log| - 1;
    if !log[n].Human? {
      LatestIsLast(log[..n], i);
    } else if i < n {
      assert log[i].id < log[n].id;
    }
  }

  lemma {:induction false} LatestBounded(log: seq<Msg>, bound: nat)
    requires forall i :: 0 <= i < |log| ==> log[i].id < bound
    requires bound > 0
    ensures Latest(log) < bound
  {
    if log != [] && !log[|log| - 1].Human? {
      LatestBounded(log[..|log| - 1], bound);
    }
  }

  lemma LatestOfAppend(log: seq<Msg>, m: Msg)
    ensures Latest(log + [m]) == if m.Human? then m.id else Latest(log)
  {
    assert (log + [m])[..|log|] == log;
  }

  lemma AppendKeepsLogOk(s: State, s': State, log: seq<Msg>, m: Msg)
    requires LogOk(s, log) && m.id == s.nextId && s'.nextId == s.nextId + 1 && s.nextId > 0
    requires forall t :: t in s.tasks ==> t in s'.tasks && s'.tasks[t].trigger == s.tasks[t].trigger
    requires m.Reply? ==> m.author in s.tasks && Latest(log) == s.tasks[m.author].trigger
    ensures LogOk(s', log + [m])
  {
    var l := log + [m];
    forall j | 0 <= j < |l| && l[j].Reply?
      ensures l[j].author in s'.tasks && Latest(l[..j]) == s'.tasks[l[j].author].trigger
    {
      assert l[..j] == log[..j];
      assert log[..|log|] == log;
    }
  }

  lemma KeepLogs(s: State, s': State)
    requires LogsOk(s) && s'.nextId >= s.nextId
    requires forall r :: r in s'.rooms ==> r in s.rooms && s'.rooms[r] == s.rooms[r]
    requires forall t :: t in s.tasks ==> t in s'.tasks && s'.tasks[t].trigger == s.tasks[t].trigger
    ensures LogsOk(s')
  {
  }

  lemma AppendKeepsLogs(s: State, s': State, room: RoomId, m: Msg)
    requires LogsOk(s) && room in s.rooms && m.id == s.nextId
    requires s'.rooms == s.rooms[room := s.rooms[room] + [m]] && s'.nextId == s.nextId + 1
    requires forall t :: t in s.tasks ==> t in s'.tasks && s'.tasks[t].trigger == s.tasks[t].trigger
    requires m.Reply? ==> m.author in s.tasks && Latest(s.rooms[room]) == s.tasks[m.author].trigger
    ensures LogsOk(s')
  {
    AppendKeepsLogOk(s, s', s.rooms[room], m);
  }

  /** Tasks keep their room and trigger. */
  lemma TasksKeepIdentity(s: State, a: Act)
    requires Enabled(s, a)
    ensures var s' := Next(s, a);
            forall t :: t in s.tasks ==> t in s'.tasks && s'.tasks[t].trigger == s.tasks[t].trigger && s'.tasks[t].room == s.tasks[t].room
  {
  }

  lemma StepKeepsLogs(s: State, a: Act)
    requires LogsOk(s) && Enabled(s, a)
    ensures LogsOk(Next(s, a))
  {
    TasksKeepIdentity(s, a);
    match a
    case OpenRoom =>
    case PostHuman(room) => AppendKeepsLogs(s, Next(s, a), room, Human(s.nextId));
    case PostOther(room) => AppendKeepsLogs(s, Next(s, a), room, Other(s.nextId));
    case Advance(t, to) => AdvanceKeepsLogs(s, t, to);
    case _ => KeepLogs(s, Next(s, a));
  }

  lemma AdvanceKeepsLogs(s: State, t: TaskId, to: At)
    requires LogsOk(s) && Enabled(s, Advance(t, to))
    ensures LogsOk(Next(s, Advance(t, to)))
  {
    hide LogsOk;
    var s' := Next(s, Advance(t, to));
    TasksKeepIdentity(s, Advance(t, to));
    if Posts(s, s.tasks[t], to) {
      AppendKeepsLogs(s, s', s.tasks[t].room, Reply(s.nextId, t));
    } else {
      KeepLogs(s, s');
    }
  }

  // ----- staleness -----

  /** Once the trigger is not the room's latest human message, it never is again. */
  lemma StaleStays(s: State, a: Act, k: Task)
    requires LogsOk(s) && Enabled(s, a) && Current(s, k) != 0
    requires k.room < s.nextId && k.trigger < s.nextId
    ensures Current(Next(s, a), k) != 0
  {
    var s' := Next(s, a);
    if k.room in s.rooms && k.room in s'.rooms && s'.rooms[k.room] != s.rooms[k.room] {
      LogGrowsByOne(s, a, k.room);
      var log, log' := s.rooms[k.room], s'.rooms[k.room];
      LatestOfAppend(log, log'[|log'| - 1]);
    }
  }

  /** A step changes a room's log by one message at its end, with the next id. */
  lemma LogGrowsByOne(s: State, a: Act, room: RoomId)
    requires Enabled(s, a) && room in s.rooms && room in Next(s, a).rooms && Next(s, a).rooms[room] != s.rooms[room]
    requires room < s.nextId
    ensures var log, log' := s.rooms[room], Next(s, a).rooms[room];
            |log'| == |log| + 1 && log' == log + [log'[|log|]] && log'[|log|].id == s.nextId
  {
  }

  /** The staleness of a task depends on its room and trigger only. */
  lemma CurrentOfSame(s: State, j: Task, k: Task)
    requires j.room == k.room && j.trigger == k.trigger
    ensures Current(s, j) == Current(s, k)
  {
  }

  lemma MoveKeepsLateOk(s: State, t: TaskId, to: At)
    requires LogsOk(s) && t in s.tasks && LateOk(s, s.tasks[t]) && MayFollow(s, t, to)
    ensures var k' := Moved(s, s.tasks[t], to);
            && k'.late <= 1
            && (k'.late == 1 ==> Current(s, k') != 0)
            && (k'.late == 1 ==> to.Calling? || to.Answered? || to.Leaving? || to.Unlocking? || to.Returned? || to.Terminal?)
  {
    CurrentOfSame(s, s.tasks[t], Moved(s, s.tasks[t], to));
  }

  /** What an act may do to a task it does not advance. */
  lemma OthersOnlyAbort(s: State, a: Act, t: TaskId)
    requires Enabled(s, a) && t in s.tasks && !(a.Advance? && a.t == t)
    ensures var s' := Next(s, a);
            t in s'.tasks && s'.tasks[t] == s.tasks[t].(cancelled := s'.tasks[t].cancelled, expired := s'.tasks[t].expired)
  {
  }

  lemma IdsOnlyGrow(s: State, a: Act)
    requires Enabled(s, a)
    ensures Next(s, a).nextId >= s.nextId
  {
    hide MayFollow, DispatchMay, Moved;
  }

  lemma NewTaskIsQueued(s: State, a: Act, t: TaskId)
    requires Enabled(s, a) && t in Next(s, a).tasks && t !in s.tasks
    ensures a.Dispatch? && s.dispatches[a.d].Submitting?
    ensures Next(s, a).tasks[t] == Task(s.dispatches[a.d].room, s.dispatches[a.d].m, Queued, false, false, 0)
  {
  }

  lemma AdvancedTaskIsMoved(s: State, t: TaskId, to: At)
    requires Enabled(s, Advance(t, to))
    ensures var s' := Next(s, Advance(t, to)); s'.tasks == s.tasks[t := Moved(s, s.tasks[t], to)]
    ensures var k' := Moved(s, s.tasks[t], to); k'.at == to && k'.room == s.tasks[t].room && k'.trigger == s.tasks[t].trigger
  {
  }

  lemma StepKeepsLateOk(s: State, a: Act, t: TaskId)
    requires LogsOk(s) && TasksOk(s) && DispatchesOk(s) && Enabled(s, a) && t in Next(s, a).tasks
    ensures LateOk(Next(s, a), Next(s, a).tasks[t])
  {
    IdsOnlyGrow(s, a);
    if t !in s.tasks {
      NewTaskIsQueued(s, a, t);
    } else if a.Advance? && a.t == t {
      AdvancedTaskIsMoved(s, t, a.to);
      MoveKeepsLateOk(s, t, a.to);
      var k' := Moved(s, s.tasks[t], a.to);
      if k'.late == 1 {
        StaleStays(s, a, k');
      }
    } else {
      OthersOnlyAbort(s, a, t);
      if s.tasks[t].late == 1 {
        StaleStays(s, a, s.tasks[t]);
        CurrentOfSame(Next(s, a), s.tasks[t], Next(s, a).tasks[t]);
      }
    }
  }

  // ----- rooms -----

  lemma TakeRoom(s: State, s': State, t: TaskId, k': Task)
    requires RoomsOk(s) && t in s.tasks && s'.tasks == s.tasks[t := k'] && k'.room == s.tasks[t].room
    requires !HoldsRoom(s.tasks[t]) && HoldsRoom(k') && !IsActive(k') && Bucket(k'.room) !in s.locks
    requires s'.locks == s.locks[Bucket(k'.room) := t] && s'.active == s.active
    ensures RoomsOk(s')
  {
  }

  lemma ReleaseRoom(s: State, s': State, t: TaskId, k': Task)
    requires RoomsOk(s) && t in s.tasks && s'.tasks == s.tasks[t := k'] && k'.room == s.tasks[t].room
    requires HoldsRoom(s.tasks[t]) && !IsActive(s.tasks[t]) && !HoldsRoom(k')
    requires s'.locks == s.locks - {Bucket(k'.room)} && s'.active == s.active
    ensures RoomsOk(s')
  {
    assert s.locks[Bucket(k'.room)] == t;
  }

  lemma EnterRoom(s: State, s': State, t: TaskId, k': Task)
    requires RoomsOk(s) && t in s.tasks && s'.tasks == s.tasks[t := k'] && k'.room == s.tasks[t].room
    requires HoldsRoom(s.tasks[t]) && IsActive(k')
    requires s'.locks == s.locks && s'.active == s.active[Bucket(k'.room) := t]
    ensures RoomsOk(s')
  {
    assert s.locks[Bucket(k'.room)] == t;
  }

  lemma LeaveRoom(s: State, s': State, t: TaskId, k': Task)
    requires RoomsOk(s) && t in s.tasks && s'.tasks == s.tasks[t := k'] && k'.room == s.tasks[t].room
    requires IsActive(s.tasks[t]) && HoldsRoom(k') && !IsActive(k')
    requires s'.locks == s.locks && s'.active == s.active - {Bucket(k'.room)}
    ensures RoomsOk(s')
  {
    assert s.active[Bucket(k'.room)] == t;
  }

  lemma StayInRoom(s: State, s': State)
    requires RoomsOk(s) && s'.locks == s.locks && s'.active == s.active
    requires forall t :: t in s.tasks ==>
      t in s'.tasks && HoldsRoom(s'.tasks[t]) == HoldsRoom(s.tasks[t]) && IsActive(s'.tasks[t]) == IsActive(s.tasks[t])
      && s'.tasks[t].room == s.tasks[t].room
    requires forall t :: t in s'.tasks && t !in s.tasks ==> !HoldsRoom(s'.tasks[t])
    ensures RoomsOk(s')
  {
  }

  lemma StepKeepsRooms(s: State, a: Act)
    requires RoomsOk(s) && Enabled(s, a)
    ensures RoomsOk(Next(s, a))
  {
    var s' := Next(s, a);
    if a.Advance? {
      AdvanceKeepsRooms(s, a.t, a.to);
    } else {
      forall t | t in s.tasks ensures t in s'.tasks && s'.tasks[t].at == s.tasks[t].at && s'.tasks[t].room == s.tasks[t].room {
        OthersOnlyAbort(s, a, t);
      }
      forall t | t in s'.tasks && t !in s.tasks ensures !HoldsRoom(s'.tasks[t]) {
        NewTaskIsQueued(s, a, t);
      }
      StayInRoom(s, s');
    }
  }

  /** The moves that take the room lock, announce the task, withdraw it and give the
      lock back. */
  predicate IsRoomMove(k: Task, to: At) {
    to.Locked? || k.at.Locked? || k.at.Leaving? || k.at.Unlocking?
  }

  lemma AdvanceKeepsRooms(s: State, t: TaskId, to: At)
    requires RoomsOk(s) && Enabled(s, Advance(t, to))
    ensures RoomsOk(Next(s, Advance(t, to)))
  {
    if IsRoomMove(s.tasks[t], to) {
      RoomMoveKeepsRooms(s, t, to);
    } else {
      PlainMoveKeepsRooms(s, t, to);
    }
  }

  lemma RoomMoveKeepsRooms(s: State, t: TaskId, to: At)
    requires RoomsOk(s) && Enabled(s, Advance(t, to)) && IsRoomMove(s.tasks[t], to)
    ensures RoomsOk(Next(s, Advance(t, to)))
  {
    hide RoomsOk, Moved;
    AdvancedTaskIsMoved(s, t, to);
    var s' := Next(s, Advance(t, to));
    var k' := Moved(s, s.tasks[t], to);
    if to.Locked? {
      TakeRoom(s, s', t, k');
    } else if s.tasks[t].at.Locked? {
      EnterRoom(s, s', t, k');
    } else if s.tasks[t].at.Leaving? {
      LeaveRoom(s, s', t, k');
    } else {
      ReleaseRoom(s, s', t, k');
    }
  }

  lemma PlainMoveKeepsRooms(s: State, t: TaskId, to: At)
    requires RoomsOk(s) && Enabled(s, Advance(t, to)) && !IsRoomMove(s.tasks[t], to)
    ensures RoomsOk(Next(s, Advance(t, to)))
  {
    hide RoomsOk, Moved, MayFollow;
    AdvancedTaskIsMoved(s, t, to);
    PlainMoveStays(s, t, to);
    StayInRoom(s, Next(s, Advance(t, to)));
  }

  lemma PlainMoveStays(s: State, t: TaskId, to: At)
    requires Enabled(s, Advance(t, to)) && !IsRoomMove(s.tasks[t], to)
    ensures var k, k', s' := s.tasks[t], Moved(s, s.tasks[t], to), Next(s, Advance(t, to));
            && HoldsRoom(k') == HoldsRoom(k) && IsActive(k') == IsActive(k) && k'.room == k.room
            && s'.locks == s.locks && s'.active == s.active && s'.tasks == s.tasks[t := k']
  {
  }

  // ----- dispatches -----

  lemma StaysJustified(s: State, a: Act, target: TaskId, room: RoomId, m: nat)
    requires Enabled(s, a) && Justified(s, target, room, m)
    ensures Justified(Next(s, a), target, room, m)
  {
    hide DispatchMay;
    TasksKeepIdentity(s, a);
    if !(a.Advance? && a.t == target) {
      OthersOnlyAbort(s, a, target);
    }
  }

  lemma StepStaysOk(s: State, a: Act, p: Step)
    requires Enabled(s, a) && StepOk(s, p)
    ensures StepOk(Next(s, a), p)
  {
    IdsOnlyGrow(s, a);
    if p.Hitting? {
      StaysJustified(s, a, p.target, p.room, p.m);
    }
  }

  /** Each step of im_dispatch leads to one that is justified: the task it is about
      to cancel was seen to belong to the room and to have an older trigger. */
  lemma DispatchStepOk(s: State, d: nat, to: Step, id: TaskId)
    requires d in s.dispatches && StepOk(s, s.dispatches[d]) && DispatchMay(s, d, to, id)
    ensures StepOk(s, to)
  {
  }

  lemma StepKeepsDispatches(s: State, a: Act)
    requires LogsOk(s) && DispatchesOk(s) && Enabled(s, a)
    ensures DispatchesOk(Next(s, a))
  {
    var s' := Next(s, a);
    forall d | d in s'.dispatches ensures StepOk(s', s'.dispatches[d]) {
      if d in s.dispatches {
        assert StepOk(s, s.dispatches[d]);
        if a.Dispatch? && a.d == d {
          DispatchStepOk(s, d, a.next, a.id);
        }
        StepStaysOk(s, a, s'.dispatches[d]);
      } else {
        BegunStepOk(s, a, d);
      }
    }
    forall i | 0 <= i < |s'.hits| ensures Justified(s', s'.hits[i].target, s'.hits[i].room, s'.hits[i].m) {
      HitIsJustified(s, a, i);
      StaysJustified(s, a, s'.hits[i].target, s'.hits[i].room, s'.hits[i].m);
    }
  }

  lemma BegunStepOk(s: State, a: Act, d: nat)
    requires LogsOk(s) && Enabled(s, a) && d !in s.dispatches && d in Next(s, a).dispatches
    ensures StepOk(Next(s, a), Next(s, a).dispatches[d])
  {
    MessageIsOld(s, a.room, a.m);
    assert Next(s, a).dispatches[d] == Loading(a.room, a.m);
  }

  lemma MessageIsOld(s: State, room: RoomId, m: nat)
    requires LogsOk(s) && room in s.rooms && Human(m) in s.rooms[room]
    ensures 0 < m < s.nextId
  {
    assert LogOk(s, s.rooms[room]);
  }

  lemma HitIsJustified(s: State, a: Act, i: nat)
    requires DispatchesOk(s) && Enabled(s, a) && i < |Next(s, a).hits|
    ensures var h := Next(s, a).hits[i]; Justified(s, h.target, h.room, h.m)
  {
  }

  lemma StepKeepsInv(s: State, a: Act)
    requires Inv(s) && Enabled(s, a)
    ensures Inv(Next(s, a))
  {
    StepKeepsLogs(s, a);
    StepKeepsRooms(s, a);
    forall t | t in Next(s, a).tasks ensures LateOk(Next(s, a), Next(s, a).tasks[t]) {
      StepKeepsLateOk(s, a, t);
    }
    StepKeepsDispatches(s, a);
  }

  lemma {:induction false} EveryStateOk(run: seq<State>, acts: seq<Act>, i: nat)
    requires Behaviour(run, acts) && i < |run|
    ensures Inv(run[i])
  {
    if i > 0 {
      EveryStateOk(run, acts, i - 1);
      assert Follows(run[i - 1], acts[i - 1], run[i]);
      StepKeepsInv(run[i - 1], acts[i - 1]);
    }
  }

  // ----- takeover -----

  /** Once human message `m` is stored in a room, no reply of a discussion that was
      triggered before `m` is stored after it. */
  lemma NoReplyAfterNewerHuman(run: seq<State>, acts: seq<Act>, i: nat, room: RoomId, h: nat, j: nat)
    requires Behaviour(run, acts) && i < |run| && room in run[i].rooms && h < j < |run[i].rooms[room]|
    requires run[i].rooms[room][h].Human? && run[i].rooms[room][j].Reply?
    ensures run[i].rooms[room][j].author in run[i].tasks
    ensures run[i].tasks[run[i].rooms[room][j].author].trigger >= run[i].rooms[room][h].id
  {
    EveryStateOk(run, acts, i);
    assert LogOk(run[i], run[i].rooms[room]);
    LatestIsLast(run[i].rooms[room][..j], h);
  }

  /** The task's trigger has been overtaken by a newer human message of its room. */
  ghost predicate Overtaken(s: State, k: Task) {
    k.room in s.rooms && exists h :: 0 <= h < |s.rooms[k.room]| && s.rooms[k.room][h].Human? && s.rooms[k.room][h].id > k.trigger
  }

  /** Step `i` of the run starts a model call of task `t`. */
  ghost predicate StartsCall(run: seq<State>, acts: seq<Act>, i: nat, t: TaskId) {
    i < |acts| && i < |run| && acts[i] == Advance(t, Calling) && t in run[i].tasks && run[i].tasks[t].at.Prompting?
  }

  lemma OvertakenIsStale(s: State, k: Task)
    requires LogsOk(s) && Overtaken(s, k)
    ensures Current(s, k) != 0
  {
    var log := s.rooms[k.room];
    assert LogOk(s, log);
    var h :| 0 <= h < |log| && log[h].Human? && log[h].id > k.trigger;
    LatestIsLast(log, h);
  }

  lemma OneStaleStep(s: State, a: Act, s': State, t: TaskId)
    requires LogsOk(s) && Follows(s, a, s') && t in s.tasks && LateOk(s, s.tasks[t]) && Current(s, s.tasks[t]) != 0
    ensures t in s'.tasks && Current(s', s'.tasks[t]) != 0
    ensures s'.tasks[t].late >= s.tasks[t].late
    ensures a == Advance(t, Calling) && s.tasks[t].at.Prompting? ==> s'.tasks[t].late == s.tasks[t].late + 1
  {
    StaleStays(s, a, s.tasks[t]);
    TasksKeepIdentity(s, a);
    CurrentOfSame(s', s.tasks[t], s'.tasks[t]);
    if a.Advance? && a.t == t {
      AdvancedTaskIsMoved(s, t, a.to);
    } else {
      OthersOnlyAbort(s, a, t);
    }
  }

  /** Along a run a stale task stays stale and its count of late calls never falls. */
  lemma {:induction false} StaleAlongRun(run: seq<State>, acts: seq<Act>, i: nat, j: nat, t: TaskId)
    requires Behaviour(run, acts) && i <= j < |run| && t in run[i].tasks && Current(run[i], run[i].tasks[t]) != 0
    ensures t in run[j].tasks && Current(run[j], run[j].tasks[t]) != 0
    ensures run[j].tasks[t].late >= run[i].tasks[t].late
    decreases j - i
  {
    if i < j {
      StaleAlongRun(run, acts, i, j - 1, t);
      EveryStateOk(run, acts, j - 1);
      assert Follows(run[j - 1], acts[j - 1], run[j]);
      OneStaleStep(run[j - 1], acts[j - 1], run[j], t);
    }
  }

  lemma LateCallIsCounted(run: seq<State>, acts: seq<Act>, i: nat, t: TaskId)
    requires Behaviour(run, acts) && StartsCall(run, acts, i, t) && Current(run[i], run[i].tasks[t]) != 0
    ensures t in run[i + 1].tasks && run[i + 1].tasks[t].late == run[i].tasks[t].late + 1 <= 1
    ensures Current(run[i + 1], run[i + 1].tasks[t]) != 0
  {
    EveryStateOk(run, acts, i);
    assert Follows(run[i], acts[i], run[i + 1]);
    OneStaleStep(run[i], acts[i], run[i + 1], t);
    EveryStateOk(run, acts, i + 1);
    assert LateOk(run[i + 1], run[i + 1].tasks[t]);
  }

  /** After a newer human message is stored, the older discussion starts at most one
      further model call. */
  lemma AtMostOneLateCall(run: seq<State>, acts: seq<Act>, i: nat, j: nat, t: TaskId)
    requires Behaviour(run, acts) && StartsCall(run, acts, i, t) && StartsCall(run, acts, j, t) && i <= j
    requires Overtaken(run[i], run[i].tasks[t])
    ensures i == j
  {
    EveryStateOk(run, acts, i);
    OvertakenIsStale(run[i], run[i].tasks[t]);
    LateCallIsCounted(run, acts, i, t);
    if i < j {
      StaleAlongRun(run, acts, i + 1, j, t);
      LateCallIsCounted(run, acts, j, t);
    }
  }

  /** Every cancellation im_dispatch has made hit a started task of the message's own
      room with an older trigger, whatever else shares the room's bucket. */
  lemma CancellationsAreJustified(run: seq<State>, acts: seq<Act>, i: nat, k: nat)
    requires Behaviour(run, acts) && i < |run| && k < |run[i].hits|
    ensures var h := run[i].hits[k];
            && h.target in run[i].tasks && run[i].tasks[h.target].room == h.room
            && run[i].tasks[h.target].trigger < h.m && !run[i].tasks[h.target].at.Queued?
  {
    EveryStateOk(run, acts, i);
  }

  /** im_dispatch finds the discussion that has entered its room, if there is one. */
  lemma DispatchFindsActive(run: seq<State>, acts: seq<Act>, i: nat, d: nat, t: TaskId, next: Step, id: TaskId)
    requires Behaviour(run, acts) && i < |run| && d in run[i].dispatches && run[i].dispatches[d].Loading?
    requires t in run[i].tasks && IsActive(run[i].tasks[t]) && run[i].tasks[t].room == run[i].dispatches[d].room
    requires DispatchMay(run[i], d, next, id)
    ensures next == Examining(run[i].dispatches[d].room, run[i].dispatches[d].m, Some(t))
  {
    EveryStateOk(run, acts, i);
  }
}
