/**
 The cancellations of im_dispatch over whole runs of Discussion: each was decided on a
 running task, and hit a running one exactly when that task had not ended meanwhile.
 */
module DispatchHits {
  import opened Options
  import opened Discussion
  import opened DiscussionSafety

  /** Step `seen` of the run: dispatch `d` reads the task in its room's active slot and
      decides to cancel it. */
  ghost predicate DecidedAt(run: seq<State>, acts: seq<Act>, seen: nat, d: nat, h: Hit) {
    && seen < |acts| && seen < |run| && acts[seen].Dispatch? && acts[seen].d == d
    && acts[seen].next == Hitting(h.room, h.m, h.target)
    && d in run[seen].dispatches && run[seen].dispatches[d] == Examining(h.room, h.m, Some(h.target))
  }

  /** What it has read: a running task of its room with an older trigger. */
  ghost predicate WasRunning(s: State, h: Hit) {
    h.target in s.tasks && Running(s.tasks[h.target]) && s.tasks[h.target].room == h.room && s.tasks[h.target].trigger < h.m
  }

  /** Step `at` of the run: dispatch `d` sets the flag. */
  ghost predicate HitAt(run: seq<State>, acts: seq<Act>, at: nat, d: nat, h: Hit) {
    && at < |acts| && at + 1 < |run| && acts[at].Dispatch? && acts[at].d == d
    && d in run[at].dispatches && run[at].dispatches[d] == Hitting(h.room, h.m, h.target)
    && run[at + 1].hits == run[at].hits + [h]
  }

  lemma OneHit(s: State, a: Act, k: nat)
    requires Enabled(s, a) && |s.hits| <= k < |Next(s, a).hits|
    ensures a.Dispatch? && s.dispatches[a.d].Hitting? && |Next(s, a).hits| == |s.hits| + 1 && k == |s.hits|
    ensures var h := Next(s, a).hits[k]; s.dispatches[a.d] == Hitting(h.room, h.m, h.target) && Next(s, a).hits == s.hits + [h]
  {
  }

  lemma HitsStay(s: State, a: Act, k: nat)
    requires Enabled(s, a) && k < |s.hits|
    ensures k < |Next(s, a).hits| && Next(s, a).hits[k] == s.hits[k]
  {
  }

  /** The step that made a hit. */
  lemma {:induction false} WhenHit(run: seq<State>, acts: seq<Act>, i: nat, k: nat) returns (at: nat, d: nat)
    requires Behaviour(run, acts) && i < |run| && k < |run[i].hits|
    ensures at < i && HitAt(run, acts, at, d, run[i].hits[k])
  {
    var s, a := run[i - 1], acts[i - 1];
    assert Follows(s, a, run[i]);
    if k < |s.hits| {
      HitsStay(s, a, k);
      at, d := WhenHit(run, acts, i - 1, k);
    } else {
      OneHit(s, a, k);
      at, d := i - 1, a.d;
    }
  }

  lemma HittingBegins(s: State, a: Act, d: nat, h: Hit)
    requires Enabled(s, a) && d in Next(s, a).dispatches && Next(s, a).dispatches[d] == Hitting(h.room, h.m, h.target)
    requires !(d in s.dispatches && s.dispatches[d] == Hitting(h.room, h.m, h.target))
    ensures a.Dispatch? && a.d == d && a.next == Hitting(h.room, h.m, h.target)
    ensures d in s.dispatches && s.dispatches[d] == Examining(h.room, h.m, Some(h.target)) && WasRunning(s, h)
  {
  }

  /** The step at which a dispatch that is about to cancel decided to. */
  lemma {:induction false} WhenDecided(run: seq<State>, acts: seq<Act>, i: nat, d: nat, h: Hit) returns (seen: nat)
    requires Behaviour(run, acts) && i < |run| && d in run[i].dispatches
    requires run[i].dispatches[d] == Hitting(h.room, h.m, h.target)
    ensures seen < i && DecidedAt(run, acts, seen, d, h) && WasRunning(run[seen], h)
  {
    var s, a := run[i - 1], acts[i - 1];
    assert Follows(s, a, run[i]);
    if d in s.dispatches && s.dispatches[d] == Hitting(h.room, h.m, h.target) {
      seen := WhenDecided(run, acts, i - 1, d, h);
    } else {
      HittingBegins(s, a, d, h);
      seen := i - 1;
    }
  }

  /** A running task goes on running until the step that ends it, and stays ended. */
  lemma {:induction false} RunsUntilItEnds(run: seq<State>, acts: seq<Act>, i: nat, j: nat, t: TaskId)
    requires Behaviour(run, acts) && i <= j < |run| && t in run[i].tasks && Running(run[i].tasks[t])
    ensures t in run[j].tasks && !run[j].tasks[t].at.Queued?
    ensures Running(run[j].tasks[t]) <==> forall l :: i <= l < j ==> acts[l] != Advance(t, Terminal)
    decreases j - i
  {
    if i < j {
      RunsUntilItEnds(run, acts, i, j - 1, t);
      var s, a := run[j - 1], acts[j - 1];
      assert Follows(s, a, run[j]);
      if a.Advance? && a.t == t {
        AdvancedTaskIsMoved(s, t, a.to);
        EndsOnlyAtTerminal(s, t, a.to);
      } else {
        OthersOnlyAbort(s, a, t);
      }
    }
  }

  lemma EndsOnlyAtTerminal(s: State, t: TaskId, to: At)
    requires t in s.tasks && MayFollow(s, t, to) && !s.tasks[t].at.Queued?
    ensures !s.tasks[t].at.Terminal? && !to.Queued?
    ensures Moved(s, s.tasks[t], to).at == to
  {
  }

  /** Every cancellation was decided when its target was a running task of the room with
      an older trigger, and it hits a running task if and only if the target did not end
      between that decision and the setting of the flag. */
  lemma EveryHitWasDecidedOnARunningTask(run: seq<State>, acts: seq<Act>, i: nat, k: nat) returns (seen: nat, at: nat, d: nat)
    requires Behaviour(run, acts) && i < |run| && k < |run[i].hits|
    ensures seen < at < i
    ensures var h := run[i].hits[k];
            && DecidedAt(run, acts, seen, d, h) && WasRunning(run[seen], h) && HitAt(run, acts, at, d, h)
            && h.target in run[at].tasks
            && run[at + 1].tasks == run[at].tasks[h.target := run[at].tasks[h.target].(cancelled := true)]
            && (Running(run[at].tasks[h.target]) <==> forall l :: seen <= l < at ==> acts[l] != Advance(h.target, Terminal))
  {
    at, d := WhenHit(run, acts, i, k);
    seen := WhenDecided(run, acts, at, d, run[i].hits[k]);
    RunsUntilItEnds(run, acts, seen, at, run[i].hits[k].target);
    assert Follows(run[at], acts[at], run[at + 1]);
  }

  predicate Moves(a: Act, d: nat) { a.Dispatch? && a.d == d }

  lemma OthersLeaveDispatch(s: State, a: Act, d: nat)
    requires Enabled(s, a) && d in s.dispatches && !Moves(a, d)
    ensures d in Next(s, a).dispatches && Next(s, a).dispatches[d] == s.dispatches[d]
  {
  }

  lemma {:induction false} DispatchWaits(run: seq<State>, acts: seq<Act>, i: nat, j: nat, d: nat)
    requires Behaviour(run, acts) && i <= j < |run| && d in run[i].dispatches
    requires forall l :: i <= l < j ==> !Moves(acts[l], d)
    ensures d in run[j].dispatches && run[j].dispatches[d] == run[i].dispatches[d]
    decreases j - i
  {
    if i < j {
      DispatchWaits(run, acts, i, j - 1, d);
      assert Follows(run[j - 1], acts[j - 1], run[j]);
      OthersLeaveDispatch(run[j - 1], acts[j - 1], d);
    }
  }

  lemma {:induction false} IdentityStays(run: seq<State>, acts: seq<Act>, i: nat, j: nat, t: TaskId)
    requires Behaviour(run, acts) && i <= j < |run| && t in run[i].tasks
    ensures t in run[j].tasks
    ensures run[j].tasks[t].room == run[i].tasks[t].room && run[j].tasks[t].trigger == run[i].tasks[t].trigger
    decreases j - i
  {
    if i < j {
      IdentityStays(run, acts, i, j - 1, t);
      assert Follows(run[j - 1], acts[j - 1], run[j]);
      TasksKeepIdentity(run[j - 1], acts[j - 1]);
    }
  }

  /** The other direction: an older discussion that was active in the room when the
      dispatch read the slot is cancelled, unless it ends before its status is read. */
  lemma AnOlderDiscussionIsCancelled(run: seq<State>, acts: seq<Act>, i: nat, j: nat, d: nat, t: TaskId)
    requires Behaviour(run, acts) && i < j < |acts| && Moves(acts[i], d) && Moves(acts[j], d)
    requires forall l :: i < l < j ==> !Moves(acts[l], d)
    requires d in run[i].dispatches && run[i].dispatches[d].Loading? && t in run[i].tasks && IsActive(run[i].tasks[t])
    requires run[i].tasks[t].room == run[i].dispatches[d].room && run[i].tasks[t].trigger < run[i].dispatches[d].m
    ensures acts[j].next == Hitting(run[i].dispatches[d].room, run[i].dispatches[d].m, t)
            <==> forall l :: i <= l < j ==> acts[l] != Advance(t, Terminal)
  {
    assert Follows(run[i], acts[i], run[i + 1]) && Follows(run[j], acts[j], run[j + 1]);
    DispatchFindsActive(run, acts, i, d, t, acts[i].next, acts[i].id);
    DispatchWaits(run, acts, i + 1, j, d);
    RunsUntilItEnds(run, acts, i, j, t);
    IdentityStays(run, acts, i, j, t);
  }

  // ----- a task that ends in between -----

  /** How far a running task is from its end once it is cancelled. */
  function ToEnd(k: Task): nat {
    (match k.at
     case Queued => 0
     case Terminal => 0
     case Returned => 1
     case Waiting => 2
     case Unlocking => 2
     case Leaving => 3
     case Entered => 4
     case Choosing => 4
     case Prompting => 4
     case Answered => 4
     case Publishing => 4
     case Locked => 5
     case Checking => 5
     case Calling => 5) + if k.cancelled then 0 else 1
  }

  /** The program point a cancelled task may go to. */
  function Onward(s: State, k: Task): At {
    match k.at
    case Returned => Terminal
    case Waiting => Returned
    case Unlocking => Returned
    case Leaving => Unlocking
    case Locked => Entered
    case Checking => if Current(s, k) == 0 then Prompting else Leaving
    case Calling => Answered
    case _ => Leaving
  }

  lemma OnwardIsCloser(s: State, t: TaskId)
    requires t in s.tasks && Running(s.tasks[t]) && s.tasks[t].cancelled
    ensures MayFollow(s, t, Onward(s, s.tasks[t]))
    ensures var k' := Moved(s, s.tasks[t], Onward(s, s.tasks[t])); ToEnd(k') < ToEnd(s.tasks[t]) && !k'.at.Queued?
  {
  }

  /** An act that brings a running task closer to its end. */
  function ActFor(s: State, t: TaskId): Act
    requires t in s.tasks
  {
    if s.tasks[t].cancelled then Advance(t, Onward(s, s.tasks[t])) else Cancel(t)
  }

  lemma ActForIsCloser(s: State, t: TaskId)
    requires t in s.tasks && Running(s.tasks[t])
    ensures Enabled(s, ActFor(s, t))
    ensures var s' := Next(s, ActFor(s, t));
            && s'.dispatches == s.dispatches && s'.hits == s.hits
            && t in s'.tasks && ToEnd(s'.tasks[t]) < ToEnd(s.tasks[t]) && !s'.tasks[t].at.Queued?
  {
    if s.tasks[t].cancelled {
      OnwardIsCloser(s, t);
      AdvancedTaskIsMoved(s, t, Onward(s, s.tasks[t]));
    }
  }

  lemma Longer(run: seq<State>, acts: seq<Act>, a: Act)
    requires Behaviour(run, acts) && Enabled(run[|acts|], a)
    ensures Behaviour(run + [Next(run[|acts|], a)], acts + [a])
  {
    var more, all := run + [Next(run[|acts|], a)], acts + [a];
    forall i | 0 <= i < |all| ensures Follows(more[i], all[i], more[i + 1]) {
      assert i < |acts| ==> Follows(run[i], acts[i], run[i + 1]);
    }
  }

  lemma {:induction false} RunToEnd(run: seq<State>, acts: seq<Act>, t: TaskId) returns (more: seq<State>, all: seq<Act>)
    requires Behaviour(run, acts) && t in run[|acts|].tasks && !run[|acts|].tasks[t].at.Queued?
    ensures Behaviour(more, all) && run <= more && acts <= all
    ensures more[|all|].dispatches == run[|acts|].dispatches && more[|all|].hits == run[|acts|].hits
    ensures t in more[|all|].tasks && more[|all|].tasks[t].at.Terminal?
    decreases ToEnd(run[|acts|].tasks[t])
  {
    var s := run[|acts|];
    if Running(s.tasks[t]) {
      var a := ActFor(s, t);
      ActForIsCloser(s, t);
      Longer(run, acts, a);
      more, all := RunToEnd(run + [Next(s, a)], acts + [a], t);
    } else {
      more, all := run, acts;
    }
  }

  /** Nothing seen beforehand excludes a miss: whenever a dispatch is about to cancel a
      running task, the run can go on so that the flag is set when the task has ended. */
  lemma EveryDecisionCanMiss(run: seq<State>, acts: seq<Act>, d: nat, h: Hit) returns (more: seq<State>, all: seq<Act>)
    requires Behaviour(run, acts) && d in run[|acts|].dispatches
    requires run[|acts|].dispatches[d] == Hitting(h.room, h.m, h.target)
    requires h.target in run[|acts|].tasks && Running(run[|acts|].tasks[h.target])
    ensures Behaviour(more, all) && run <= more && acts <= all
    ensures |acts| < |all| && HitAt(more, all, |all| - 1, d, h)
    ensures h.target in more[|all| - 1].tasks && more[|all| - 1].tasks[h.target].at.Terminal?
  {
    var ended, done := RunToEnd(run, acts, h.target);
    var a := Dispatch(d, Submitting(h.room, h.m), 0);
    Longer(ended, done, a);
    more, all := ended + [Next(ended[|done|], a)], done + [a];
  }

  // ----- such a decision -----

  ghost predicate Reached(s: State) {
    exists run, acts :: Behaviour(run, acts) && run[|acts|] == s
  }

  lemma StepTo(s: State, a: Act, t: State)
    requires Reached(s) && Enabled(s, a) && Next(s, a) == t
    ensures Reached(t)
  {
    var run, acts :| Behaviour(run, acts) && run[|acts|] == s;
    Longer(run, acts, a);
    assert (run + [t])[|acts + [a]|] == t;
  }

  /** Room 1 with two human messages, 2 and 3, and the rest as given. */
  function Asked(tasks: map<TaskId, Task>, locks: map<nat, TaskId>, dispatches: map<nat, Step>): State {
    State(map[1 := [Human(2), Human(3)]], 4, tasks, locks, locks, dispatches, [])
  }

  function Discussing(at: At): map<TaskId, Task> {
    map[0 := Task(1, 2, at, false, false, 0)]
  }

  lemma MessagesAreOk()
    ensures LogsOk(Asked(map[], map[], map[]))
  {
    var s := Asked(map[], map[], map[]);
    assert LogOk(s, s.rooms[1]);
  }

  lemma MessagesAreRead()
    ensures Reached(Asked(map[], map[], map[]))
  {
    hide LogsOk, Follows;
    MessagesAreOk();
    var s, none: seq<Act> := Asked(map[], map[], map[]), [];
    assert Behaviour([s], none) && [s][|none|] == s;
  }

  lemma DispatchBegins()
    ensures Reached(Asked(map[], map[], map[0 := Loading(1, 2)]))
  {
    hide MayFollow, AdvanceTask, LogsOk;
    MessagesAreRead();
    assert Human(2) in Asked(map[], map[], map[]).rooms[1];
    StepTo(Asked(map[], map[], map[]),
           BeginDispatch(0, 1, 2),
           Asked(map[], map[], map[0 := Loading(1, 2)]));
  }

  lemma DispatchReads()
    ensures Reached(Asked(map[], map[], map[0 := Examining(1, 2, None)]))
  {
    hide MayFollow, AdvanceTask, LogsOk;
    DispatchBegins();
    StepTo(Asked(map[], map[], map[0 := Loading(1, 2)]),
           Dispatch(0, Examining(1, 2, None), 0),
           Asked(map[], map[], map[0 := Examining(1, 2, None)]));
  }

  lemma DispatchGoesOn()
    ensures Reached(Asked(map[], map[], map[0 := Submitting(1, 2)]))
  {
    hide MayFollow, AdvanceTask, LogsOk;
    DispatchReads();
    StepTo(Asked(map[], map[], map[0 := Examining(1, 2, None)]),
           Dispatch(0, Submitting(1, 2), 0),
           Asked(map[], map[], map[0 := Submitting(1, 2)]));
  }

  lemma TaskIsQueued()
    ensures Reached(Asked(Discussing(Queued), map[], map[0 := Dispatched]))
  {
    hide MayFollow, AdvanceTask, LogsOk;
    DispatchGoesOn();
    StepTo(Asked(map[], map[], map[0 := Submitting(1, 2)]),
           Dispatch(0, Dispatched, 0),
           Asked(Discussing(Queued), map[], map[0 := Dispatched]));
  }

  lemma TaskWaits()
    ensures Reached(Asked(Discussing(Waiting), map[], map[0 := Dispatched]))
  {
    hide DispatchMay, AdvanceDispatch, LogsOk;
    TaskIsQueued();
    StepTo(Asked(Discussing(Queued), map[], map[0 := Dispatched]),
           Advance(0, Waiting),
           Asked(Discussing(Waiting), map[], map[0 := Dispatched]));
  }

  lemma TaskTakesRoom()
    ensures Reached(Asked(Discussing(Locked), map[1 := 0], map[0 := Dispatched]).(active := map[]))
  {
    hide DispatchMay, AdvanceDispatch, LogsOk;
    TaskWaits();
    StepTo(Asked(Discussing(Waiting), map[], map[0 := Dispatched]),
           Advance(0, Locked),
           Asked(Discussing(Locked), map[1 := 0], map[0 := Dispatched]).(active := map[]));
  }

  lemma TaskEnters()
    ensures Reached(Asked(Discussing(Entered), map[1 := 0], map[0 := Dispatched]))
  {
    hide DispatchMay, AdvanceDispatch, LogsOk;
    TaskTakesRoom();
    StepTo(Asked(Discussing(Locked), map[1 := 0], map[0 := Dispatched]).(active := map[]),
           Advance(0, Entered),
           Asked(Discussing(Entered), map[1 := 0], map[0 := Dispatched]));
  }

  lemma NextDispatchBegins()
    ensures Reached(Asked(Discussing(Entered), map[1 := 0], map[0 := Dispatched, 1 := Loading(1, 3)]))
  {
    hide MayFollow, AdvanceTask, LogsOk;
    TaskEnters();
    assert Human(3) in Asked(Discussing(Entered), map[1 := 0], map[0 := Dispatched]).rooms[1];
    StepTo(Asked(Discussing(Entered), map[1 := 0], map[0 := Dispatched]),
           BeginDispatch(1, 1, 3),
           Asked(Discussing(Entered), map[1 := 0], map[0 := Dispatched, 1 := Loading(1, 3)]));
  }

  lemma NextDispatchReads()
    ensures Reached(Asked(Discussing(Entered), map[1 := 0], map[0 := Dispatched, 1 := Examining(1, 3, Some(0))]))
  {
    hide MayFollow, AdvanceTask, LogsOk;
    NextDispatchBegins();
    StepTo(Asked(Discussing(Entered), map[1 := 0], map[0 := Dispatched, 1 := Loading(1, 3)]),
           Dispatch(1, Examining(1, 3, Some(0)), 0),
           Asked(Discussing(Entered), map[1 := 0], map[0 := Dispatched, 1 := Examining(1, 3, Some(0))]));
  }

  lemma ItIsAboutToCancel()
    ensures Reached(Asked(Discussing(Entered), map[1 := 0], map[0 := Dispatched, 1 := Hitting(1, 3, 0)]))
  {
    hide MayFollow, AdvanceTask, LogsOk;
    NextDispatchReads();
    StepTo(Asked(Discussing(Entered), map[1 := 0], map[0 := Dispatched, 1 := Examining(1, 3, Some(0))]),
           Dispatch(1, Hitting(1, 3, 0), 0),
           Asked(Discussing(Entered), map[1 := 0], map[0 := Dispatched, 1 := Hitting(1, 3, 0)]));
  }

  /** The decision was right, and the flag is set on a task that has ended. */
  lemma ATaskMayEndMeanwhile()
    ensures exists run: seq<State>, acts: seq<Act>, at: nat, d: nat ::
              Behaviour(run, acts) && HitAt(run, acts, at, d, Hit(0, 1, 3))
              && 0 in run[at].tasks && run[at].tasks[0].at == Terminal
  {
    ItIsAboutToCancel();
    var run, acts :| Behaviour(run, acts) &&
      run[|acts|] == Asked(Discussing(Entered), map[1 := 0], map[0 := Dispatched, 1 := Hitting(1, 3, 0)]);
    var more, all := EveryDecisionCanMiss(run, acts, 1, Hit(0, 1, 3));
  }
}
