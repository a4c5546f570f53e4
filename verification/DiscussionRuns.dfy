/**
 That discussions get somewhere: whatever the others have done so far, a discussion whose
 trigger is current can be run alone to a stored reply and to its end, and one that has
 been aborted gets no further than it must.
 */
module DiscussionRuns {
  import opened Options
  import opened Rooms
  import opened Discussion
  import opened DiscussionSafety
  import opened DispatchHits

  /** `more` and `all` go on from `run` and `acts` with steps of task `t` only. */
  ghost predicate GoesOn(run: seq<State>, acts: seq<Act>, more: seq<State>, all: seq<Act>, t: TaskId) {
    && Behaviour(more, all) && |run| == |acts| + 1 && run <= more && acts <= all
    && forall i :: |acts| <= i < |all| ==> all[i].Advance? && all[i].t == t
  }

  lemma Stays(run: seq<State>, acts: seq<Act>, t: TaskId)
    requires Behaviour(run, acts)
    ensures GoesOn(run, acts, run, acts, t)
  {
  }

  lemma Go(run: seq<State>, acts: seq<Act>, mid: seq<State>, done: seq<Act>, t: TaskId, to: At)
    returns (more: seq<State>, all: seq<Act>)
    requires GoesOn(run, acts, mid, done, t) && Enabled(mid[|done|], Advance(t, to))
    ensures GoesOn(run, acts, more, all, t) && |more| == |all| + 1 && more[|all|] == Next(mid[|done|], Advance(t, to))
  {
    var a := Advance(t, to);
    Longer(mid, done, a);
    more, all := mid + [Next(mid[|done|], a)], done + [a];
  }

  /** The state in which task `t` stands at `at` and all else is as in `s`. */
  function With(s: State, t: TaskId, at: At): State
    requires t in s.tasks
  {
    s.(tasks := s.tasks[t := s.tasks[t].(at := at)])
  }

  /** Not aborted, and its trigger is the last human message of its room. */
  predicate Fit(s: State, k: Task) {
    !Aborted(k) && k.room in s.rooms && k.trigger > 0 && Latest(s.rooms[k.room]) == k.trigger
  }

  lemma {:induction false} LatestIsThere(log: seq<Msg>)
    requires Latest(log) > 0
    ensures Human(Latest(log)) in log
  {
    if !log[|log| - 1].Human? {
      LatestIsThere(log[..|log| - 1]);
    }
  }

  lemma FitIsCurrent(s: State, k: Task)
    requires Fit(s, k)
    ensures Current(s, k) == 0 && CanPublish(s, k)
  {
    LatestIsThere(s.rooms[k.room]);
  }

  /** A step that changes only where the task stands. */
  predicate PlainStep(from: At, to: At) {
    || (from.Queued? && to.Waiting?) || (from.Entered? && to.Choosing?) || (from.Choosing? && to.Checking?)
    || (from.Checking? && to.Prompting?) || (from.Prompting? && to.Calling?) || (from.Calling? && to.Answered?)
    || (from.Answered? && to.Publishing?) || (from.Choosing? && to.Leaving?) || (from.Returned? && to.Terminal?)
  }

  lemma Plain(s: State, t: TaskId, to: At)
    requires t in s.tasks && Fit(s, s.tasks[t]) && PlainStep(s.tasks[t].at, to)
    ensures Enabled(s, Advance(t, to)) && Next(s, Advance(t, to)) == With(s, t, to)
  {
    hide Latest;
    FitIsCurrent(s, s.tasks[t]);
  }

  lemma GoPlain(run: seq<State>, acts: seq<Act>, mid: seq<State>, done: seq<Act>, t: TaskId, to: At)
    returns (more: seq<State>, all: seq<Act>)
    requires GoesOn(run, acts, mid, done, t) && t in mid[|done|].tasks
    requires Fit(mid[|done|], mid[|done|].tasks[t]) && PlainStep(mid[|done|].tasks[t].at, to)
    ensures GoesOn(run, acts, more, all, t) && |more| == |all| + 1 && more[|all|] == With(mid[|done|], t, to)
    ensures Fit(more[|all|], more[|all|].tasks[t])
  {
    Plain(mid[|done|], t, to);
    hide GoesOn, PlainStep, Next, Enabled, Latest;
    more, all := Go(run, acts, mid, done, t, to);
  }

  /** From loop control through the check and the call to its answer. */
  lemma Call(run: seq<State>, acts: seq<Act>, mid: seq<State>, done: seq<Act>, t: TaskId)
    returns (more: seq<State>, all: seq<Act>)
    requires GoesOn(run, acts, mid, done, t) && t in mid[|done|].tasks
    requires Fit(mid[|done|], mid[|done|].tasks[t]) && mid[|done|].tasks[t].at.Choosing?
    ensures GoesOn(run, acts, more, all, t) && |more| == |all| + 1 && more[|all|] == With(mid[|done|], t, Answered)
  {
    hide GoesOn, Fit;
    more, all := GoPlain(run, acts, mid, done, t, Checking);
    more, all := GoPlain(run, acts, more, all, t, Prompting);
    more, all := GoPlain(run, acts, more, all, t, Calling);
    more, all := GoPlain(run, acts, more, all, t, Answered);
  }

  /** The room with the reply of task `t`, which goes on to the next member. */
  function Replied(s: State, t: TaskId, at: At): State
    requires t in s.tasks && s.tasks[t].room in s.rooms
  {
    var room := s.tasks[t].room;
    With(s, t, at).(rooms := s.rooms[room := s.rooms[room] + [Reply(s.nextId, t)]], nextId := s.nextId + 1)
  }

  lemma PublishStep(s: State, t: TaskId)
    requires t in s.tasks && Fit(s, s.tasks[t]) && s.tasks[t].at.Publishing?
    ensures Enabled(s, Advance(t, Choosing)) && Next(s, Advance(t, Choosing)) == Replied(s, t, Choosing)
  {
    hide Latest;
    FitIsCurrent(s, s.tasks[t]);
  }

  lemma RepliedIsFit(s: State, t: TaskId, at: At)
    requires t in s.tasks && Fit(s, s.tasks[t])
    ensures Fit(Replied(s, t, at), Replied(s, t, at).tasks[t])
  {
    hide Latest;
    LatestOfAppend(s.rooms[s.tasks[t].room], Reply(s.nextId, t));
  }

  /** From the answer to the stored reply. */
  lemma Publish(run: seq<State>, acts: seq<Act>, mid: seq<State>, done: seq<Act>, t: TaskId)
    returns (more: seq<State>, all: seq<Act>)
    requires GoesOn(run, acts, mid, done, t) && t in mid[|done|].tasks
    requires Fit(mid[|done|], mid[|done|].tasks[t]) && mid[|done|].tasks[t].at.Answered?
    ensures GoesOn(run, acts, more, all, t) && |more| == |all| + 1 && more[|all|] == Replied(mid[|done|], t, Choosing)
  {
    hide GoesOn, Latest, Enabled, Next;
    more, all := GoPlain(run, acts, mid, done, t, Publishing);
    PublishStep(more[|all|], t);
    more, all := Go(run, acts, more, all, t, Choosing);
  }

  /** An answer to a current trigger can be stored: alone, the discussion goes on to a state
      in which its room's log is longer by the reply, and nothing else has changed. */
  lemma AnAnswerCanBeStored(run: seq<State>, acts: seq<Act>, t: TaskId) returns (more: seq<State>, all: seq<Act>)
    requires Behaviour(run, acts) && t in run[|acts|].tasks
    requires Fit(run[|acts|], run[|acts|].tasks[t]) && run[|acts|].tasks[t].at.Answered?
    ensures GoesOn(run, acts, more, all, t) && |more| == |all| + 1 && more[|all|] == Replied(run[|acts|], t, Choosing)
  {
    hide GoesOn, Fit;
    Stays(run, acts, t);
    more, all := Publish(run, acts, run, acts, t);
  }

  // ----- from the queue to the end -----

  lemma TakeStep(s: State, t: TaskId)
    requires t in s.tasks && Fit(s, s.tasks[t]) && s.tasks[t].at.Waiting? && Bucket(s.tasks[t].room) !in s.locks
    ensures Enabled(s, Advance(t, Locked))
    ensures Next(s, Advance(t, Locked)) == With(s, t, Locked).(locks := s.locks[Bucket(s.tasks[t].room) := t])
  {
    hide Latest;
  }

  lemma EnterStep(s: State, t: TaskId)
    requires t in s.tasks && s.tasks[t].at.Locked?
    ensures Enabled(s, Advance(t, Entered))
    ensures Next(s, Advance(t, Entered)) == With(s, t, Entered).(active := s.active[Bucket(s.tasks[t].room) := t])
  {
  }

  /** The state in which task `t` is the active discussion of its room's bucket. */
  function Inside(s: State, t: TaskId, at: At): State
    requires t in s.tasks
  {
    var b := Bucket(s.tasks[t].room);
    With(s, t, at).(locks := s.locks[b := t], active := s.active[b := t])
  }

  lemma Enter(run: seq<State>, acts: seq<Act>, t: TaskId) returns (more: seq<State>, all: seq<Act>)
    requires Behaviour(run, acts) && t in run[|acts|].tasks && Bucket(run[|acts|].tasks[t].room) !in run[|acts|].locks
    requires Fit(run[|acts|], run[|acts|].tasks[t]) && run[|acts|].tasks[t].at.Queued?
    ensures GoesOn(run, acts, more, all, t) && |more| == |all| + 1 && more[|all|] == Inside(run[|acts|], t, Choosing)
    ensures Fit(more[|all|], more[|all|].tasks[t])
  {
    hide GoesOn, Latest, Enabled, Next;
    Stays(run, acts, t);
    more, all := GoPlain(run, acts, run, acts, t, Waiting);
    TakeStep(more[|all|], t);
    more, all := Go(run, acts, more, all, t, Locked);
    EnterStep(more[|all|], t);
    more, all := Go(run, acts, more, all, t, Entered);
    more, all := GoPlain(run, acts, more, all, t, Choosing);
  }

  lemma WithdrawStep(s: State, t: TaskId)
    requires t in s.tasks && s.tasks[t].at.Leaving?
    ensures Enabled(s, Advance(t, Unlocking))
    ensures Next(s, Advance(t, Unlocking)) == With(s, t, Unlocking).(active := s.active - {Bucket(s.tasks[t].room)})
  {
  }

  lemma ReturnStep(s: State, t: TaskId)
    requires t in s.tasks && s.tasks[t].at.Unlocking?
    ensures Enabled(s, Advance(t, Returned))
    ensures Next(s, Advance(t, Returned)) == With(s, t, Returned).(locks := s.locks - {Bucket(s.tasks[t].room)})
  {
  }

  /** From loop control out of the room to the end. */
  lemma Leave(run: seq<State>, acts: seq<Act>, mid: seq<State>, done: seq<Act>, t: TaskId)
    returns (more: seq<State>, all: seq<Act>)
    requires GoesOn(run, acts, mid, done, t) && t in mid[|done|].tasks
    requires Fit(mid[|done|], mid[|done|].tasks[t]) && mid[|done|].tasks[t].at.Choosing?
    ensures GoesOn(run, acts, more, all, t) && |more| == |all| + 1
    ensures var s := mid[|done|]; var b := Bucket(s.tasks[t].room);
            more[|all|] == With(s, t, Terminal).(locks := s.locks - {b}, active := s.active - {b})
  {
    hide GoesOn, Latest, Enabled, Next;
    more, all := GoPlain(run, acts, mid, done, t, Leaving);
    WithdrawStep(more[|all|], t);
    more, all := Go(run, acts, more, all, t, Unlocking);
    ReturnStep(more[|all|], t);
    more, all := Go(run, acts, more, all, t, Returned);
    more, all := GoPlain(run, acts, more, all, t, Terminal);
  }

  lemma PutAndTaken(m: map<nat, TaskId>, b: nat, t: TaskId)
    requires b !in m
    ensures m[b := t] - {b} == m
  {
  }

  lemma FreeBucketIsInactive(s: State, b: nat)
    requires RoomsOk(s) && b !in s.locks
    ensures b !in s.active
  {
  }

  /** A queued discussion whose bucket is free can be run alone from the queue to its end,
      and leaves nothing but the reply behind. */
  lemma AQueuedDiscussionCanReply(run: seq<State>, acts: seq<Act>, t: TaskId) returns (more: seq<State>, all: seq<Act>)
    requires Behaviour(run, acts) && t in run[|acts|].tasks && Bucket(run[|acts|].tasks[t].room) !in run[|acts|].locks
    requires Fit(run[|acts|], run[|acts|].tasks[t]) && run[|acts|].tasks[t].at.Queued?
    ensures GoesOn(run, acts, more, all, t) && |more| == |all| + 1 && more[|all|] == Replied(run[|acts|], t, Terminal)
  {
    hide GoesOn, Latest, RoomsOk;
    var s := run[|acts|];
    var b := Bucket(s.tasks[t].room);
    EveryStateOk(run, acts, |acts|);
    FreeBucketIsInactive(s, b);
    more, all := Enter(run, acts, t);
    more, all := Call(run, acts, more, all, t);
    more, all := Publish(run, acts, more, all, t);
    RepliedIsFit(Inside(s, t, Answered), t, Choosing);
    more, all := Leave(run, acts, more, all, t);
    PutAndTaken(s.locks, b, t);
    PutAndTaken(s.active, b, t);
  }

  // ----- what others do to it -----

  /** A human message can be posted to any room, and overtakes every discussion there. */
  lemma ANewMessageOvertakes(run: seq<State>, acts: seq<Act>, room: RoomId, t: TaskId)
    requires Behaviour(run, acts) && room in run[|acts|].rooms && t in run[|acts|].tasks && run[|acts|].tasks[t].room == room
    ensures Enabled(run[|acts|], PostHuman(room))
    ensures var s, s' := run[|acts|], Next(run[|acts|], PostHuman(room));
            && s'.rooms == s.rooms[room := s.rooms[room] + [Human(s.nextId)]] && s'.tasks == s.tasks
            && Overtaken(s', s'.tasks[t]) && Current(s', s'.tasks[t]) == -2
  {
    EveryStateOk(run, acts, |acts|);
    var s, s' := run[|acts|], Next(run[|acts|], PostHuman(room));
    StepKeepsInv(s, PostHuman(room));
    var log := s'.rooms[room];
    assert log[|log| - 1] == Human(s.nextId) && LateOk(s, s.tasks[t]);
    OvertakenIsStale(s', s'.tasks[t]);
    assert Latest(log) == s.nextId;
  }

  /** When its room is closed, a discussion can no longer call or reply; a deadline or a
      cancellation aborts it. */
  lemma ClosedOrAborted(s: State, t: TaskId)
    requires t in s.tasks
    ensures s.tasks[t].room in s.rooms ==>
      Enabled(s, CloseRoom(s.tasks[t].room)) && Current(Next(s, CloseRoom(s.tasks[t].room)), s.tasks[t]) == -1
    ensures Enabled(s, Expire(t)) && Next(s, Expire(t)) == s.(tasks := s.tasks[t := s.tasks[t].(expired := true)])
    ensures Enabled(s, Cancel(t)) && Next(s, Cancel(t)) == s.(tasks := s.tasks[t := s.tasks[t].(cancelled := true)])
    ensures Aborted(Next(s, Expire(t)).tasks[t]) && Aborted(Next(s, Cancel(t)).tasks[t])
  {
  }

  // ----- no further than it must -----

  /** On its way out of the room. */
  predicate IsOut(at: At) {
    at.Leaving? || at.Unlocking? || at.Returned? || at.Terminal?
  }

  /** What a step of anybody does to where task `t` stands; an abort is never taken back. */
  lemma OneStep(run: seq<State>, acts: seq<Act>, i: nat, t: TaskId)
    requires Behaviour(run, acts) && i < |acts| && t in run[i].tasks
    ensures t in run[i + 1].tasks && run[i + 1].tasks[t].room == run[i].tasks[t].room
    ensures Aborted(run[i].tasks[t]) ==> Aborted(run[i + 1].tasks[t])
    ensures run[i].tasks[t].cancelled ==> run[i + 1].tasks[t].cancelled
    ensures run[i + 1].tasks[t].at == if acts[i].Advance? && acts[i].t == t then acts[i].to else run[i].tasks[t].at
    ensures acts[i].Advance? && acts[i].t == t ==> MayFollow(run[i], t, acts[i].to)
  {
    hide MayFollow, DispatchMay;
    assert Follows(run[i], acts[i], run[i + 1]);
    if acts[i].Advance? && acts[i].t == t {
      AdvancedTaskIsMoved(run[i], t, acts[i].to);
    } else {
      AbortsStay(run[i], acts[i], t);
    }
  }

  lemma AbortsStay(s: State, a: Act, t: TaskId)
    requires Enabled(s, a) && t in s.tasks && !(a.Advance? && a.t == t)
    ensures var k, m := s.tasks[t], Next(s, a).tasks; t in m && m[t].at == k.at && m[t].room == k.room
    ensures var k, m := s.tasks[t], Next(s, a).tasks; (k.cancelled ==> m[t].cancelled) && (k.expired ==> m[t].expired)
  {
  }

  predicate PastCalls(at: At) {
    at.Calling? || at.Answered? || at.Publishing? || at.Choosing? || IsOut(at)
  }

  /** Where the program leads from such places. */
  lemma WhatFollows(s: State, t: TaskId, to: At)
    requires t in s.tasks && MayFollow(s, t, to)
    ensures IsOut(s.tasks[t].at) ==> IsOut(to)
    ensures Aborted(s.tasks[t]) && PastCalls(s.tasks[t].at) ==> PastCalls(to)
    ensures Aborted(s.tasks[t]) && s.tasks[t].at.Queued? ==> to.Terminal?
    ensures Aborted(s.tasks[t]) && s.tasks[t].at.Waiting? ==> to.Returned?
    ensures s.tasks[t].at.Returned? ==> to.Terminal?
    ensures !s.tasks[t].at.Terminal?
  {
  }

  predicate Leads(k: Task, k': Task) {
    && (IsOut(k.at) ==> IsOut(k'.at))
    && (Aborted(k) ==> Aborted(k')) && (k.cancelled ==> k'.cancelled)
    && (Aborted(k) && PastCalls(k.at) ==> PastCalls(k'.at))
    && (Aborted(k) && k.at.Queued? ==> k'.at.Queued? || k'.at.Terminal?)
    && (Aborted(k) && (k.at.Waiting? || k.at.Returned? || k.at.Terminal?) ==>
          k'.at.Waiting? || k'.at.Returned? || k'.at.Terminal?)
    && (k.at.Terminal? ==> k'.at.Terminal?)
  }

  lemma StepOn(run: seq<State>, acts: seq<Act>, i: nat, t: TaskId)
    requires Behaviour(run, acts) && i < |acts| && t in run[i].tasks
    ensures t in run[i + 1].tasks && Leads(run[i].tasks[t], run[i + 1].tasks[t])
  {
    hide MayFollow;
    OneStep(run, acts, i, t);
    if acts[i].Advance? && acts[i].t == t {
      WhatFollows(run[i], t, acts[i].to);
    }
  }

  lemma {:induction false} OutStaysOut(run: seq<State>, acts: seq<Act>, i: nat, j: nat, t: TaskId)
    requires Behaviour(run, acts) && i <= j < |run| && t in run[i].tasks && IsOut(run[i].tasks[t].at)
    ensures t in run[j].tasks && IsOut(run[j].tasks[t].at)
    ensures run[i].tasks[t].cancelled ==> run[j].tasks[t].cancelled
    decreases j - i
  {
    if i < j {
      OutStaysOut(run, acts, i, j - 1, t);
      StepOn(run, acts, j - 1, t);
    }
  }

  /** A discussion that finds its trigger overtaken, before or after a call or when it
      publishes, is cancelled and on its way out for good. */
  lemma AFailedCheckEndsIt(run: seq<State>, acts: seq<Act>, i: nat, j: nat, t: TaskId)
    requires Behaviour(run, acts) && i < j < |run| && t in run[i].tasks && acts[i].Advance? && acts[i].t == t
    requires var k := run[i].tasks[t];
             || ((k.at.Checking? || k.at.Answered?) && Current(run[i], k) != 0)
             || (k.at.Publishing? && k.room in run[i].rooms && Latest(run[i].rooms[k.room]) != k.trigger)
    ensures t in run[j].tasks && IsOut(run[j].tasks[t].at) && run[j].tasks[t].cancelled
  {
    assert Follows(run[i], acts[i], run[i + 1]);
    OneStep(run, acts, i, t);
    AdvancedTaskIsMoved(run[i], t, acts[i].to);
    OutStaysOut(run, acts, i + 1, j, t);
  }

  /** A discussion aborted before it has the room never gets it. */
  lemma {:induction false} AnAbortedWaiterNeverEnters(run: seq<State>, acts: seq<Act>, i: nat, j: nat, t: TaskId)
    requires Behaviour(run, acts) && i <= j < |run| && t in run[i].tasks && Aborted(run[i].tasks[t])
    requires run[i].tasks[t].at.Queued? || run[i].tasks[t].at.Waiting?
    ensures t in run[j].tasks && Aborted(run[j].tasks[t]) && !HoldsRoom(run[j].tasks[t])
    ensures run[i].tasks[t].at.Queued? ==> run[j].tasks[t].at.Queued? || run[j].tasks[t].at.Terminal?
    ensures run[i].tasks[t].at.Waiting? ==>
      run[j].tasks[t].at.Waiting? || run[j].tasks[t].at.Returned? || run[j].tasks[t].at.Terminal?
    decreases j - i
  {
    if i < j {
      AnAbortedWaiterNeverEnters(run, acts, i, j - 1, t);
      StepOn(run, acts, j - 1, t);
    }
  }

  /** After the call that is under way, an aborted discussion starts no other. */
  lemma {:induction false} NoCallAfterAbortedCall(run: seq<State>, acts: seq<Act>, i: nat, j: nat, t: TaskId)
    requires Behaviour(run, acts) && i <= j < |run| && t in run[i].tasks && Aborted(run[i].tasks[t])
    requires PastCalls(run[i].tasks[t].at)
    ensures t in run[j].tasks && Aborted(run[j].tasks[t]) && PastCalls(run[j].tasks[t].at)
    decreases j - i
  {
    if i < j {
      NoCallAfterAbortedCall(run, acts, i, j - 1, t);
      StepOn(run, acts, j - 1, t);
    }
  }

  /** Once aborted, a discussion starts at most the one call it was preparing. */
  lemma AtMostOneCallOnceAborted(run: seq<State>, acts: seq<Act>, i: nat, j: nat, k: nat, t: TaskId)
    requires Behaviour(run, acts) && i <= j < k && StartsCall(run, acts, j, t)
    requires t in run[i].tasks && Aborted(run[i].tasks[t])
    ensures !StartsCall(run, acts, k, t)
  {
    if StartsCall(run, acts, k, t) {
      AbortStaysAlong(run, acts, i, j, t);
      OneStep(run, acts, j, t);
      NoCallAfterAbortedCall(run, acts, j + 1, k, t);
    }
  }

  lemma {:induction false} AbortStaysAlong(run: seq<State>, acts: seq<Act>, i: nat, j: nat, t: TaskId)
    requires Behaviour(run, acts) && i <= j < |run| && t in run[i].tasks && Aborted(run[i].tasks[t])
    ensures t in run[j].tasks && Aborted(run[j].tasks[t])
    decreases j - i
  {
    if i < j {
      AbortStaysAlong(run, acts, i, j - 1, t);
      OneStep(run, acts, j - 1, t);
    }
  }
}
