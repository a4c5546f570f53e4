/**
 Group discussions, human messages and `im_dispatch` of cognitive_os_agent.c, in
 any interleaving, over the message store of im.c.

 One discussion task runs `im_run_round`; a call of chat_lane_run is one step that
 starts and one that ends (LaneProtocol looks inside it).  Loop control between
 two role invocations is left open: every order the loops allow is covered, and
 RoundRobin says which orders those are.
 */
module Discussion {
  import opened Options
  import opened Rooms

  type TaskId = nat
  type RoomId = nat

  /** A stored message. Replies carry the task that published them; `Other` is any
      message that is neither a human's nor a discussion's. */
  datatype Msg = Human(id: nat) | Reply(id: nat, author: TaskId) | Other(id: nat)

  /** Where a discussion task stands. */
  datatype At =
    | Queued
    | Waiting      // lane_lock_wait on the room lock
    | Locked       // the room lock is held, the active slot not yet written
    | Entered
    | Choosing     // loop control: next member, next pass, or out
    | Checking     // im_discussion_transcript before the call
    | Prompting
    | Calling      // inside chat_lane_run
    | Answered     // im_discussion_transcript after the call
    | Publishing   // im_send_agent_reply
    | Leaving      // the active slot is about to be cleared
    | Unlocking
    | Returned     // the runner has returned, the status is still RUNNING
    | Terminal

  /** `late` counts the calls started while the trigger was no longer the room's
      latest human message. */
  datatype Task = Task(room: RoomId, trigger: nat, at: At, cancelled: bool, expired: bool, late: nat)

  /** Where a call of im_dispatch stands. */
  datatype Step =
    | Loading(room: RoomId, m: nat)
    | Examining(room: RoomId, m: nat, active: Option<TaskId>)
    | Hitting(room: RoomId, m: nat, target: TaskId)
    | Submitting(room: RoomId, m: nat)
    | Dispatched

  /** A cancellation im_dispatch has made on behalf of message `m` of `room`. */
  datatype Hit = Hit(target: TaskId, room: RoomId, m: nat)

  datatype State = State(
    rooms: map<RoomId, seq<Msg>>,
    nextId: nat,                         // shared by rooms and messages, never reused
    tasks: map<TaskId, Task>,
    locks: map<nat, TaskId>,             // bucket to holder
    active: map<nat, TaskId>,            // g_im_active_tasks; absent is -1
    dispatches: map<nat, Step>,
    hits: seq<Hit>)

  /** The id of the last human message, 0 when there is none. */
  function Latest(log: seq<Msg>): nat {
    if log == [] then 0
    else if log[|log| - 1].Human? then log[|log| - 1].id
    else Latest(log[..|log| - 1])
  }

  /** im_discussion_transcript: 0 when `trigger` is the room's latest human message,
      -2 when a newer one took over, -1 otherwise. */
  function Current(s: State, t: Task): int {
    var log := if t.room in s.rooms then s.rooms[t.room] else [];
    if Human(t.trigger) in log && Latest(log) == t.trigger then 0
    else if Latest(log) > t.trigger then -2
    else -1
  }

  function Aborted(t: Task): bool { t.cancelled || t.expired }

  datatype Act =
    | OpenRoom
    | CloseRoom(room: RoomId)
    | PostHuman(room: RoomId)
    | PostOther(room: RoomId)
    | Expire(t: TaskId)
    | Cancel(t: TaskId)
    | Advance(t: TaskId, to: At)
    | BeginDispatch(d: nat, room: RoomId, m: nat)
    | Dispatch(d: nat, next: Step, id: TaskId)

  /** The program text of im_run_round: which program point may follow. */
  predicate MayFollow(s: State, t: TaskId, to: At)
    requires t in s.tasks
  {
    var k := s.tasks[t];
    match k.at
    case Queued => if Aborted(k) then to == Terminal else to == Waiting
    case Waiting => (Aborted(k) && to == Returned) || (!Aborted(k) && Bucket(k.room) !in s.locks && to == Locked)
    case Locked => to == Entered
    case Entered => ((k.room !in s.rooms || Aborted(k)) && to == Leaving) || (k.room in s.rooms && to == Choosing)
    case Choosing => to == Leaving || (!Aborted(k) && to == Checking)
    case Checking => to == if Current(s, k) == 0 then Prompting else Leaving
    case Prompting => to == Calling || to == Leaving
    case Calling => to == Answered
    case Answered => if Current(s, k) != 0 then to == Leaving else to == Leaving || to == Publishing || to == Choosing
    case Publishing => to == Leaving || (CanPublish(s, k) && to == Choosing)
    case Leaving => to == Unlocking
    case Unlocking => to == Returned
    case Returned => to == Terminal
    case Terminal => false
  }

  /** The condition im_send_agent_reply tests under the store's lock. */
  predicate CanPublish(s: State, k: Task) {
    k.room in s.rooms && k.trigger > 0 && Latest(s.rooms[k.room]) == k.trigger
  }

  /** The task after moving to `to`: a failed check cancels it. */
  function Moved(s: State, k: Task, to: At): Task {
    if k.at.Prompting? && to.Calling? then
      k.(at := to, late := k.late + if Current(s, k) == 0 then 0 else 1)
    else if (k.at.Checking? || k.at.Answered?) && Current(s, k) != 0 then k.(at := to, cancelled := true)
    else if k.at.Publishing? && k.room in s.rooms && Latest(s.rooms[k.room]) != k.trigger then k.(at := to, cancelled := true)
    else k.(at := to)
  }

  function Append(s: State, room: RoomId, m: Msg): State
    requires room in s.rooms
  {
    s.(rooms := s.rooms[room := s.rooms[room] + [m]], nextId := s.nextId + 1)
  }

  predicate Posts(s: State, k: Task, to: At) {
    k.at.Publishing? && to.Choosing? && k.room in s.rooms
  }

  /** The room lock is taken on the way from waiting and given back after the active
      slot, which is written while the lock is held; a published reply is stored. */
  function AdvanceTask(s: State, t: TaskId, to: At): State
    requires t in s.tasks
  {
    var k := s.tasks[t];
    var b := Bucket(k.room);
    s.(rooms := if Posts(s, k, to) then s.rooms[k.room := s.rooms[k.room] + [Reply(s.nextId, t)]] else s.rooms,
       nextId := if Posts(s, k, to) then s.nextId + 1 else s.nextId,
       tasks := s.tasks[t := Moved(s, k, to)],
       locks := if k.at.Waiting? && to.Locked? then s.locks[b := t] else if k.at.Unlocking? then s.locks - {b} else s.locks,
       active := if k.at.Locked? then s.active[b := t] else if k.at.Leaving? then s.active - {b} else s.active)
  }

  predicate Running(k: Task) { !k.at.Queued? && !k.at.Terminal? }

  /** The program text of im_dispatch. */
  predicate DispatchMay(s: State, d: nat, to: Step, id: TaskId)
    requires d in s.dispatches
  {
    match s.dispatches[d]
    case Loading(room, m) =>
      to == Examining(room, m, if Bucket(room) in s.active then Some(s.active[Bucket(room)]) else None)
    case Examining(room, m, active) =>
      if active.Some? && active.value in s.tasks
         && s.tasks[active.value].room == room && s.tasks[active.value].trigger < m && Running(s.tasks[active.value])
      then to == Hitting(room, m, active.value)
      else to == Submitting(room, m)
    case Hitting(room, m, target) => to == Submitting(room, m)
    case Submitting(room, m) => to == Dispatched && id !in s.tasks
    case Dispatched => false
  }

  function TasksAfter(s: State, p: Step, id: TaskId): map<TaskId, Task> {
    if p.Hitting? && p.target in s.tasks then s.tasks[p.target := s.tasks[p.target].(cancelled := true)]
    else if p.Submitting? then s.tasks[id := Task(p.room, p.m, Queued, false, false, 0)]
    else s.tasks
  }

  function AdvanceDispatch(s: State, d: nat, to: Step, id: TaskId): State
    requires d in s.dispatches
  {
    var p := s.dispatches[d];
    s.(dispatches := s.dispatches[d := to], tasks := TasksAfter(s, p, id),
       hits := if p.Hitting? && p.target in s.tasks then s.hits + [Hit(p.target, p.room, p.m)] else s.hits)
  }

  predicate Enabled(s: State, a: Act) {
    match a
    case OpenRoom => true
    case CloseRoom(room) => room in s.rooms
    case PostHuman(room) => room in s.rooms
    case PostOther(room) => room in s.rooms
    case Expire(t) => t in s.tasks
    case Cancel(t) => t in s.tasks
    case Advance(t, to) => t in s.tasks && MayFollow(s, t, to)
    case BeginDispatch(d, room, m) => d !in s.dispatches && m > 0 && room in s.rooms && Human(m) in s.rooms[room]
    case Dispatch(d, to, id) => d in s.dispatches && DispatchMay(s, d, to, id)
  }

  function Next(s: State, a: Act): State
    requires Enabled(s, a)
  {
    match a
    case OpenRoom => s.(rooms := s.rooms[s.nextId := []], nextId := s.nextId + 1)
    case CloseRoom(room) => s.(rooms := s.rooms - {room})
    case PostHuman(room) => Append(s, room, Human(s.nextId))
    case PostOther(room) => Append(s, room, Other(s.nextId))
    case Expire(t) => s.(tasks := s.tasks[t := s.tasks[t].(expired := true)])
    case Cancel(t) => s.(tasks := s.tasks[t := s.tasks[t].(cancelled := true)])
    case Advance(t, to) => AdvanceTask(s, t, to)
    case BeginDispatch(d, room, m) => s.(dispatches := s.dispatches[d := Loading(room, m)])
    case Dispatch(d, to, id) => AdvanceDispatch(s, d, to, id)
  }

  /** A process that has read its store: any rooms with well-formed logs, in which
      assistants' messages are `Other`, and nothing under way. */
  ghost predicate Loaded(s: State) {
    LogsOk(s) && s.tasks == map[] && s.locks == map[] && s.active == map[] && s.dispatches == map[] && s.hits == []
  }

  /** Performing `acts` one after the other from a store that has been read passes through
      exactly the states of `run`. */
  ghost predicate Behaviour(run: seq<State>, acts: seq<Act>) {
    && |run| == |acts| + 1 && Loaded(run[0])
    && (forall i {:trigger acts[i]} :: 0 <= i < |acts| ==> Follows(run[i], acts[i], run[i + 1]))
  }

  ghost predicate Follows(s: State, a: Act, s': State) {
    Enabled(s, a) && s' == Next(s, a)
  }

  // ----- invariants -----

  /** Message ids grow along the log, and every reply answers the human message
      that was the latest when it was stored. */
  ghost predicate LogOk(s: State, log: seq<Msg>) {
    && (forall i :: 0 <= i < |log| ==> 0 < log[i].id < s.nextId)
    && (forall i, j :: 0 <= i < j < |log| ==> log[i].id < log[j].id)
    && (forall j :: 0 <= j < |log| && log[j].Reply? ==>
          log[j].author in s.tasks && Latest(log[..j]) == s.tasks[log[j].author].trigger)
  }

  ghost predicate LogsOk(s: State) {
    s.nextId > 0 && forall r :: r in s.rooms ==> r < s.nextId && LogOk(s, s.rooms[r])
  }

  predicate HoldsRoom(k: Task) {
    || k.at.Locked? || k.at.Entered? || k.at.Choosing? || k.at.Checking? || k.at.Prompting? || k.at.Calling?
    || k.at.Answered? || k.at.Publishing? || k.at.Leaving? || k.at.Unlocking?
  }

  predicate IsActive(k: Task) { HoldsRoom(k) && !k.at.Locked? && !k.at.Unlocking? }

  /** A bucket is held by the one task between lock and unlock, and the active slot
      names the task that has entered and not yet left. */
  ghost predicate RoomsOk(s: State) {
    && (forall b :: b in s.locks ==> s.locks[b] in s.tasks && HoldsRoom(s.tasks[s.locks[b]]) && Bucket(s.tasks[s.locks[b]].room) == b)
    && (forall t :: t in s.tasks && HoldsRoom(s.tasks[t]) ==>
          Bucket(s.tasks[t].room) in s.locks && s.locks[Bucket(s.tasks[t].room)] == t)
    && (forall b :: b in s.active ==> s.active[b] in s.tasks && IsActive(s.tasks[s.active[b]]) && Bucket(s.tasks[s.active[b]].room) == b)
    && (forall t :: t in s.tasks && IsActive(s.tasks[t]) ==>
          Bucket(s.tasks[t].room) in s.active && s.active[Bucket(s.tasks[t].room)] == t)
  }

  /** A task whose trigger is no longer current can start the one call it was
      already preparing, and is past its last reply once it has. */
  predicate LateOk(s: State, k: Task) {
    && k.room < s.nextId && k.trigger < s.nextId
    && k.late <= 1
    && (k.late == 1 ==>
          && Current(s, k) != 0
          && (k.at.Calling? || k.at.Answered? || k.at.Leaving? || k.at.Unlocking? || k.at.Returned? || k.at.Terminal?))
  }

  /** What a cancellation may rest on: the same room, and an older trigger. */
  predicate Justified(s: State, target: TaskId, room: RoomId, m: nat) {
    target in s.tasks && s.tasks[target].room == room && s.tasks[target].trigger < m && !s.tasks[target].at.Queued?
  }

  predicate StepOk(s: State, p: Step) {
    match p
    case Loading(room, m) => room < s.nextId && m < s.nextId
    case Examining(room, m, _) => room < s.nextId && m < s.nextId
    case Hitting(room, m, target) => room < s.nextId && m < s.nextId && Justified(s, target, room, m)
    case Submitting(room, m) => room < s.nextId && m < s.nextId
    case Dispatched => true
  }

  ghost predicate DispatchesOk(s: State) {
    && (forall d :: d in s.dispatches ==> StepOk(s, s.dispatches[d]))
    && (forall i :: 0 <= i < |s.hits| ==> Justified(s, s.hits[i].target, s.hits[i].room, s.hits[i].m))
  }

  ghost predicate TasksOk(s: State) {
    forall t :: t in s.tasks ==> LateOk(s, s.tasks[t])
  }

  ghost predicate Inv(s: State) {
    LogsOk(s) && RoomsOk(s) && TasksOk(s) && DispatchesOk(s)
  }
}
