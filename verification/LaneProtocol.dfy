/**
 Chat tasks, group discussions, the single-agent entry points and the LLM swap
 of cognitive_os_agent.c, run side by side over the room locks, the session
 lock table and the four reasoning lanes.

 Every process has one program counter.  `Move` is the program text: it says
 which operation a process may perform next and where it goes.  `Apply` is what
 an operation does to the shared state.  A behaviour is any sequence of moves,
 arrivals and aborts, in any order.
 */
module LaneProtocol {
  import opened Options
  import opened Rooms
  import opened LaneTable

  const LANES: nat := 4

  type Proc = nat
  type Handle = nat
  type Llm = nat

  datatype Lock = Room(bucket: nat) | Sess(entry: Handle) | Lane(lane: nat)

  /** The arguments `chat_lane_run` was called with: its session, and the room
      bucket its caller holds when the caller is a discussion. */
  datatype Call = Call(room: Option<nat>, session: string)

  /** Where a process stands inside `chat_lane_run`. */
  datatype Stage =
    | Acquire                             // scheduler_acquire
    | Lookup                              // lane_sess_lock_acquire, under g_lane_sess_mtx
    | SessCheck(e: Handle)                // top of lane_lock_wait on the session lock
    | SessTry(e: Handle)
    | SessGiveUp(e: Handle)
    | LaneCheck(e: Handle)                // top of the lane scan
    | LaneTry(e: Handle, i: nat)
    | LaneGiveUp(e: Handle)               // lane_sess_lock_release on the abort path
    | LaneGaveUp(e: Handle)
    | Abandon                             // scheduler_release on a failure path
    | LaneHeld(e: Handle, i: nat)
    | Running(e: Handle, i: nat, llm: Llm)
    | Ran(e: Handle, i: nat)              // scheduler_release
    | LaneLeave(e: Handle, i: nat)
    | SessLeave(e: Handle)                // lane_sess_lock_release
    | SessLeft(e: Handle)

  datatype Pc =
    // im_run_round
    | RoomCheck(bucket: nat)              // top of lane_lock_wait on the room lock
    | RoomTry(bucket: nat)
    | RoomHeld(bucket: nat)               // between two role invocations
    | Chat(c: Call, at: Stage)
    // run and agent_run
    | SoloLock
    | SoloHeld
    | SoloRunning(llm: Llm)
    | SoloLeave
    // set_llm
    | SwapCreate
    | SwapLock(i: nat, llm: Llm)
    | SwapSet(i: nat, llm: Llm)
    | SwapUnlock(i: nat, llm: Llm)
    | SwapRead(llm: Llm)                  // old = ctx->llm
    | SwapPublish(llm: Llm, retired: Llm) // ctx->llm = nl
    | SwapDestroy(retired: Llm)
    | Done

  datatype State = State(
    procs: map<Proc, Pc>,
    aborted: set<Proc>,
    locks: map<Lock, Proc>,          // the locks held, and by whom
    table: Table<Handle>,
    taskRefs: map<Proc, nat>,        // references taken on a process's own task
    lanes: seq<Llm>,                 // the LLM each lane refers to
    ctxLlm: Llm,
    live: set<Llm>)

  datatype Op =
    | Nop
    | Take(l: Lock)
    | Drop(l: Lock)
    | Pin(h: Handle)
    | Make(h: Handle, id: string)
    | Unpin(h: Handle)
    | TaskUp
    | TaskDown
    | NewLlm(x: Llm)
    | SetLane(i: nat, x: Llm)
    | Publish(x: Llm)
    | Destroy(x: Llm)

  /** What an operation does to each part of the shared state.  A new entry's lock starts
      free (mutex_init), also when its address was used before. */
  function Apply(s: State, p: Proc, op: Op): State {
    s.(locks := LocksAfter(s.locks, p, op),
       table := TableAfter(s.table, op),
       taskRefs := RefsAfter(s, p, op),
       lanes := if op.SetLane? && op.i < |s.lanes| then s.lanes[op.i := op.x] else s.lanes,
       ctxLlm := if op.Publish? then op.x else s.ctxLlm,
       live := if op.NewLlm? then s.live + {op.x} else if op.Destroy? then s.live - {op.x} else s.live)
  }

  function LocksAfter(locks: map<Lock, Proc>, p: Proc, op: Op): map<Lock, Proc> {
    match op
    case Take(l) => locks[l := p]
    case Drop(l) => locks - {l}
    case Make(h, _) => locks - {Sess(h)}
    case _ => locks
  }

  function TableAfter(t: Table<Handle>, op: Op): Table<Handle> {
    match op
    case Pin(h) => LaneTable.Pin(t, h)
    case Make(h, id) => LaneTable.Make(t, h, id)
    case Unpin(h) => LaneTable.Unpin(t, h)
    case _ => t
  }

  function RefsAfter(s: State, p: Proc, op: Op): map<Proc, nat> {
    match op
    case TaskUp => s.taskRefs[p := Refs(s, p) + 1]
    case TaskDown => s.taskRefs[p := if Refs(s, p) == 0 then 0 else Refs(s, p) - 1]
    case _ => s.taskRefs
  }

  function Refs(s: State, p: Proc): nat {
    if p in s.taskRefs then s.taskRefs[p] else 0
  }

  /** Where control goes when chat_lane_run returns. */
  function After(c: Call): Pc {
    match c.room
    case Some(b) => RoomHeld(b)
    case None => Done
  }

  /** A trylock: taken when free, otherwise control goes to `retry`. */
  predicate TryLock(s: State, op: Op, pc': Pc, l: Lock, got: Pc, retry: Pc) {
    if l !in s.locks then op == Take(l) && pc' == got else op == Nop && pc' == retry
  }

  /** The program text of chat_lane_run. */
  predicate ChatMove(s: State, p: Proc, c: Call, at: Stage, op: Op, pc': Pc) {
    match at
    case Acquire =>
      (op == TaskUp && pc' == Chat(c, Lookup)) || (op == Nop && pc' == After(c))
    case Lookup =>
      (match Find(s.table, s.table.list, Key(c.session))
       case Some(h) => op == Pin(h) && pc' == Chat(c, SessCheck(h))
       case None =>
         || (op.Make? && op.h !in s.table.recs && op.id == Key(c.session) && pc' == Chat(c, SessCheck(op.h)))
         || (op == Nop && pc' == Chat(c, Abandon)))
    case SessCheck(e) =>
      op == Nop && pc' == Chat(c, if p in s.aborted then SessGiveUp(e) else SessTry(e))
    case SessTry(e) =>
      TryLock(s, op, pc', Sess(e), Chat(c, LaneCheck(e)), Chat(c, SessCheck(e)))
    case SessGiveUp(e) =>
      op == Unpin(e) && pc' == Chat(c, Abandon)
    case LaneCheck(e) =>
      op == Nop && pc' == Chat(c, if p in s.aborted then LaneGiveUp(e) else LaneTry(e, 0))
    case LaneTry(e, i) =>
      TryLock(s, op, pc', Lane(i), Chat(c, LaneHeld(e, i)),
              Chat(c, if i + 1 < LANES then LaneTry(e, i + 1) else LaneCheck(e)))
    case LaneGiveUp(e) =>
      op == Drop(Sess(e)) && pc' == Chat(c, LaneGaveUp(e))
    case LaneGaveUp(e) =>
      op == Unpin(e) && pc' == Chat(c, Abandon)
    case Abandon =>
      op == TaskDown && pc' == After(c)
    case LaneHeld(e, i) =>
      op == Nop && i < |s.lanes| && pc' == Chat(c, Running(e, i, s.lanes[i]))
    case Running(e, i, _) =>
      op == Nop && pc' == Chat(c, Ran(e, i))
    case Ran(e, i) =>
      op == TaskDown && pc' == Chat(c, LaneLeave(e, i))
    case LaneLeave(e, i) =>
      op == Drop(Lane(i)) && pc' == Chat(c, SessLeave(e))
    case SessLeave(e) =>
      op == Drop(Sess(e)) && pc' == Chat(c, SessLeft(e))
    case SessLeft(e) =>
      op == Unpin(e) && pc' == After(c)
  }

  /** The program text. */
  predicate Move(s: State, p: Proc, op: Op, pc': Pc)
    requires p in s.procs
  {
    match s.procs[p]
    case RoomCheck(b) =>
      op == Nop && pc' == if p in s.aborted then Done else RoomTry(b)
    case RoomTry(b) =>
      TryLock(s, op, pc', Room(b), RoomHeld(b), RoomCheck(b))
    case RoomHeld(b) =>
      || (op == Nop && pc'.Chat? && pc'.c.room == Some(b) && pc'.at == Acquire)
      || (op == Drop(Room(b)) && pc' == Done)
    case Chat(c, at) =>
      ChatMove(s, p, c, at, op, pc')
    case SoloLock =>
      Lane(0) !in s.locks && op == Take(Lane(0)) && pc' == SoloHeld
    case SoloHeld =>
      op == Nop && 0 < |s.lanes| && pc' == SoloRunning(s.lanes[0])
    case SoloRunning(_) =>   // agent_run may run a second time under the same lock
      op == Nop && (pc' == SoloHeld || pc' == SoloLeave)
    case SoloLeave =>
      op == Drop(Lane(0)) && pc' == Done
    case SwapCreate =>
      || (op.NewLlm? && op.x !in s.live && pc' == SwapLock(0, op.x))
      || (op == Nop && pc' == Done)
    case SwapLock(i, x) =>
      Lane(i) !in s.locks && op == Take(Lane(i)) && pc' == SwapSet(i, x)
    case SwapSet(i, x) =>
      op == SetLane(i, x) && pc' == SwapUnlock(i, x)
    case SwapUnlock(i, x) =>
      op == Drop(Lane(i)) && pc' == if i + 1 < LANES then SwapLock(i + 1, x) else SwapRead(x)
    case SwapRead(x) =>
      op == Nop && pc' == SwapPublish(x, s.ctxLlm)
    case SwapPublish(x, retired) =>
      op == Publish(x) && pc' == SwapDestroy(retired)
    case SwapDestroy(x) =>
      op == Destroy(x) && pc' == Done
    case Done => false
  }

  /** Where a process may start. */
  predicate Entry(pc: Pc) {
    || (pc.RoomCheck? && pc.bucket < ROOM_LOCKS)
    || (pc.Chat? && pc.c.room == None && pc.at == Acquire)
    || pc == SoloLock
    || pc == SwapCreate
  }

  datatype Act = Advance(p: Proc, op: Op, pc': Pc) | Arrive(p: Proc, pc: Pc) | Abort(p: Proc)

  predicate Enabled(s: State, a: Act) {
    match a
    case Advance(p, op, pc') => p in s.procs && Move(s, p, op, pc')
    case Arrive(p, pc) => p !in s.procs && Entry(pc)
    case Abort(p) => p in s.procs
  }

  function Next(s: State, a: Act): State {
    match a
    case Advance(p, op, pc') => Apply(s, p, op).(procs := s.procs[p := pc'])
    case Arrive(p, pc) => s.(procs := s.procs[p := pc])
    case Abort(p) => s.(aborted := s.aborted + {p})
  }

  predicate Initial(s: State) {
    && s.procs == map[] && s.locks == map[] && s.table == Table([], map[]) && s.taskRefs == map[]
    && |s.lanes| == LANES && s.ctxLlm in s.live
    && (forall i :: 0 <= i < |s.lanes| ==> s.lanes[i] == s.ctxLlm)
  }

  /** The state after performing `acts` one after the other. */
  function Final(s: State, acts: seq<Act>): State {
    if acts == [] then s else Next(Final(s, acts[..|acts| - 1]), acts[|acts| - 1])
  }

  /** Each act is enabled where it is performed: `acts` is a behaviour from `s`. */
  predicate Behaviour(s: State, acts: seq<Act>) {
    acts == [] || (Behaviour(s, acts[..|acts| - 1]) && Enabled(Final(s, acts[..|acts| - 1]), acts[|acts| - 1]))
  }

  // ----- what a program counter owns -----

  function StageSession(at: Stage): Option<Handle> {
    match at
    case LaneCheck(e) => Some(e)
    case LaneTry(e, _) => Some(e)
    case LaneGiveUp(e) => Some(e)
    case LaneHeld(e, _) => Some(e)
    case Running(e, _, _) => Some(e)
    case Ran(e, _) => Some(e)
    case LaneLeave(e, _) => Some(e)
    case SessLeave(e) => Some(e)
    case _ => None
  }

  function StageLane(at: Stage): Option<nat> {
    match at
    case LaneHeld(_, i) => Some(i)
    case Running(_, i, _) => Some(i)
    case Ran(_, i) => Some(i)
    case LaneLeave(_, i) => Some(i)
    case _ => None
  }

  function StagePin(at: Stage): Option<Handle> {
    match at
    case SessCheck(e) => Some(e)
    case SessTry(e) => Some(e)
    case SessGiveUp(e) => Some(e)
    case LaneGaveUp(e) => Some(e)
    case SessLeft(e) => Some(e)
    case _ => StageSession(at)
  }

  predicate StageTask(at: Stage) {
    !at.Acquire? && !at.LaneLeave? && !at.SessLeave? && !at.SessLeft?
  }

  function RoomOf(pc: Pc): Option<nat> {
    match pc
    case RoomHeld(b) => Some(b)
    case Chat(c, _) => c.room
    case _ => None
  }

  function SessionOf(pc: Pc): Option<Handle> {
    if pc.Chat? then StageSession(pc.at) else None
  }

  function LaneOf(pc: Pc): Option<nat> {
    match pc
    case Chat(_, at) => StageLane(at)
    case SoloHeld => Some(0)
    case SoloRunning(_) => Some(0)
    case SoloLeave => Some(0)
    case SwapSet(i, _) => Some(i)
    case SwapUnlock(i, _) => Some(i)
    case _ => None
  }

  /** The entry whose reference count this process is counted in: owners, waiters
      and processes about to drop their reference. */
  function PinOf(pc: Pc): Option<Handle> {
    if pc.Chat? then StagePin(pc.at) else None
  }

  predicate HasTask(pc: Pc) {
    pc.Chat? && StageTask(pc.at)
  }

  predicate Holds(pc: Pc, l: Lock) {
    match l
    case Room(b) => RoomOf(pc) == Some(b)
    case Sess(e) => SessionOf(pc) == Some(e)
    case Lane(i) => LaneOf(pc) == Some(i)
  }

  function Rank(l: Lock): nat {
    match l
    case Room(_) => 0
    case Sess(_) => 1
    case Lane(_) => 2
  }

  // ----- the program text, seen from its effect on ownership -----

  predicate SameLocks(pc: Pc, pc': Pc) {
    RoomOf(pc') == RoomOf(pc) && SessionOf(pc') == SessionOf(pc) && LaneOf(pc') == LaneOf(pc)
  }

  /** Every lock a move takes outranks all the locks the process holds. */
  lemma TakesInRankOrder(s: State, p: Proc, op: Op, pc': Pc)
    requires p in s.procs && Move(s, p, op, pc') && op.Take?
    ensures op.l !in s.locks
    ensures forall l :: Holds(s.procs[p], l) ==> Rank(l) < Rank(op.l)
    ensures forall l :: Holds(pc', l) <==> Holds(s.procs[p], l) || l == op.l
    ensures PinOf(pc') == PinOf(s.procs[p])
  {
    hide ChatMove;
    if s.procs[p].Chat? {
      ChatTakes(s, p, s.procs[p].c, s.procs[p].at, op, pc');
    }
  }

  lemma ChatTakes(s: State, p: Proc, c: Call, at: Stage, op: Op, pc': Pc)
    requires ChatMove(s, p, c, at, op, pc') && op.Take?
    ensures op.l !in s.locks && pc'.Chat? && pc'.c == c && StagePin(pc'.at) == StagePin(at)
    ensures (at.SessTry? && op.l == Sess(at.e) && StageSession(pc'.at) == Some(at.e) && StageLane(pc'.at) == None)
         || (at.LaneTry? && op.l == Lane(at.i) && StageSession(pc'.at) == Some(at.e) && StageLane(pc'.at) == Some(at.i))
  {
  }

  lemma DropsWhatItHolds(s: State, p: Proc, op: Op, pc': Pc)
    requires p in s.procs && Move(s, p, op, pc') && op.Drop?
    ensures Holds(s.procs[p], op.l)
    ensures forall l :: Holds(pc', l) <==> Holds(s.procs[p], l) && l != op.l
    ensures PinOf(pc') == PinOf(s.procs[p])
  {
    hide ChatMove;
    if s.procs[p].Chat? {
      ChatDrops(s, p, s.procs[p].c, s.procs[p].at, op, pc');
    }
  }

  lemma ChatDrops(s: State, p: Proc, c: Call, at: Stage, op: Op, pc': Pc)
    requires ChatMove(s, p, c, at, op, pc') && op.Drop?
    ensures pc'.Chat? && pc'.c == c && StagePin(pc'.at) == StagePin(at)
    ensures (StageSession(at) == Some(at.e) && StageLane(at) == None && op.l == Sess(at.e)
             && StageSession(pc'.at) == None && StageLane(pc'.at) == None)
         || (at.LaneLeave? && op.l == Lane(at.i) && StageSession(pc'.at) == Some(at.e) && StageLane(pc'.at) == None)
  {
  }

  lemma ChatKeepsLocks(s: State, p: Proc, c: Call, at: Stage, op: Op, pc': Pc)
    requires ChatMove(s, p, c, at, op, pc') && !op.Take? && !op.Drop?
    ensures SameLocks(Chat(c, at), pc')
  {
    match at
    case Lookup =>
    case _ =>
  }

  lemma OtherMovesKeepLocks(s: State, p: Proc, op: Op, pc': Pc)
    requires p in s.procs && Move(s, p, op, pc') && !op.Take? && !op.Drop?
    ensures SameLocks(s.procs[p], pc')
  {
    hide ChatMove;
    if s.procs[p].Chat? {
      ChatKeepsLocks(s, p, s.procs[p].c, s.procs[p].at, op, pc');
    }
  }

  /** A process pins an entry when it enters the table, and unpins the entry it
      pinned once it no longer owns its lock. */
  lemma PinDiscipline(s: State, p: Proc, op: Op, pc': Pc)
    requires p in s.procs && Move(s, p, op, pc') && !op.Take? && !op.Drop?
    ensures op.Pin? ==> PinOf(s.procs[p]) == None && PinOf(pc') == Some(op.h) && op.h in s.table.recs
    ensures op.Make? ==> PinOf(s.procs[p]) == None && PinOf(pc') == Some(op.h) && op.h !in s.table.recs
                         && Find(s.table, s.table.list, op.id).None?
    ensures op.Unpin? ==> PinOf(s.procs[p]) == Some(op.h) && PinOf(pc') == None && SessionOf(s.procs[p]) == None
    ensures !op.Pin? && !op.Make? && !op.Unpin? ==> PinOf(pc') == PinOf(s.procs[p])
  {
    if s.procs[p].Chat? {
      ChatPins(s, p, s.procs[p].c, s.procs[p].at, op, pc');
    }
  }

  lemma ChatPins(s: State, p: Proc, c: Call, at: Stage, op: Op, pc': Pc)
    requires ChatMove(s, p, c, at, op, pc') && !op.Take? && !op.Drop?
    ensures op.Pin? ==> StagePin(at) == None && PinOf(pc') == Some(op.h) && op.h in s.table.recs
    ensures op.Make? ==> StagePin(at) == None && PinOf(pc') == Some(op.h) && op.h !in s.table.recs
                         && Find(s.table, s.table.list, op.id).None?
    ensures op.Unpin? ==> StagePin(at) == Some(op.h) && PinOf(pc') == None && StageSession(at) == None
    ensures !op.Pin? && !op.Make? && !op.Unpin? ==> PinOf(pc') == StagePin(at)
  {
    match at
    case Lookup =>
    case _ =>
  }

  lemma TaskDiscipline(s: State, p: Proc, op: Op, pc': Pc)
    requires p in s.procs && Move(s, p, op, pc')
    ensures op.TaskUp? ==> !HasTask(s.procs[p]) && HasTask(pc')
    ensures op.TaskDown? ==> HasTask(s.procs[p]) && !HasTask(pc')
    ensures !op.TaskUp? && !op.TaskDown? ==> HasTask(pc') == HasTask(s.procs[p])
  {
    if s.procs[p].Chat? {
      ChatTasks(s, p, s.procs[p].c, s.procs[p].at, op, pc');
    }
  }

  lemma ChatTasks(s: State, p: Proc, c: Call, at: Stage, op: Op, pc': Pc)
    requires ChatMove(s, p, c, at, op, pc')
    ensures op.TaskUp? ==> !StageTask(at) && HasTask(pc')
    ensures op.TaskDown? ==> StageTask(at) && !HasTask(pc')
    ensures !op.TaskUp? && !op.TaskDown? ==> HasTask(pc') == StageTask(at)
  {
    match at
    case Lookup =>
    case _ =>
  }
}
