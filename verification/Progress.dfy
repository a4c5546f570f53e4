/**
 The progress record of a discussion task: what `lane_wait_progress`,
 `im_run_status` and `chat_progress` of cognitive_os_agent.c publish, and why the
 counters in it add up over the role invocations.
 */
module Progress {
  import opened Options

  datatype Counter = LlmCalls | ModelCall | ModelFailures | ToolCalls | TokensIn | TokensOut | LlmMs | ToolMs
    | ElapsedMs | Round | AppliedUpdates

  const COUNTERS: seq<Counter> := [LlmCalls, ModelCall, ModelFailures, ToolCalls, TokensIn, TokensOut, LlmMs, ToolMs,
                                   ElapsedMs, Round, AppliedUpdates]

  /** The members of a progress object; `Extra` is any member not named here. */
  datatype Key = Count(c: Counter) | ImSessionId | ImStatus | DiscussionRound | DiscussionRounds | Agent | Reason
    | Stage | Activity | UsageAvailable | TaskIdKey | RunIdKey | SessionIdKey | Extra(name: string)

  datatype Json = Num(n: real) | Str(s: string) | Bool(b: bool) | Other

  /** A parsed JSON object. */
  type Object = map<Key, Json>

  const GROUP_KEYS: seq<Key> := [ImSessionId, ImStatus, DiscussionRound, DiscussionRounds, Agent, Reason]

  // ----- what each update publishes -----

  function Parsed(saved: Option<Object>): Object {
    if saved.Some? then saved.value else map[]
  }

  function Waited(saved: Option<Object>, activity: string): Object {
    Parsed(saved)[Stage := Str("waiting_for_executor")][Activity := Str(activity)]
  }

  datatype StatusUpdate = StatusUpdate(room: real, status: string, agent: Option<string>, round: real, rounds: real,
                                       reason: Option<string>)

  /** A "queued" status is not published over the status of a run that has begun, as
      far as the copy shows. */
  predicate Skipped(saved: Option<Object>, u: StatusUpdate) {
    u.status == "queued" && saved.Some? && ImStatus in saved.value
  }

  function Reported(saved: Option<Object>, u: StatusUpdate): Object {
    var o := Parsed(saved) - {ImSessionId, ImStatus, DiscussionRound, DiscussionRounds, Agent, Reason, Stage};
    var p := o[ImSessionId := Num(u.room)][ImStatus := Str(u.status)][DiscussionRound := Num(u.round)]
              [DiscussionRounds := Num(u.rounds)][Stage := Str(if u.status == "done" then "completed" else u.status)];
    var q := if u.agent.Some? then p[Agent := Str(u.agent.value)] else p;
    if u.reason.Some? then q[Reason := Str(u.reason.value)] else q
  }

  /** The number under a key, if there is one. */
  function Number(o: Object, k: Key): Option<real> {
    if k in o && o[k].Num? then Some(o[k].n) else None
  }

  /** The preceding roles' count is added to a report's count when both are numbers. */
  function AddPrior(o: Object, prior: Object, c: Counter): Object {
    var v, p := Number(o, Count(c)), Number(prior, Count(c));
    if v.Some? && p.Some? then o[Count(c) := Num(v.value + p.value)] else o
  }

  function AddPriors(o: Object, prior: Object, cs: seq<Counter>): Object {
    if cs == [] then o else AddPrior(AddPriors(o, prior, cs[..|cs| - 1]), prior, cs[|cs| - 1])
  }

  /** The group's own members are taken over from the record being replaced. */
  function KeepGroup(o: Object, saved: Object, ks: seq<Key>): Object {
    if ks == [] then o
    else
      var p, k := KeepGroup(o, saved, ks[..|ks| - 1]), ks[|ks| - 1];
      if k in saved then p[k := saved[k]] else p
  }

  /** Adding a member that is there already leaves the first one in force. */
  function AddMember(o: Object, k: Key, v: Json): Object {
    if k in o then o else o[k := v]
  }

  function Chatted(saved: Option<Object>, prior: Option<Object>, report: Object, task: real, session: string): Object {
    var used := Used(report, prior);
    var grouped := KeepGroup(used, Parsed(saved), GROUP_KEYS);
    AddMember(AddMember(AddMember(grouped, TaskIdKey, Num(task)), RunIdKey, Num(task)), SessionIdKey, Str(session))
  }

  // ----- what the records say, member by member -----

  function Member(o: Object, k: Key): Option<Json> {
    if k in o then Some(o[k]) else None
  }

  function Given(s: Option<string>): Option<Json> {
    if s.Some? then Some(Str(s.value)) else None
  }

  ghost predicate WaitSays(o: Object, was: Object, activity: string) {
    && Member(o, Stage) == Some(Str("waiting_for_executor"))
    && Member(o, Activity) == Some(Str(activity))
    && forall k :: k != Stage && k != Activity ==> Member(o, k) == Member(was, k)
  }

  ghost predicate StatusSays(o: Object, was: Object, u: StatusUpdate) {
    && Member(o, ImSessionId) == Some(Num(u.room))
    && Member(o, ImStatus) == Some(Str(u.status))
    && Member(o, DiscussionRound) == Some(Num(u.round))
    && Member(o, DiscussionRounds) == Some(Num(u.rounds))
    && Member(o, Agent) == Given(u.agent)
    && Member(o, Reason) == Given(u.reason)
    && Member(o, Stage) == Some(Str(if u.status == "done" then "completed" else u.status))
    && forall k :: !IsGroupKey(k) && k != Stage ==> Member(o, k) == Member(was, k)
  }

  predicate IsGroupKey(k: Key) {
    k.ImSessionId? || k.ImStatus? || k.DiscussionRound? || k.DiscussionRounds? || k.Agent? || k.Reason?
  }

  ghost predicate ChatSays(o: Object, was: Object, prior: Object, report: Object, task: real, session: string) {
    GroupSays(o, was, report) && CountersSay(o, prior, report) && RestSays(o, prior, report, task, session)
  }

  /** The group's members are those of the record replaced. */
  ghost predicate GroupSays(o: Object, was: Object, report: Object) {
    forall k :: IsGroupKey(k) ==> Member(o, k) == if k in was then Member(was, k) else Member(report, k)
  }

  /** Each counter is the sum of the report's and the prior's. */
  ghost predicate CountersSay(o: Object, prior: Object, report: Object) {
    forall c :: Member(o, Count(c)) == if Number(report, Count(c)).Some? && Number(prior, Count(c)).Some?
                                       then Some(Num(Number(report, Count(c)).value + Number(prior, Count(c)).value))
                                       else Member(report, Count(c))
  }

  /** Usage once available stays so, ids are added, and the rest is the report's. */
  ghost predicate RestSays(o: Object, prior: Object, report: Object, task: real, session: string) {
    && Member(o, UsageAvailable) == (if Member(prior, UsageAvailable) == Some(Bool(true)) then Some(Bool(true))
                                     else Member(report, UsageAvailable))
    && Member(o, TaskIdKey) == (if TaskIdKey in report then Member(report, TaskIdKey) else Some(Num(task)))
    && Member(o, RunIdKey) == (if RunIdKey in report then Member(report, RunIdKey) else Some(Num(task)))
    && Member(o, SessionIdKey) == (if SessionIdKey in report then Member(report, SessionIdKey) else Some(Str(session)))
    && Member(o, Stage) == Member(report, Stage) && Member(o, Activity) == Member(report, Activity)
    && forall name :: Member(o, Extra(name)) == Member(report, Extra(name))
  }

  lemma WaitedSays(saved: Option<Object>, activity: string)
    ensures WaitSays(Waited(saved, activity), Parsed(saved), activity)
  {
  }

  lemma ReportedSays(saved: Option<Object>, u: StatusUpdate)
    ensures StatusSays(Reported(saved, u), Parsed(saved), u)
  {
  }

  lemma {:induction false} KeptMember(o: Object, saved: Object, ks: seq<Key>, k: Key)
    ensures Member(KeepGroup(o, saved, ks), k) == if k in ks && k in saved then Member(saved, k) else Member(o, k)
  {
    if ks != [] {
      var n := |ks| - 1;
      KeptMember(o, saved, ks[..n], k);
      assert ks == ks[..n] + [ks[n]];
    }
  }

  lemma {:induction false} PriorsLeave(o: Object, prior: Object, cs: seq<Counter>, k: Key)
    requires !k.Count?
    ensures Member(AddPriors(o, prior, cs), k) == Member(o, k)
  {
    if cs != [] {
      PriorsLeave(o, prior, cs[..|cs| - 1], k);
    }
  }

  lemma {:induction false} PriorsAdd(o: Object, prior: Object, cs: seq<Counter>, c: Counter)
    requires forall i, j :: 0 <= i < j < |cs| ==> cs[i] != cs[j]
    ensures Member(AddPriors(o, prior, cs), Count(c)) == Member(if c in cs then AddPrior(o, prior, c) else o, Count(c))
  {
    hide AddPrior;
    if cs != [] {
      var n := |cs| - 1;
      PriorsAdd(o, prior, cs[..n], c);
      assert cs == cs[..n] + [cs[n]];
      PriorAdds(AddPriors(o, prior, cs[..n]), o, prior, cs[n], c);
    }
  }

  lemma PriorAdds(p: Object, o: Object, prior: Object, last: Counter, c: Counter)
    ensures last != c ==> Member(AddPrior(p, prior, last), Count(c)) == Member(p, Count(c))
    ensures Member(p, Count(c)) == Member(o, Count(c)) ==>
      Member(AddPrior(p, prior, c), Count(c)) == Member(AddPrior(o, prior, c), Count(c))
  {
  }

  lemma GroupKeysListed(k: Key)
    ensures k in GROUP_KEYS <==> IsGroupKey(k)
  {
  }

  /** The member of a chat record under any key, from those of what it is made of. */
  function ChatMember(was: Object, prior: Object, report: Object, task: real, session: string, k: Key): Option<Json> {
    if IsGroupKey(k) && k in was then Member(was, k)
    else if k.Count? then Member(AddPrior(report, prior, k.c), k)
    else if k.UsageAvailable? && Member(prior, k) == Some(Bool(true)) then Some(Bool(true))
    else if k in report then Member(report, k)
    else if k.TaskIdKey? || k.RunIdKey? then Some(Num(task))
    else if k.SessionIdKey? then Some(Str(session))
    else None
  }

  function Used(report: Object, prior: Option<Object>): Object {
    var counted := AddPriors(report, Parsed(prior), COUNTERS);
    if prior.Some? && UsageAvailable in prior.value && prior.value[UsageAvailable] == Bool(true)
    then counted[UsageAvailable := Bool(true)] else counted
  }

  lemma UsedMember(report: Object, prior: Option<Object>, k: Key)
    ensures Member(Used(report, prior), k)
         == if k.Count? then Member(AddPrior(report, Parsed(prior), k.c), k)
            else if k.UsageAvailable? && Member(Parsed(prior), k) == Some(Bool(true)) then Some(Bool(true))
            else Member(report, k)
  {
    hide AddPriors, AddPrior;
    if k.Count? {
      CounterIsListed(k.c);
      PriorsAdd(report, Parsed(prior), COUNTERS, k.c);
    } else {
      PriorsLeave(report, Parsed(prior), COUNTERS, k);
    }
  }

  lemma NamedMember(o: Object, task: real, session: string, k: Key)
    ensures Member(AddMember(AddMember(AddMember(o, TaskIdKey, Num(task)), RunIdKey, Num(task)), SessionIdKey, Str(session)), k)
         == if k in o then Member(o, k)
            else if k.TaskIdKey? || k.RunIdKey? then Some(Num(task))
            else if k.SessionIdKey? then Some(Str(session))
            else None
  {
  }

  lemma ChattedMember(saved: Option<Object>, prior: Option<Object>, report: Object, task: real, session: string, k: Key)
    ensures Member(Chatted(saved, prior, report, task, session), k)
         == ChatMember(Parsed(saved), Parsed(prior), report, task, session, k)
  {
    GroupKeysListed(k);
    hide AddPriors, KeepGroup, AddPrior, AddMember, IsGroupKey;
    var kept := KeepGroup(Used(report, prior), Parsed(saved), GROUP_KEYS);
    KeptMember(Used(report, prior), Parsed(saved), GROUP_KEYS, k);
    UsedMember(report, prior, k);
    NamedMember(kept, task, session, k);
  }

  lemma ChattedSays(saved: Option<Object>, prior: Option<Object>, report: Object, task: real, session: string)
    ensures ChatSays(Chatted(saved, prior, report, task, session), Parsed(saved), Parsed(prior), report, task, session)
  {
    hide Chatted, Parsed, GroupSays, CountersSay, RestSays, ChatMember;
    forall k ensures Member(Chatted(saved, prior, report, task, session), k)
                  == ChatMember(Parsed(saved), Parsed(prior), report, task, session, k)
    {
      ChattedMember(saved, prior, report, task, session, k);
    }
    var o := Chatted(saved, prior, report, task, session);
    GroupMembersSay(o, Parsed(saved), Parsed(prior), report, task, session);
    CounterMembersSay(o, Parsed(saved), Parsed(prior), report, task, session);
    RestMembersSay(o, Parsed(saved), Parsed(prior), report, task, session);
  }

  lemma GroupMembersSay(o: Object, was: Object, prior: Object, report: Object, task: real, session: string)
    requires forall k :: Member(o, k) == ChatMember(was, prior, report, task, session, k)
    ensures GroupSays(o, was, report)
  {
    hide AddPrior;
  }

  lemma CounterMembersSay(o: Object, was: Object, prior: Object, report: Object, task: real, session: string)
    requires forall k :: Member(o, k) == ChatMember(was, prior, report, task, session, k)
    ensures CountersSay(o, prior, report)
  {
    hide AddPrior, Number;
    forall c ensures Member(o, Count(c)) == Member(AddPrior(report, prior, c), Count(c)) {
      assert Member(o, Count(c)) == ChatMember(was, prior, report, task, session, Count(c));
    }
    forall c ensures Member(AddPrior(report, prior, c), Count(c))
                  == if Number(report, Count(c)).Some? && Number(prior, Count(c)).Some?
                     then Some(Num(Number(report, Count(c)).value + Number(prior, Count(c)).value))
                     else Member(report, Count(c))
    {
      SumMember(report, prior, c);
    }
  }

  lemma RestMembersSay(o: Object, was: Object, prior: Object, report: Object, task: real, session: string)
    requires forall k :: Member(o, k) == ChatMember(was, prior, report, task, session, k)
    ensures RestSays(o, prior, report, task, session)
  {
    hide AddPrior;
  }

  lemma SumMember(report: Object, prior: Object, c: Counter)
    ensures Member(AddPrior(report, prior, c), Count(c))
         == if Number(report, Count(c)).Some? && Number(prior, Count(c)).Some?
            then Some(Num(Number(report, Count(c)).value + Number(prior, Count(c)).value))
            else Member(report, Count(c))
  {
  }

  lemma CounterIsListed(c: Counter)
    ensures c in COUNTERS
  {
    match c
    case LlmCalls => assert COUNTERS[0] == c;
    case ModelCall => assert COUNTERS[1] == c;
    case ModelFailures => assert COUNTERS[2] == c;
    case ToolCalls => assert COUNTERS[3] == c;
    case TokensIn => assert COUNTERS[4] == c;
    case TokensOut => assert COUNTERS[5] == c;
    case LlmMs => assert COUNTERS[6] == c;
    case ToolMs => assert COUNTERS[7] == c;
    case ElapsedMs => assert COUNTERS[8] == c;
    case Round => assert COUNTERS[9] == c;
    case AppliedUpdates => assert COUNTERS[10] == c;
  }

  /** The task's progress record and the binding of the role invocation under way. */
  class TaskProgress {
    var progress: Option<Object>
    var prior: Option<Object>
    const id: real
    const session: string

    constructor (id: real, session: string)
      ensures progress == None && prior == None && this.id == id && this.session == session
    {
      this.id := id;
      this.session := session;
      progress := None;
      prior := None;
    }

    /** task_progress_copy. */
    method Copy() returns (saved: Option<Object>)
      ensures saved == progress
    {
      return progress;
    }

    /** What lane_wait_progress publishes, from the copy it has taken. */
    method LaneWaitProgress(saved: Option<Object>, activity: string)
      modifies this`progress
      ensures progress == Some(Waited(saved, activity)) && WaitSays(progress.value, Parsed(saved), activity)
    {
      WaitedSays(saved, activity);
      var o := if saved.Some? then saved.value else map[];
      o := o - {Stage} - {Activity};
      o := o[Stage := Str("waiting_for_executor")];
      o := o[Activity := Str(activity)];
      assert o == Waited(saved, activity);
      progress := Some(o);
    }

    /** What im_run_status publishes, from the copy it has taken. */
    method ImRunStatus(saved: Option<Object>, u: StatusUpdate)
      modifies this`progress
      ensures progress == if Skipped(saved, u) then old(progress) else Some(Reported(saved, u))
      ensures if u.status == "queued" && saved.Some? && ImStatus in saved.value then progress == old(progress)
              else progress.Some? && StatusSays(progress.value, Parsed(saved), u)
    {
      ReportedSays(saved, u);
      if u.status == "queued" && saved.Some? && ImStatus in saved.value {
        return;
      }
      var o := if saved.Some? then saved.value else map[];
      o := o - {ImSessionId, ImStatus, DiscussionRound, DiscussionRounds, Agent, Reason, Stage};
      o := o[ImSessionId := Num(u.room)];
      o := o[ImStatus := Str(u.status)];
      o := o[DiscussionRound := Num(u.round)];
      o := o[DiscussionRounds := Num(u.rounds)];
      o := o[Stage := Str(if u.status == "done" then "completed" else u.status)];
      if u.agent.Some? {
        o := o[Agent := Str(u.agent.value)];
      }
      if u.reason.Some? {
        o := o[Reason := Str(u.reason.value)];
      }
      progress := Some(o);
    }

    /** What chat_progress publishes, from the copy it has taken for the group's members. */
    method ChatProgress(saved: Option<Object>, report: Object)
      modifies this`progress
      ensures progress == Some(Chatted(saved, prior, report, id, session))
      ensures ChatSays(progress.value, Parsed(saved), Parsed(prior), report, id, session)
    {
      ChattedSays(saved, prior, report, id, session);
      var o := AddCounters(report, COUNTERS);
      if prior.Some? && UsageAvailable in prior.value && prior.value[UsageAvailable] == Bool(true) {
        o := o[UsageAvailable := Bool(true)];
      }
      o := KeepMembers(o, saved, GROUP_KEYS);
      o := AddMember(o, TaskIdKey, Num(id));
      o := AddMember(o, RunIdKey, Num(id));
      o := AddMember(o, SessionIdKey, Str(session));
      progress := Some(o);
    }

    /** chat_lane_run, once it holds a lane: the snapshot of the preceding roles. */
    method BeginRole()
      modifies this`prior
      ensures prior == old(progress)
    {
      prior := Copy();
    }

    /** A role with its reports, when nobody else publishes: each counter grows by what the
        last report says. */
    method RunRole(reports: seq<Object>)
      modifies this`progress, this`prior
      ensures reports == [] ==> progress == old(progress)
      ensures reports != [] ==> forall c :: Number(reports[|reports| - 1], Count(c)).Some? ==>
        Published(progress, c) == Published(old(progress), c) + Number(reports[|reports| - 1], Count(c)).value
    {
      hide Chatted;
      BeginRole();
      var i := 0;
      while i < |reports|
        invariant i <= |reports| && prior == old(progress)
        invariant i == 0 ==> progress == old(progress)
        invariant i > 0 ==> forall c :: Number(reports[i - 1], Count(c)).Some? ==>
          Published(progress, c) == Published(old(progress), c) + Number(reports[i - 1], Count(c)).value
      {
        var saved := Copy();
        ChatProgress(saved, reports[i]);
        forall c | Number(reports[i], Count(c)).Some?
          ensures Published(progress, c) == Published(old(progress), c) + Number(reports[i], Count(c)).value
        {
          ChattedAt(saved, prior, reports[i], id, session, c);
        }
        i := i + 1;
      }
    }

    /** The loop that adds the counts of the preceding roles. */
    method AddCounters(report: Object, counters: seq<Counter>) returns (o: Object)
      ensures o == AddPriors(report, Parsed(prior), counters)
    {
      o := report;
      var i := 0;
      while i < |counters|
        invariant i <= |counters| && o == AddPriors(report, Parsed(prior), counters[..i])
      {
        assert counters[..i + 1][..i] == counters[..i];
        var k := Count(counters[i]);
        if k in o && o[k].Num? && prior.Some? && k in prior.value && prior.value[k].Num? {
          o := o[k := Num(o[k].n + prior.value[k].n)];
        }
        i := i + 1;
      }
      assert counters[..i] == counters;
    }

    /** The loop that takes over the group's own members. */
    method KeepMembers(report: Object, saved: Option<Object>, keys: seq<Key>) returns (o: Object)
      ensures o == KeepGroup(report, Parsed(saved), keys)
    {
      o := report;
      var i := 0;
      while i < |keys|
        invariant i <= |keys| && o == KeepGroup(report, Parsed(saved), keys[..i])
      {
        assert keys[..i + 1][..i] == keys[..i];
        if saved.Some? && keys[i] in saved.value {
          o := o[keys[i] := saved.value[keys[i]]];
        }
        i := i + 1;
      }
      assert keys[..i] == keys;
    }
  }

  // ----- a discussion as a sequence of copies and publications -----

  type Writer = nat

  /** A copy and the publication made from it are two steps, and other writers may come in
      between: the dispatcher reports "queued" while the worker may already run. */
  datatype Event =
    | Copied(w: Writer)
    | Status(w: Writer, u: StatusUpdate)
    | Wait(w: Writer, activity: string)
    | Begin
    | Report(w: Writer, o: Object)

  datatype Record = Record(progress: Option<Object>, prior: Option<Object>, copies: map<Writer, Option<Object>>)

  function CopyOf(r: Record, w: Writer): Option<Object> {
    if w in r.copies then r.copies[w] else None
  }

  function Update(r: Record, e: Event, task: real, session: string): Record {
    match e
    case Copied(w) => r.(copies := r.copies[w := r.progress])
    case Status(w, u) => if Skipped(CopyOf(r, w), u) then r else r.(progress := Some(Reported(CopyOf(r, w), u)))
    case Wait(w, activity) => r.(progress := Some(Waited(CopyOf(r, w), activity)))
    case Begin => r.(prior := r.progress)
    case Report(w, o) => r.(progress := Some(Chatted(CopyOf(r, w), r.prior, o, task, session)))
  }

  function After(es: seq<Event>, task: real, session: string): Record {
    if es == [] then Record(None, None, map[]) else Update(After(es[..|es| - 1], task, session), es[|es| - 1], task, session)
  }

  /** The published value of a counter, 0 before it is first published. */
  function Published(o: Option<Object>, c: Counter): real {
    match Number(Parsed(o), Count(c))
    case Some(n) => n
    case None => 0.0
  }

  /** The sum of the earlier invocations' final reports. */
  function Finished(es: seq<Event>, c: Counter): real {
    if es == [] then 0.0
    else
      var before := es[..|es| - 1];
      if es[|es| - 1].Begin? then Finished(before, c) + Latest(before, c) else Finished(before, c)
  }

  /** The current invocation's latest report. */
  function Latest(es: seq<Event>, c: Counter): real {
    if es == [] then 0.0
    else
      match es[|es| - 1]
      case Begin => 0.0
      case Report(_, o) => (match Number(o, Count(c)) case Some(n) => n case None => 0.0)
      case _ => Latest(es[..|es| - 1], c)
  }

  /** What a counter should show. */
  function Due(es: seq<Event>, c: Counter): real {
    Finished(es, c) + Latest(es, c)
  }

  /** How many events came before a writer's latest copy. */
  function CopiedAt(es: seq<Event>, w: Writer): (n: nat)
    ensures n <= |es|
  {
    if es == [] then 0
    else if es[|es| - 1] == Copied(w) then |es| - 1
    else CopiedAt(es[..|es| - 1], w)
  }

  /** The counter is as it should be at every moment. */
  ghost predicate AddsUp(es: seq<Event>, task: real, session: string, c: Counter) {
    forall i :: 0 <= i <= |es| ==> Published(After(es[..i], task, session).progress, c) == Due(es[..i], c)
  }

  /** Publication `i` breaks counter `c`: it is made from a copy that was taken when the
      counter was another, or it is a report that leaves the counter out although earlier
      invocations have counted. */
  ghost predicate Disturbs(es: seq<Event>, i: nat, task: real, session: string, c: Counter)
    requires i < |es|
  {
    match es[i]
    case Status(w, u) =>
      !Skipped(CopyOf(After(es[..i], task, session), w), u) && Due(es[..CopiedAt(es[..i], w)], c) != Due(es[..i], c)
    case Wait(w, _) => Due(es[..CopiedAt(es[..i], w)], c) != Due(es[..i], c)
    case Report(_, o) => Number(o, Count(c)).None? && Finished(es[..i], c) != 0.0
    case _ => false
  }

  lemma ChattedCounts(saved: Option<Object>, prior: Option<Object>, report: Object, task: real, session: string, c: Counter)
    ensures Number(Chatted(saved, prior, report, task, session), Count(c))
         == Number(AddPrior(report, Parsed(prior), c), Count(c))
  {
    hide Chatted, AddPrior;
    ChattedMember(saved, prior, report, task, session, Count(c));
  }

  /** A full report publishes, for each counter, the report's count plus the prior's. */
  lemma ChattedAt(saved: Option<Object>, prior: Option<Object>, report: Object, task: real, session: string, c: Counter)
    requires Number(report, Count(c)).Some?
    ensures Number(Chatted(saved, prior, report, task, session), Count(c))
         == Some(Number(report, Count(c)).value + Published(prior, c))
  {
    ChattedCounts(saved, prior, report, task, session, c);
  }

  lemma StatusKeepsCount(saved: Option<Object>, u: StatusUpdate, c: Counter)
    ensures Published(Some(Reported(saved, u)), c) == Published(saved, c)
  {
    var dropped := {ImSessionId, ImStatus, DiscussionRound, DiscussionRounds, Agent, Reason, Stage};
    assert Count(c) !in dropped;
    assert Number(Parsed(saved) - dropped, Count(c)) == Number(Parsed(saved), Count(c));
  }

  lemma WaitKeepsCount(saved: Option<Object>, activity: string, c: Counter)
    ensures Published(Some(Waited(saved, activity)), c) == Published(saved, c)
  {
  }

  /** What a writer holds is what was published when it took its copy. */
  lemma {:induction false} CopyIsOld(es: seq<Event>, task: real, session: string, w: Writer)
    ensures CopyOf(After(es, task, session), w) == After(es[..CopiedAt(es, w)], task, session).progress
  {
    if es != [] {
      var before := es[..|es| - 1];
      CopyIsOld(before, task, session, w);
      assert es[..CopiedAt(before, w)] == before[..CopiedAt(before, w)];
    }
  }

  /** While the counter adds up, the snapshot holds the finished invocations' sum. */
  lemma {:induction false} PriorIsFinished(es: seq<Event>, task: real, session: string, c: Counter)
    requires AddsUp(es, task, session, c)
    ensures Published(After(es, task, session).prior, c) == Finished(es, c)
  {
    if es != [] {
      var before := es[..|es| - 1];
      AddsUpBefore(es, task, session, c);
      PriorIsFinished(before, task, session, c);
      assert before[..|before|] == before;
    }
  }

  lemma AddsUpBefore(es: seq<Event>, task: real, session: string, c: Counter)
    requires AddsUp(es, task, session, c) && es != []
    ensures AddsUp(es[..|es| - 1], task, session, c)
  {
    var before := es[..|es| - 1];
    forall i | 0 <= i <= |before| ensures Published(After(before[..i], task, session).progress, c) == Due(before[..i], c) {
      assert before[..i] == es[..i];
    }
  }

  /** As long as the counter has added up so far, one more event keeps it so exactly when
      it does not disturb it. */
  lemma OneEvent(es: seq<Event>, e: Event, task: real, session: string, c: Counter)
    requires AddsUp(es, task, session, c)
    ensures Published(After(es + [e], task, session).progress, c) == Due(es + [e], c)
       <==> !Disturbs(es + [e], |es|, task, session, c)
  {
    hide CopiedAt, Chatted, Skipped, Reported;
    var all := es + [e];
    assert all[..|es|] == es && es[..|es|] == es;
    var r := After(es, task, session);
    PriorIsFinished(es, task, session, c);
    match e
    case Status(w, u) =>
      OldCopyCounts(es, task, session, w, c);
      StatusKeepsCount(CopyOf(r, w), u, c);
    case Wait(w, activity) =>
      OldCopyCounts(es, task, session, w, c);
      WaitKeepsCount(CopyOf(r, w), activity, c);
    case Report(w, o) => ChattedCounts(CopyOf(r, w), r.prior, o, task, session, c);
    case _ =>
  }

  lemma OldCopyCounts(es: seq<Event>, task: real, session: string, w: Writer, c: Counter)
    requires AddsUp(es, task, session, c)
    ensures Published(CopyOf(After(es, task, session), w), c) == Due(es[..CopiedAt(es, w)], c)
    ensures forall e: Event :: (es + [e])[..CopiedAt(es, w)] == es[..CopiedAt(es, w)]
  {
    CopyIsOld(es, task, session, w);
  }

  /** Each published counter is always the sum of the earlier invocations' final reports
      and the current one's latest report if and only if nothing is published from a copy
      taken when the counter was another, and no report leaves it out after earlier
      invocations have counted. */
  lemma {:induction false} CountersAddUpExactly(es: seq<Event>, task: real, session: string, c: Counter)
    ensures AddsUp(es, task, session, c) <==> forall i :: 0 <= i < |es| ==> !Disturbs(es, i, task, session, c)
  {
    if es != [] {
      var n := |es| - 1;
      var before := es[..n];
      CountersAddUpExactly(before, task, session, c);
      forall i | 0 <= i < n ensures Disturbs(es, i, task, session, c) == Disturbs(before, i, task, session, c) {
        SameBefore(es, n, i, task, session, c);
      }
      assert es == before + [es[n]];
      if AddsUp(before, task, session, c) {
        OneEvent(before, es[n], task, session, c);
        AddsUpNext(es, task, session, c);
      } else if AddsUp(es, task, session, c) {
        AddsUpBefore(es, task, session, c);
      }
    } else {
      assert es[..0] == [];
    }
  }

  lemma SameBefore(es: seq<Event>, n: nat, i: nat, task: real, session: string, c: Counter)
    requires i < n <= |es|
    ensures Disturbs(es, i, task, session, c) == Disturbs(es[..n], i, task, session, c)
  {
    var before := es[..n];
    assert before[..i] == es[..i] && before[i] == es[i];
    forall w: Writer ensures before[..CopiedAt(es[..i], w)] == es[..CopiedAt(es[..i], w)] {
    }
  }

  lemma AddsUpNext(es: seq<Event>, task: real, session: string, c: Counter)
    requires es != [] && AddsUp(es[..|es| - 1], task, session, c)
    ensures AddsUp(es, task, session, c) <==> Published(After(es, task, session).progress, c) == Due(es, c)
  {
    var before := es[..|es| - 1];
    assert es[..|es|] == es;
    forall i | 0 <= i < |es| ensures Published(After(es[..i], task, session).progress, c) == Due(es[..i], c) {
      assert before[..i] == es[..i];
    }
  }

  /** What a counter should show changes with a report only, so a publication without a
      report since its copy was taken disturbs nothing. */
  lemma {:induction false} DueMovesOnReports(es: seq<Event>, from: nat, c: Counter)
    requires from <= |es| && forall i :: from <= i < |es| ==> !es[i].Report?
    ensures Due(es, c) == Due(es[..from], c)
  {
    if from == |es| {
      assert es[..from] == es;
    } else {
      var before := es[..|es| - 1];
      DueMovesOnReports(before, from, c);
      assert before[..from] == es[..from];
    }
  }

  /** No invocation's own reports go down, and none starts below zero. */
  ghost predicate Rising(es: seq<Event>, c: Counter) {
    forall i :: 0 <= i < |es| && es[i].Report? ==> Latest(es[..i], c) <= Latest(es[..i + 1], c)
  }

  /** Then no published counter that adds up ever goes down. */
  lemma CountersNeverDecrease(es: seq<Event>, task: real, session: string, c: Counter, i: nat)
    requires (forall k :: 0 <= k < |es| ==> !Disturbs(es, k, task, session, c)) && Rising(es, c) && i < |es|
    ensures Published(After(es[..i], task, session).progress, c) <= Published(After(es[..i + 1], task, session).progress, c)
  {
    CountersAddUpExactly(es, task, session, c);
    assert es[..i + 1][..i] == es[..i];
  }

  // ----- the dispatcher comes late -----

  const DISPATCHER: Writer := 0
  const WORKER: Writer := 1

  /** The dispatcher takes its copy before the worker has published anything; the worker
      begins a role, which reports five calls; then "queued" is published. */
  function LateStatus(queued: StatusUpdate, running: StatusUpdate): seq<Event> {
    [Copied(DISPATCHER), Copied(WORKER), Status(WORKER, running), Begin, Copied(WORKER),
     Report(WORKER, map[Count(LlmCalls) := Num(5.0)]), Status(DISPATCHER, queued)]
  }

  lemma UpTo(es: seq<Event>, n: nat, task: real, session: string)
    requires n < |es|
    ensures After(es[..n + 1], task, session) == Update(After(es[..n], task, session), es[n], task, session)
  {
    assert es[..n + 1][..n] == es[..n];
  }

  /** Its copy still shows no status, so it publishes over that of the run, and the five
      calls are gone. */
  lemma LateStatusLosesCounts(queued: StatusUpdate, running: StatusUpdate, task: real, session: string)
    ensures var es := LateStatus(queued, running);
            && Published(After(es[..6], task, session).progress, LlmCalls) == Due(es[..6], LlmCalls) == 5.0
            && Published(After(es, task, session).progress, LlmCalls) == 0.0
            && Due(es, LlmCalls) == 5.0
  {
    LateCounts(queued, running, task, session);
    LatePublishes(queued, running, task, session);
  }

  /** The worker's part adds up. */
  lemma LateCounts(queued: StatusUpdate, running: StatusUpdate, task: real, session: string)
    ensures var es := LateStatus(queued, running);
            && Due(es[..6], LlmCalls) == 5.0 && Due(es, LlmCalls) == 5.0
            && Published(After(es[..6], task, session).progress, LlmCalls) == 5.0
  {
    var es := LateStatus(queued, running);
    var c := LlmCalls;
    NoReportsYet(es, c);
    assert es[..7] == es && es[..7][..6] == es[..6] && es[..6][..5] == es[..5];
    assert Latest(es[..6], c) == 5.0 && Finished(es[..6], c) == Finished(es[..5], c);
    UpTo(es, 5, task, session);
    var r := After(es[..5], task, session);
    assert Due(es, c) == Due(es[..6], c);
    PriorHasNone(es, task, session);
    ChattedCounts(CopyOf(r, WORKER), r.prior, map[Count(c) := Num(5.0)], task, session, c);
  }

  lemma NoReportsYet(es: seq<Event>, c: Counter)
    requires |es| > 5 && forall i :: 0 <= i < 5 ==> !es[i].Report?
    ensures Finished(es[..5], c) == 0.0
  {
    forall n | 0 <= n <= 5 ensures Due(es[..n], c) == 0.0 {
      DueMovesOnReports(es[..n], 0, c);
    }
    FinishedIsZero(es[..5], c);
  }

  lemma {:induction false} FinishedIsZero(es: seq<Event>, c: Counter)
    requires forall i :: 0 <= i < |es| ==> !es[i].Report?
    ensures Finished(es, c) == 0.0 && Latest(es, c) == 0.0
  {
    if es != [] {
      FinishedIsZero(es[..|es| - 1], c);
    }
  }

  lemma PriorHasNone(es: seq<Event>, task: real, session: string)
    requires |es| > 5 && es[3] == Begin && es[4] == Copied(WORKER) && forall i :: 0 <= i < 5 ==> !es[i].Report?
    ensures Published(After(es[..5], task, session).prior, LlmCalls) == 0.0
  {
    NothingCounted(es[..3], task, session);
    UpTo(es, 3, task, session);
    UpTo(es, 4, task, session);
  }

  lemma {:induction false} NothingCounted(es: seq<Event>, task: real, session: string)
    requires forall i :: 0 <= i < |es| ==> !es[i].Report?
    ensures Published(After(es, task, session).progress, LlmCalls) == 0.0
    ensures forall w :: Published(CopyOf(After(es, task, session), w), LlmCalls) == 0.0
  {
    if es != [] {
      var r := After(es[..|es| - 1], task, session);
      NothingCounted(es[..|es| - 1], task, session);
      var t := After(es, task, session);
      assert forall w :: CopyOf(t, w) == if es[|es| - 1] == Copied(w) then r.progress else CopyOf(r, w);
      match es[|es| - 1]
      case Status(w, u) => StatusKeepsCount(CopyOf(r, w), u, LlmCalls);
      case Wait(w, activity) => WaitKeepsCount(CopyOf(r, w), activity, LlmCalls);
      case _ =>
    }
  }

  /** The dispatcher's publication, from its copy of nothing. */
  lemma LatePublishes(queued: StatusUpdate, running: StatusUpdate, task: real, session: string)
    ensures Published(After(LateStatus(queued, running), task, session).progress, LlmCalls) == 0.0
  {
    var es := LateStatus(queued, running);
    assert es[..6][..0] == [];
    assert CopiedAt(es[..6], DISPATCHER) == 0 by { NotCopiedSince(es[..6], DISPATCHER); }
    CopyIsOld(es[..6], task, session, DISPATCHER);
    UpTo(es, 6, task, session);
    assert es[..7] == es;
    StatusKeepsCount(None, queued, LlmCalls);
  }

  lemma {:induction false} NotCopiedSince(es: seq<Event>, w: Writer)
    requires |es| > 0 && es[0] == Copied(w) && forall i :: 0 < i < |es| ==> es[i] != Copied(w)
    ensures CopiedAt(es, w) == 0
  {
    if |es| > 1 {
      NotCopiedSince(es[..|es| - 1], w);
    }
  }
}
