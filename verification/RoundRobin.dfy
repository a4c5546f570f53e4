/**
 The bounded round-robin discussion of `im_run_round`, from the point where the
 room lock is held to the point where it is released.

 Everything the loops cannot decide themselves comes from `World`: whether the task
 has been aborted, whether the trigger is still current, what a model call answers
 and whether a reply is stored.  The methods of `World` choose freely, with one
 exception: an abort is never taken back.  What they choose is on record, and the
 contracts say what the discussion makes of it.
 */
module RoundRobin {
  import opened Texts
  import opened Options

  const DEFAULT_ROUNDS: int := 3
  const MAX_ROUNDS: int := 5
  const MAX_MEMBERS: int := 64
  const MARKER := "[[DISCUSSION_DONE]]"

  datatype Status = Done | Failed | Cancelled | Timeout

  datatype Reason = RoundLimit | Consensus | RoomUnavailable | AgentUnavailable | NewMessage | RoomDeleted
    | AllocationFailed | CancelledInCall | AgentFailed | PublishFailed

  datatype Session = Session(members: seq<Option<string>>, rounds: int)

  /** One role invocation: who was called, the answer if it was taken up, whether that
      was a vote to end the discussion, and whether a reply was stored. */
  datatype Call = Call(name: string, said: Option<string>, vote: bool, published: bool)

  /** What im_run_round reports, and the calls it made, pass by pass. */
  datatype Report = Report(status: Status, reason: Reason, round: int, rounds: int, replied: int, rc: int,
                           passes: seq<seq<Call>>)

  /** What the world tells the task: the transcript check, whether the prompt could be made,
      what a member answers, what became of a reply, whether a member is known, and whether
      the task is to abort. */
  datatype Word = Transcript(code: int) | Prompt(made: bool) | Answered(name: string, rc: int, reply: Option<string>)
    | Sent(name: string, text: string, id: int) | Listed(name: string, known: bool) | Abort(told: bool)

  class World {
    var cancelled: bool
    var expired: bool
    ghost var log: seq<Word>                 // all that has been told
    ghost var posted: seq<(string, string)>  // the replies this run has stored: author and text

    /** task_should_abort: others may cancel, and the deadline may pass, at any time. */
    method ShouldAbort() returns (b: bool)
      modifies this`cancelled, this`expired, this`log
      ensures b == (cancelled || expired) && log == old(log) + [Abort(b)]
      ensures old(cancelled) ==> cancelled
      ensures old(expired) ==> expired
    {
      if * {
        cancelled := true;
      }
      if * {
        expired := true;
      }
      b := cancelled || expired;
      log := log + [Abort(b)];
    }

    /** im_discussion_transcript: any of its results. */
    method Check() returns (code: int)
      modifies this`log
      ensures log == old(log) + [Transcript(code)]
    {
      code := *;
      log := log + [Transcript(code)];
    }

    /** Whether memory for the prompt could be had. */
    method MakePrompt() returns (made: bool)
      modifies this`log
      ensures log == old(log) + [Prompt(made)]
    {
      made := *;
      log := log + [Prompt(made)];
    }

    /** agent_pool_find. */
    method IsKnown(name: string) returns (known: bool)
      modifies this`log
      ensures log == old(log) + [Listed(name, known)]
    {
      known := *;
      log := log + [Listed(name, known)];
    }

    /** chat_lane_run with the member's prompt. */
    method Ask(name: string) returns (rc: int, reply: Option<string>)
      modifies this`log
      ensures log == old(log) + [Answered(name, rc, reply)]
    {
      rc := *;
      reply := *;
      log := log + [Answered(name, rc, reply)];
    }

    /** im_send_agent_reply: it gives the id of the message stored, or says why none was. */
    method Send(name: string, text: string) returns (id: int)
      modifies this`posted, this`log
      ensures posted == old(posted) + if id > 0 then [(name, text)] else []
      ensures log == old(log) + [Sent(name, text, id)]
    {
      id := *;
      if id > 0 {
        posted := posted + [(name, text)];
      }
      log := log + [Sent(name, text, id)];
    }
  }

  // ----- what is told, sorted -----

  const OVERTAKEN: int := -2

  /** The call gave no text. */
  predicate NoAnswer(rc: int, text: Option<string>) {
    rc != 0 || text.None? || text.value == ""
  }

  /** What makes the discussion fail. */
  predicate Failure(w: Word) {
    match w
    case Prompt(made) => !made
    case Answered(_, rc, text) => NoAnswer(rc, text)
    case Sent(_, _, id) => id <= 0 && id != OVERTAKEN
    case Listed(_, known) => !known
    case _ => false
  }

  /** What makes it give way. */
  predicate GivesWay(w: Word) {
    (w.Transcript? && w.code != 0) || (w.Sent? && w.id == OVERTAKEN)
  }

  predicate NewerMessage(w: Word) {
    (w.Transcript? && w.code == OVERTAKEN) || (w.Sent? && w.id == OVERTAKEN)
  }

  predicate Aborting(w: Word) { w.Abort? && w.told }

  predicate Trouble(w: Word) { Failure(w) || GivesWay(w) || Aborting(w) }

  ghost predicate Any(words: seq<Word>, p: Word -> bool) {
    exists k :: 0 <= k < |words| && p(words[k])
  }

  lemma AnyOfBoth(a: seq<Word>, b: seq<Word>, p: Word -> bool)
    ensures Any(a + b, p) <==> Any(a, p) || Any(b, p)
  {
    if k :| 0 <= k < |a| && p(a[k]) {
      assert p((a + b)[k]);
    }
    if k :| 0 <= k < |b| && p(b[k]) {
      assert p((a + b)[|a| + k]);
    }
    if k :| 0 <= k < |a + b| && p((a + b)[k]) {
      assert if k < |a| then p(a[k]) else p(b[k - |a|]);
    }
  }

  lemma AnyOfOne(w: Word, p: Word -> bool)
    ensures Any([w], p) <==> p(w)
  {
    if p(w) {
      assert p([w][0]);
    }
  }

  /** Words without trouble, one by one. */
  lemma Untroubled(words: seq<Word>)
    requires !Any(words, Trouble)
    ensures !Any(words, Failure) && !Any(words, GivesWay) && !Any(words, Aborting) && !Any(words, NewerMessage)
  {
    forall k | 0 <= k < |words| ensures !Failure(words[k]) && !GivesWay(words[k]) && !Aborting(words[k]) {
      assert !Trouble(words[k]);
    }
  }

  lemma NothingHeard()
    ensures !Any([], Trouble)
  {
  }

  /** After words without trouble, what comes next decides. */
  lemma HearMore(words: seq<Word>, more: seq<Word>)
    requires !Any(words, Trouble)
    ensures Any(words + more, Trouble) <==> Any(more, Trouble)
    ensures Any(words + more, Failure) <==> Any(more, Failure)
    ensures Any(words + more, GivesWay) <==> Any(more, GivesWay)
    ensures Any(words + more, Aborting) <==> Any(more, Aborting)
    ensures Any(words + more, NewerMessage) <==> Any(more, NewerMessage)
  {
    hide Any, Trouble, Failure, GivesWay, Aborting, NewerMessage;
    Untroubled(words);
    AnyOfBoth(words, more, Trouble);
    AnyOfBoth(words, more, Failure);
    AnyOfBoth(words, more, GivesWay);
    AnyOfBoth(words, more, Aborting);
    AnyOfBoth(words, more, NewerMessage);
  }

  lemma HearOne(words: seq<Word>, w: Word)
    requires !Any(words, Trouble)
    ensures Any(words + [w], Trouble) <==> Trouble(w)
    ensures Any(words + [w], Failure) <==> Failure(w)
    ensures Any(words + [w], GivesWay) <==> GivesWay(w)
    ensures Any(words + [w], Aborting) <==> Aborting(w)
    ensures Any(words + [w], NewerMessage) <==> NewerMessage(w)
  {
    hide Any, Trouble, Failure, GivesWay, Aborting, NewerMessage;
    HearMore(words, [w]);
    AnyOfOne(w, Trouble);
    AnyOfOne(w, Failure);
    AnyOfOne(w, GivesWay);
    AnyOfOne(w, Aborting);
    AnyOfOne(w, NewerMessage);
  }

  // ----- the end marker -----

  /** The text without its trailing blanks. */
  function TrimEnd(s: string): string {
    if s != [] && IsWhite(s[|s| - 1]) then TrimEnd(s[..|s| - 1]) else s
  }

  predicate EndsWith(s: string, t: string) {
    |t| <= |s| && s[|s| - |t|..] == t
  }

  predicate Marked(reply: string) { EndsWith(TrimEnd(reply), MARKER) }

  /** What a reply says to the others. */
  function Rest(reply: string): string {
    if Marked(reply) then TrimEnd(TrimEnd(reply)[..|TrimEnd(reply)| - |MARKER|]) else reply
  }

  /** Trimming takes off blanks at the end, all of them and nothing else. */
  lemma {:induction false} TrimEndIs(s: string)
    ensures var t := TrimEnd(s);
            t <= s && (forall k :: |t| <= k < |s| ==> IsWhite(s[k])) && (t != [] ==> !IsWhite(t[|t| - 1]))
  {
    if s != [] && IsWhite(s[|s| - 1]) {
      TrimEndIs(s[..|s| - 1]);
    }
  }

  lemma {:induction false} TrimEndOf(s: string, blanks: string)
    requires forall k :: 0 <= k < |blanks| ==> IsWhite(blanks[k])
    ensures TrimEnd(s + blanks) == TrimEnd(s)
  {
    if blanks == [] {
      assert s + blanks == s;
    } else {
      var n := |blanks| - 1;
      assert (s + blanks)[..|s + blanks| - 1] == s + blanks[..n];
      TrimEndOf(s, blanks[..n]);
    }
  }

  /** A text followed by the marker and any blanks is a vote that says the text, trimmed;
      any other reply says itself. */
  lemma MarkedSays(text: string, blanks: string)
    requires forall k :: 0 <= k < |blanks| ==> IsWhite(blanks[k])
    ensures var reply := text + "[[DISCUSSION_DONE]]" + blanks; Marked(reply) && Rest(reply) == TrimEnd(text)
    ensures !Marked(text) ==> Rest(text) == text
  {
    var s := text + MARKER;
    TrimEndOf(s, blanks);
    assert s[|s| - 1] == ']';
    assert TrimEnd(s) == s;
    assert s[..|s| - |MARKER|] == text && s[|s| - |MARKER|..] == MARKER;
  }

  method TrimmedLength(s: string, from: nat) returns (n: nat)
    requires from <= |s|
    ensures n <= from && s[..n] == TrimEnd(s[..from])
  {
    n := from;
    while n > 0 && IsWhite(s[n - 1])
      invariant n <= from && TrimEnd(s[..n]) == TrimEnd(s[..from])
    {
      assert s[..n][..n - 1] == s[..n - 1];
      n := n - 1;
    }
  }

  /** im_discussion_done: a reply votes to end when, blanks aside, it ends with the
      marker; the marker and the blanks around it are then cut off. */
  method DiscussionDone(reply: string) returns (vote: bool, text: string)
    ensures vote <==> Marked(reply)
    ensures text == Rest(reply)
  {
    var n := TrimmedLength(reply, |reply|);
    assert reply[..|reply|] == reply;
    if n < |MARKER| || reply[n - |MARKER|..n] != MARKER {
      assert n >= |MARKER| ==> reply[..n][n - |MARKER|..] == reply[n - |MARKER|..n];
      return false, reply;
    }
    assert reply[..n][n - |MARKER|..] == reply[n - |MARKER|..n];
    assert reply[..n][..n - |MARKER|] == reply[..n - |MARKER|];
    n := TrimmedLength(reply, n - |MARKER|);
    return true, reply[..n];
  }

  // ----- whom a pass calls -----

  /** The members' names in order, each at its first occurrence only. */
  function Firsts(members: seq<Option<string>>): seq<string> {
    if members == [] then []
    else
      var before, last := Firsts(members[..|members| - 1]), members[|members| - 1];
      if last.Some? && last.value !in before then before + [last.value] else before
  }

  /** Firsts lists every named member and lists it once. */
  lemma {:induction false} FirstsListsEachOnce(members: seq<Option<string>>)
    ensures forall name :: name in Firsts(members) <==> Some(name) in members
    ensures forall i, j :: 0 <= i < j < |Firsts(members)| ==> Firsts(members)[i] != Firsts(members)[j]
    ensures |Firsts(members)| <= |members|
  {
    if members != [] {
      var front, last := members[..|members| - 1], members[|members| - 1];
      FirstsListsEachOnce(front);
      assert members == front + [last];
    }
  }

  lemma FirstsStep(members: seq<Option<string>>, i: nat)
    requires i < |members|
    ensures var before := Firsts(members[..i]);
            Firsts(members[..i + 1])
              == if members[i].Some? && members[i].value !in before then before + [members[i].value] else before
  {
    assert members[..i + 1][..i] == members[..i];
  }

  /** An earlier part of the list gives an earlier part of the names. */
  lemma {:induction false} FirstsOfPrefix(members: seq<Option<string>>, i: nat)
    requires i <= |members|
    ensures Firsts(members[..i]) <= Firsts(members)
    decreases |members| - i
  {
    if i < |members| {
      FirstsStep(members, i);
      FirstsOfPrefix(members, i + 1);
    } else {
      assert members[..i] == members;
    }
  }

  function Names(calls: seq<Call>): (r: seq<string>)
    ensures |r| == |calls|
  {
    if calls == [] then [] else Names(calls[..|calls| - 1]) + [calls[|calls| - 1].name]
  }

  function Votes(calls: seq<Call>): (n: nat)
    ensures n <= |calls|
  {
    if calls == [] then 0 else Votes(calls[..|calls| - 1]) + if calls[|calls| - 1].vote then 1 else 0
  }

  function Stored(calls: seq<Call>): (n: nat)
    ensures n <= |calls|
  {
    if calls == [] then 0 else Stored(calls[..|calls| - 1]) + if calls[|calls| - 1].published then 1 else 0
  }

  /** A vote is an answer taken up that ends with the marker, and a reply is stored only
      of an answer that says more than that. */
  predicate CallOk(c: Call) {
    if c.said.None? then !c.vote && !c.published
    else c.vote == Marked(c.said.value) && (c.published ==> Rest(c.said.value) != "")
  }

  /** Nothing came between the call and its publication. */
  predicate CallWhole(c: Call) {
    c.said.Some? && c.said.value != "" && c.published == (Rest(c.said.value) != "")
  }

  function Post(c: Call): seq<(string, string)> {
    if c.published && c.said.Some? then [(c.name, Rest(c.said.value))] else []
  }

  function Posts(calls: seq<Call>): seq<(string, string)> {
    if calls == [] then [] else Posts(calls[..|calls| - 1]) + Post(calls[|calls| - 1])
  }

  /** As many votes as calls means every call was a vote. */
  lemma {:induction false} AllVoted(calls: seq<Call>)
    ensures Votes(calls) == |calls| <==> forall k :: 0 <= k < |calls| ==> calls[k].vote
  {
    if calls != [] {
      AllVoted(calls[..|calls| - 1]);
    }
  }

  /** The pass called every distinct member exactly once, in order, and nothing came
      between. */
  ghost predicate Complete(pass: seq<Call>, members: seq<Option<string>>) {
    Names(pass) == Firsts(members) && CallsWhole(pass)
  }

  ghost predicate Unanimous(pass: seq<Call>) {
    pass != [] && forall k :: 0 <= k < |pass| ==> pass[k].vote
  }

  /** Complete passes, none of which ended the discussion. */
  ghost predicate AllDull(passes: seq<seq<Call>>, members: seq<Option<string>>) {
    forall p :: 0 <= p < |passes| ==> Complete(passes[p], members) && !Unanimous(passes[p])
  }

  function PostsIn(passes: seq<seq<Call>>): seq<(string, string)> {
    if passes == [] then [] else PostsIn(passes[..|passes| - 1]) + Posts(passes[|passes| - 1])
  }

  function StoredIn(passes: seq<seq<Call>>): nat {
    if passes == [] then 0 else StoredIn(passes[..|passes| - 1]) + Stored(passes[|passes| - 1])
  }

  /** No pass calls anybody twice or out of order. */
  ghost predicate AllPartial(passes: seq<seq<Call>>, members: seq<Option<string>>) {
    forall p :: 0 <= p < |passes| ==> Partial(passes[p], members)
  }

  predicate Partial(calls: seq<Call>, members: seq<Option<string>>) {
    Names(calls) <= Firsts(members) && CallsOk(calls)
  }

  predicate CallsOk(calls: seq<Call>) {
    forall k :: 0 <= k < |calls| ==> CallOk(calls[k])
  }

  predicate CallsWhole(calls: seq<Call>) {
    forall k :: 0 <= k < |calls| ==> CallWhole(calls[k])
  }

  lemma CallStep(calls: seq<Call>, c: Call, was: seq<(string, string)>)
    ensures Votes(calls + [c]) == Votes(calls) + if c.vote then 1 else 0
    ensures Stored(calls + [c]) == Stored(calls) + if c.published then 1 else 0
    ensures was + Posts(calls) + Post(c) == was + Posts(calls + [c])
    ensures Names(calls + [c]) == Names(calls) + [c.name]
    ensures CallsOk(calls) && CallOk(c) ==> CallsOk(calls + [c])
    ensures CallsWhole(calls) && CallWhole(c) ==> CallsWhole(calls + [c])
  {
    assert (calls + [c])[..|calls|] == calls;
  }

  lemma PassStep(passes: seq<seq<Call>>, calls: seq<Call>, members: seq<Option<string>>)
    requires AllPartial(passes, members) && Partial(calls, members)
    ensures var more := passes + [calls];
            && |more| == |passes| + 1 && more[..|passes|] == passes && more[|passes|] == calls
            && AllPartial(more, members)
            && (AllDull(passes, members) && Complete(calls, members) && !Unanimous(calls) ==> AllDull(more, members))
  {
    assert (passes + [calls])[..|passes|] == passes;
  }

  lemma PassCounts(passes: seq<seq<Call>>, calls: seq<Call>, was: seq<(string, string)>)
    ensures StoredIn(passes + [calls]) == StoredIn(passes) + Stored(calls)
    ensures was + PostsIn(passes) + Posts(calls) == was + PostsIn(passes + [calls])
  {
    assert (passes + [calls])[..|passes|] == passes;
  }

  /** A pass that did not end the discussion, as the counters see it. */
  lemma CountersTellUnanimous(calls: seq<Call>)
    ensures |calls| > 0 && Votes(calls) == |calls| <==> Unanimous(calls)
  {
    AllVoted(calls);
  }

  /** No more replies than passes times distinct members. */
  lemma {:induction false} StoredBounded(passes: seq<seq<Call>>, width: nat)
    requires forall p :: 0 <= p < |passes| ==> |passes[p]| <= width
    ensures StoredIn(passes) <= |passes| * width
  {
    if passes != [] {
      StoredBounded(passes[..|passes| - 1], width);
      assert |passes| * width == (|passes| - 1) * width + width;
    }
  }

  lemma {:induction false} NameAt(calls: seq<Call>, name: string) returns (k: nat)
    requires name in Names(calls)
    ensures k < |calls| && calls[k].name == name
  {
    var n := |calls| - 1;
    if calls[n].name == name {
      k := n;
    } else {
      k := NameAt(calls[..n], name);
    }
  }

  /** Consensus: every member has been called in the last pass and gave an answer that
      ends with the marker. */
  lemma ConsensusMeans(pass: seq<Call>, members: seq<Option<string>>, name: string) returns (k: nat)
    requires Partial(pass, members) && Complete(pass, members) && Unanimous(pass) && Some(name) in members
    ensures k < |pass| && pass[k].name == name && pass[k].said.Some? && Marked(pass[k].said.value)
  {
    FirstsListsEachOnce(members);
    k := NameAt(pass, name);
    assert CallWhole(pass[k]) && CallOk(pass[k]);
  }

  // ----- the loops -----

  function WhyNot(code: int): Reason {
    if code == OVERTAKEN then NewMessage else RoomDeleted
  }

  /** What a role invocation makes of what it is told: the call, if one was made, whether the
      loop goes on, whether the discussion has failed, and why.

      A trigger that is no longer current stops it, before the call and after.  An answer is
      taken up when the call succeeded with text and no abort came; it votes exactly when it
      ends with the marker, and the rest of it, if any, is sent under the member's name. */
  predicate Told(words: seq<Word>, name: string, made: Option<Call>, go: bool, failed: bool, reason: Reason) {
    match |words|
    case 1 => words[0].Transcript? && words[0].code != 0 && Stopped(made, None, go, failed, false, reason, WhyNot(words[0].code))
    case 2 =>
      && words == [Transcript(0), Prompt(false)] && Stopped(made, None, go, failed, true, reason, AllocationFailed)
    case 4 =>
      && Asked(words, name) && words[3].code != 0
      && Stopped(made, Some(Call(name, None, false, false)), go, failed, false, reason, WhyNot(words[3].code))
    case 5 =>
      && Asked(words, name) && words[3].code == 0 && words[4].Abort?
      && (words[4].told || NoAnswer(words[2].rc, words[2].reply))
      && Stopped(made, Some(Call(name, None, false, false)), go, failed, !words[4].told, reason,
                 if words[4].told then CancelledInCall else AgentFailed)
    case 6 =>
      && TakenUp(words, name) && Rest(words[2].reply.value) == "" && words[5].Abort?
      && made == Some(Call(name, words[2].reply, true, false)) && go == !words[5].told && !failed && reason == RoundLimit
    case 7 =>
      && TakenUp(words, name) && Rest(words[2].reply.value) != "" && words[6].Abort?
      && words[5].Sent? && words[5].name == name && words[5].text == Rest(words[2].reply.value)
      && made == Some(Call(name, words[2].reply, Marked(words[2].reply.value), words[5].id > 0))
      && failed == (words[5].id <= 0 && words[5].id != OVERTAKEN) && go == (!failed && !words[6].told)
      && (words[5].id == OVERTAKEN ==> words[6].told)
      && reason == if words[5].id > 0 then RoundLimit else if words[5].id == OVERTAKEN then NewMessage else PublishFailed
    case _ => false
  }

  predicate Stopped(made: Option<Call>, made': Option<Call>, go: bool, failed: bool, failed': bool, reason: Reason, reason': Reason) {
    made == made' && !go && failed == failed' && reason == reason'
  }

  predicate Asked(words: seq<Word>, name: string) {
    |words| >= 4 && words[0] == Transcript(0) && words[1] == Prompt(true) && words[2].Answered? && words[2].name == name
    && words[3].Transcript?
  }

  predicate TakenUp(words: seq<Word>, name: string) {
    |words| >= 5 && Asked(words, name) && words[3].code == 0 && words[4] == Abort(false)
    && !NoAnswer(words[2].rc, words[2].reply)
  }

  predicate GaveWay(words: seq<Word>) {
    |words| == 1 || |words| == 4 || (|words| == 7 && words[5].Sent? && words[5].id == OVERTAKEN)
  }

  predicate EndsAborted(words: seq<Word>) {
    |words| > 0 && words[|words| - 1] == Abort(true)
  }

  /** In short: it goes on exactly when nothing told is trouble, and each way to stop has
      its word. */
  lemma ToldInShort(words: seq<Word>, name: string, made: Option<Call>, go: bool, failed: bool, reason: Reason)
    requires Told(words, name, made, go, failed, reason)
    ensures go <==> !Any(words, Trouble)
    ensures failed ==> Any(words, Failure)
    ensures Any(words, Failure) || Any(words, GivesWay) || Any(words, Aborting) ==> !go
    ensures Any(words, GivesWay) <==> GaveWay(words)
    ensures Any(words, Aborting) <==> EndsAborted(words)
    ensures reason == NewMessage ==> Any(words, NewerMessage)
  {
    ToldStops(words, name, made, go, failed, reason);
    ToldFails(words, name, made, go, failed, reason);
    ToldGivesWay(words, name, made, go, failed, reason);
    ToldAborts(words, name, made, go, failed, reason);
    hide Told, Any;
    if !Any(words, Trouble) {
      Untroubled(words);
    }
  }

  lemma ToldStops(words: seq<Word>, name: string, made: Option<Call>, go: bool, failed: bool, reason: Reason)
    requires Told(words, name, made, go, failed, reason)
    ensures go <==> !Any(words, Trouble)
  {
    hide Marked, Rest;
    match |words|
    case 1 => assert Trouble(words[0]);
    case 2 => assert Trouble(words[1]);
    case 4 => assert Trouble(words[3]);
    case 5 => assert Trouble(words[4]) || Trouble(words[2]);
    case 6 => assert words[5].told ==> Trouble(words[5]);
    case _ =>
      assert words[6].told ==> Trouble(words[6]);
      assert Failure(words[5]) ==> Trouble(words[5]);
  }

  lemma ToldFails(words: seq<Word>, name: string, made: Option<Call>, go: bool, failed: bool, reason: Reason)
    requires Told(words, name, made, go, failed, reason)
    ensures failed ==> Any(words, Failure)
    ensures reason == NewMessage ==> Any(words, NewerMessage)
  {
    hide Marked, Rest, Aborting, GivesWay;
    if failed {
      assert Failure(words[if |words| == 2 then 1 else if |words| == 5 then 2 else 5]);
    }
    if reason == NewMessage {
      assert NewerMessage(words[if |words| == 1 then 0 else if |words| == 4 then 3 else 5]);
    }
  }

  lemma ToldGivesWay(words: seq<Word>, name: string, made: Option<Call>, go: bool, failed: bool, reason: Reason)
    requires Told(words, name, made, go, failed, reason)
    ensures Any(words, GivesWay) <==> GaveWay(words)
  {
    hide Marked, Rest, Failure, NoAnswer;
    if GaveWay(words) {
      assert GivesWay(words[if |words| == 1 then 0 else if |words| == 4 then 3 else 5]);
    }
  }

  lemma ToldAborts(words: seq<Word>, name: string, made: Option<Call>, go: bool, failed: bool, reason: Reason)
    requires Told(words, name, made, go, failed, reason)
    ensures Any(words, Aborting) <==> EndsAborted(words)
  {
    hide Marked, Rest, Failure, NoAnswer, GivesWay;
    if EndsAborted(words) {
      assert Aborting(words[|words| - 1]);
    }
  }

  lemma ToldMakes(words: seq<Word>, name: string, made: Option<Call>, go: bool, failed: bool, reason: Reason)
    requires Told(words, name, made, go, failed, reason)
    ensures go ==> made.Some? && !failed && CallWhole(made.value)
    ensures made.Some? ==> made.value.name == name && CallOk(made.value)
    ensures reason != Consensus && (go ==> reason == RoundLimit)
  {
  }

  /** The body of the member loop once the member is known and has not spoken yet:
      the check, the call, the second check and the publication.  `made` is the call,
      if one was made; `go` tells that no `break` was reached. */
  method Invoke(w: World, name: string)
    returns (made: Option<Call>, go: bool, failed: bool, reason: Reason, ghost words: seq<Word>)
    modifies w
    ensures (old(w.cancelled) ==> w.cancelled) && (old(w.expired) ==> w.expired)
    ensures w.log == old(w.log) + words && Told(words, name, made, go, failed, reason)
    ensures w.posted == old(w.posted) + if made.Some? then Post(made.value) else []
    ensures GaveWay(words) ==> w.cancelled
    ensures EndsAborted(words) ==> w.cancelled || w.expired
    ensures !go ==> failed || w.cancelled || w.expired
    ensures |words| == 1 ==> reason == if words[0].code == -2 then NewMessage else RoomDeleted
    ensures |words| == 4 ==> reason == if words[3].code == -2 then NewMessage else RoomDeleted
    ensures |words| >= 5 && words[4] == Abort(false) ==>
      if words[2].rc == 0 && words[2].reply.Some? && words[2].reply.value != ""
      then made.value.said == words[2].reply && (failed ==> |words| == 7 && words[5].id <= 0 && words[5].id != -2)
      else made.value.said == None && failed && reason == AgentFailed
  {
    ghost var was := w.log;
    var current := w.Check();
    if current != 0 {
      w.cancelled := true;
      return None, false, false, if current == OVERTAKEN then NewMessage else RoomDeleted, [Transcript(current)];
    }
    var prompt := w.MakePrompt();
    words := [Transcript(0), Prompt(prompt)];
    assert w.log == was + words;
    if !prompt {
      return None, false, true, AllocationFailed, words;
    }
    ghost var more;
    made, go, failed, reason, more := Converse(w, name);
    words := words + more;
  }

  /** The call itself and what is made of its answer. */
  method Converse(w: World, name: string)
    returns (made: Option<Call>, go: bool, failed: bool, reason: Reason, ghost words: seq<Word>)
    modifies w
    ensures (old(w.cancelled) ==> w.cancelled) && (old(w.expired) ==> w.expired)
    ensures w.log == old(w.log) + words && |words| >= 2 && Told([Transcript(0), Prompt(true)] + words, name, made, go, failed, reason)
    ensures w.posted == old(w.posted) + if made.Some? then Post(made.value) else []
    ensures |words| == 2 || (|words| == 5 && words[3].id == OVERTAKEN) ==> w.cancelled
    ensures EndsAborted(words) ==> w.cancelled || w.expired
    ensures !go ==> failed || w.cancelled || w.expired
    ensures |words| >= 3 && words[2] == Abort(false) ==>
      if words[0].rc == 0 && words[0].reply.Some? && words[0].reply.value != ""
      then made.value.said == words[0].reply && (failed ==> |words| == 5 && words[3].id <= 0 && words[3].id != -2)
      else made.value.said == None && failed && reason == AgentFailed
  {
    ghost var was := w.log;
    var rc, reply := w.Ask(name);
    var current := w.Check();
    words := [Answered(name, rc, reply), Transcript(current)];
    assert w.log == was + words;
    if current != 0 {
      w.cancelled := true;
      return Some(Call(name, None, false, false)), false, false, if current == OVERTAKEN then NewMessage else RoomDeleted, words;
    }
    var abort := w.ShouldAbort();
    words := words + [Abort(abort)];
    assert w.log == was + words;
    if abort {
      return Some(Call(name, None, false, false)), false, false, CancelledInCall, words;
    }
    if rc != 0 || reply.None? || reply.value == "" {
      return Some(Call(name, None, false, false)), false, true, AgentFailed, words;
    }
    var vote, stored;
    ghost var more;
    vote, stored, go, failed, reason, more := Publish(w, name, reply.value);
    words := words + more;
    return Some(Call(name, reply, vote, stored)), go, failed, reason, words;
  }

  /** An answer that has been taken up: the vote, and the rest sent to the room. */
  method Publish(w: World, name: string, reply: string)
    returns (vote: bool, stored: bool, go: bool, failed: bool, reason: Reason, ghost words: seq<Word>)
    requires reply != ""
    modifies w
    ensures (old(w.cancelled) ==> w.cancelled) && (old(w.expired) ==> w.expired)
    ensures w.log == old(w.log) + words && vote == Marked(reply)
    ensures w.posted == old(w.posted) + if stored then [(name, Rest(reply))] else []
    ensures if Rest(reply) == "" then
              |words| == 1 && words[0].Abort? && vote && !stored && go == !words[0].told && !failed && reason == RoundLimit
            else
              && |words| == 2 && words[0].Sent? && words[0].name == name && words[0].text == Rest(reply) && words[1].Abort?
              && stored == (words[0].id > 0) && failed == Failure(words[0]) && go == (!failed && !words[1].told)
              && (words[0].id == OVERTAKEN ==> w.cancelled && words[1].told)
              && reason == if stored then RoundLimit else if words[0].id == OVERTAKEN then NewMessage else PublishFailed
    ensures EndsAborted(words) ==> w.cancelled || w.expired
    ensures !go ==> failed || w.cancelled || w.expired
  {
    hide TrimEnd, EndsWith;
    ghost var was := w.log;
    var text;
    vote, text := DiscussionDone(reply);
    stored, failed, reason, words := false, false, RoundLimit, [];
    if text != "" {
      var id := w.Send(name, text);
      words := [Sent(name, text, id)];
      if id > 0 {
        stored := true;
      } else if id == OVERTAKEN {
        w.cancelled, reason := true, NewMessage;
      } else {
        failed, reason := true, PublishFailed;
      }
    }
    var abort := w.ShouldAbort();
    words := words + [Abort(abort)];
    go := !failed && !abort;
  }

  /** One invocation and the counters after it. */
  method Count(w: World, name: string, before: seq<Call>, votesBefore: nat, repliedBefore: nat, ghost was: seq<(string, string)>)
    returns (calls: seq<Call>, go: bool, failed: bool, reason: Reason, votes: nat, replied: nat, ghost words: seq<Word>)
    requires CallsOk(before) && votesBefore == Votes(before) && repliedBefore == Stored(before)
    requires w.posted == was + Posts(before)
    modifies w
    ensures (old(w.cancelled) ==> w.cancelled) && (old(w.expired) ==> w.expired)
    ensures CallsOk(calls) && votes == Votes(calls) && replied == Stored(calls) && w.posted == was + Posts(calls)
    ensures Names(calls) == Names(before) || Names(calls) == Names(before) + [name]
    ensures go ==> !failed && Names(calls) == Names(before) + [name] && (CallsWhole(before) ==> CallsWhole(calls))
    ensures !go ==> failed || w.cancelled || w.expired
    ensures w.log == old(w.log) + words && Heard(w.cancelled, w.expired, words, failed, reason) && (go <==> !Any(words, Trouble))
    ensures reason != Consensus && (go ==> reason == RoundLimit)
  {
    hide Told, CallOk, CallWhole, Any, Failure, GivesWay, NewerMessage, Aborting, Trouble;
    var made;
    calls, votes, replied := before, votesBefore, repliedBefore;
    made, go, failed, reason, words := Invoke(w, name);
    ToldInShort(words, name, made, go, failed, reason);
    ToldMakes(words, name, made, go, failed, reason);
    if made.Some? {
      CallStep(calls, made.value, was);
      calls := calls + [made.value];
      if made.value.vote {
        votes := votes + 1;
      }
      if made.value.published {
        replied := replied + 1;
      }
    }
  }

  /** How the outcome so far answers to what was told. */
  ghost predicate Heard(cancelled: bool, expired: bool, words: seq<Word>, failed: bool, reason: Reason) {
    && (Any(words, GivesWay) ==> cancelled)
    && (Any(words, Aborting) ==> cancelled || expired)
    && (failed ==> Any(words, Failure))
    && (Any(words, Failure) ==> failed || cancelled || expired)
    && (reason == NewMessage ==> Any(words, NewerMessage))
    && (Any(words, Trouble) ==> failed || cancelled || expired)
  }

  lemma AbortHeard(words: seq<Word>, told: bool)
    ensures var all := words + [Abort(told)];
            && (Any(all, Trouble) <==> Any(words, Trouble) || told)
            && (Any(all, Failure) <==> Any(words, Failure))
            && (Any(all, GivesWay) <==> Any(words, GivesWay))
            && (Any(all, Aborting) <==> Any(words, Aborting) || told)
            && (Any(all, NewerMessage) <==> Any(words, NewerMessage))
  {
    hide Any;
    var w := Abort(told);
    var more := [w];
    AnyOfBoth(words, more, Trouble);
    AnyOfBoth(words, more, Failure);
    AnyOfBoth(words, more, GivesWay);
    AnyOfBoth(words, more, Aborting);
    AnyOfBoth(words, more, NewerMessage);
    AnyOfOne(w, Trouble);
    AnyOfOne(w, Failure);
    AnyOfOne(w, GivesWay);
    AnyOfOne(w, Aborting);
    AnyOfOne(w, NewerMessage);
  }

  /** The tests before a member's turn: no abort, and the member is known. */
  method Admit(w: World, member: Option<string>) returns (ok: bool, failed: bool, ghost words: seq<Word>)
    modifies w
    ensures (old(w.cancelled) ==> w.cancelled) && (old(w.expired) ==> w.expired)
    ensures w.log == old(w.log) + words && w.posted == old(w.posted)
    ensures ok ==> member.Some? && words == [Abort(false), Listed(member.value, true)]
    ensures ok ==> !failed && !Any(words, Trouble)
    ensures !ok ==> failed || w.cancelled || w.expired
    ensures failed ==> words == if member.None? then [Abort(false)] else [Abort(false), Listed(member.value, false)]
    ensures !ok && !failed ==> words == [Abort(true)]
    ensures member.Some? ==> Heard(w.cancelled, w.expired, words, failed, RoundLimit) && (ok <==> !Any(words, Trouble))
  {
    hide Any;
    var abort := w.ShouldAbort();
    words := [Abort(abort)];
    NothingHeard();
    HearOne([], Abort(abort));
    assert [] + words == words;
    if abort {
      return false, false, words;
    }
    if member.None? {
      return false, true, words;
    }
    var known := w.IsKnown(member.value);
    HearOne(words, Listed(member.value, known));
    words := words + [Listed(member.value, known)];
    return known, !known, words;
  }

  /** The pass up to member `i`: whom it has called, and what the counters say. */
  ghost predicate Tallied(calls: seq<Call>, members: seq<Option<string>>, i: nat, votes: nat, participants: nat, replied: nat,
                          was: seq<(string, string)>, now: seq<(string, string)>)
    requires i <= |members|
  {
    && Names(calls) == Firsts(members[..i]) && CallsOk(calls) && CallsWhole(calls)
    && votes == Votes(calls) && participants == |calls| && replied == Stored(calls) && now == was + Posts(calls)
  }

  /** One member's turn. */
  method Turn(w: World, members: seq<Option<string>>, i: nat, before: seq<Call>, votesBefore: nat, participantsBefore: nat,
              repliedBefore: nat, ghost was: seq<(string, string)>)
    returns (calls: seq<Call>, go: bool, failed: bool, reason: Reason, votes: nat, participants: nat, replied: nat, ghost words: seq<Word>)
    requires i < |members| && Tallied(before, members, i, votesBefore, participantsBefore, repliedBefore, was, w.posted)
    modifies w
    ensures (old(w.cancelled) ==> w.cancelled) && (old(w.expired) ==> w.expired)
    ensures Partial(calls, members) && replied == Stored(calls) && w.posted == was + Posts(calls)
    ensures go ==> !failed && Tallied(calls, members, i + 1, votes, participants, replied, was, w.posted)
    ensures !go ==> failed || w.cancelled || w.expired
    ensures w.log == old(w.log) + words
    ensures members[i].Some? ==> Heard(w.cancelled, w.expired, words, failed, reason) && (go <==> !Any(words, Trouble))
    ensures Any(words, Trouble) ==> !go
    ensures go ==> reason == RoundLimit
    ensures reason != Consensus
  {
    hide Any, CallWhole, CallOk, Posts, Votes, Stored, Names, Firsts;
    FirstsStep(members, i);
    FirstsOfPrefix(members, i);
    FirstsOfPrefix(members, i + 1);
    calls, votes, participants, replied := before, votesBefore, participantsBefore, repliedBefore;
    go, failed, words := Admit(w, members[i]);
    reason := if failed then AgentUnavailable else RoundLimit;
    if !go {
      return;
    }
    var spoke := AlreadySpoke(members, i, members[i].value);
    if !spoke {
      participants := participants + 1;
      ghost var more;
      calls, go, failed, reason, votes, replied, more := Count(w, members[i].value, calls, votes, replied, was);
      HearMore(words, more);
      words := words + more;
    }
  }

  /** The member loop of one pass.  If nothing failed and nothing was aborted, the
      pass is complete and `votes` and `participants` count its votes and calls. */
  method RunPass(w: World, members: seq<Option<string>>)
    returns (calls: seq<Call>, failed: bool, reason: Reason, votes: nat, participants: nat, replied: nat, ghost words: seq<Word>)
    modifies w
    ensures (old(w.cancelled) ==> w.cancelled) && (old(w.expired) ==> w.expired)
    ensures Partial(calls, members)
    ensures replied == Stored(calls) && w.posted == old(w.posted) + Posts(calls)
    ensures w.log == old(w.log) + words
    ensures None !in members ==> Heard(w.cancelled, w.expired, words, failed, reason)
    ensures Any(words, Trouble) ==> failed || w.cancelled || w.expired
    ensures None !in members && !Any(words, Trouble) ==> !failed && Counted(calls, members, votes, participants)
    ensures !failed && !w.cancelled && !w.expired ==> Counted(calls, members, votes, participants) && reason == RoundLimit
    ensures reason != Consensus
  {
    hide Any, CallsWhole, CallsOk, Posts, Votes, Stored, Names, Firsts, Trouble, Failure, GivesWay, NewerMessage, Aborting;
    ghost var was, log := w.posted, w.log;
    calls, failed, reason, votes, participants, replied, words := [], false, RoundLimit, 0, 0, 0, [];
    NothingHeard();
    NothingTallied(members, was);
    var i := 0;
    while i < |members|
      invariant i <= |members| && !failed && reason == RoundLimit
      invariant (old(w.cancelled) ==> w.cancelled) && (old(w.expired) ==> w.expired)
      invariant Tallied(calls, members, i, votes, participants, replied, was, w.posted)
      invariant w.log == log + words && !Any(words, Trouble)
    {
      var go;
      ghost var more;
      calls, go, failed, reason, votes, participants, replied, more := Turn(w, members, i, calls, votes, participants, replied, was);
      HearMore(words, more);
      words := words + more;
      if !go {
        return;
      }
      i := i + 1;
    }
    assert members[..i] == members;
    Untroubled(words);
  }

  lemma NothingTallied(members: seq<Option<string>>, was: seq<(string, string)>)
    ensures Tallied([], members, 0, 0, 0, 0, was, was)
  {
  }

  ghost predicate Counted(calls: seq<Call>, members: seq<Option<string>>, votes: nat, participants: nat) {
    Complete(calls, members) && participants == |calls| && votes == Votes(calls)
  }

  /** The duplicate test of the member loop. */
  method AlreadySpoke(members: seq<Option<string>>, i: nat, name: string) returns (spoke: bool)
    requires i <= |members|
    ensures spoke <==> name in Firsts(members[..i])
  {
    spoke := false;
    var earlier := 0;
    while earlier < i
      invariant earlier <= i
      invariant spoke <==> Some(name) in members[..earlier]
    {
      assert members[..earlier + 1] == members[..earlier] + [members[earlier]];
      if members[earlier].Some? && members[earlier].value == name {
        spoke := true;
      }
      earlier := earlier + 1;
    }
    FirstsListsEachOnce(members[..i]);
  }

  /** Whether the passes made by an undisturbed run end it for the reason given. */
  ghost predicate Concluded(passes: seq<seq<Call>>, members: seq<Option<string>>, rounds: int, reason: Reason) {
    && |passes| > 0
    && AllDull(passes[..|passes| - 1], members)
    && Complete(passes[|passes| - 1], members)
    && (if Unanimous(passes[|passes| - 1]) then reason == Consensus else reason == RoundLimit && |passes| == rounds)
  }

  /** Members there are, not too many, and each has a name. */
  predicate Playable(session: Option<Session>) {
    session.Some? && 1 <= |session.value.members| <= MAX_MEMBERS && None !in session.value.members
  }

  /** The pass loop. */
  method RunPasses(w: World, members: seq<Option<string>>, rounds: int)
    returns (passes: seq<seq<Call>>, failed: bool, reason: Reason, replied: nat, ghost words: seq<Word>)
    requires 1 <= rounds && members != []
    modifies w
    ensures (old(w.cancelled) ==> w.cancelled) && (old(w.expired) ==> w.expired)
    ensures |passes| <= rounds && replied == StoredIn(passes) && w.posted == old(w.posted) + PostsIn(passes)
    ensures AllPartial(passes, members)
    ensures w.log == old(w.log) + words
    ensures None !in members ==> Heard(w.cancelled, w.expired, words, failed, reason)
    ensures Any(words, Trouble) ==> failed || w.cancelled || w.expired
    ensures None !in members && !Any(words, Trouble) ==> !failed && Concluded(passes, members, rounds, reason)
    ensures !failed && !w.cancelled && !w.expired ==> Concluded(passes, members, rounds, reason)
  {
    hide Complete, Firsts, Any, Posts, Partial, NoAnswer;
    ghost var was, log := w.posted, w.log;
    passes, failed, reason, replied, words := [], false, RoundLimit, 0, [];
    NothingHeard();
    Untroubled(words);
    var pass := 1;
    while pass <= rounds && !failed
      invariant |passes| == pass - 1 <= rounds && replied == StoredIn(passes)
      invariant w.posted == was + PostsIn(passes)
      invariant AllPartial(passes, members)
      invariant (old(w.cancelled) ==> w.cancelled) && (old(w.expired) ==> w.expired)
      invariant w.log == log + words && (None !in members ==> Heard(w.cancelled, w.expired, words, failed, reason))
      invariant Any(words, Trouble) ==> failed || w.cancelled || w.expired
      invariant None !in members && !Any(words, Trouble) ==> !failed && reason == RoundLimit && AllDull(passes, members)
      invariant !failed && !w.cancelled && !w.expired ==> reason == RoundLimit && AllDull(passes, members)
      decreases rounds - pass
    {
      var abort := w.ShouldAbort();
      AbortHeard(words, abort);
      words := words + [Abort(abort)];
      if abort {
        return;
      }
      ghost var more;
      var calls, f, why, votes, participants, stored;
      calls, f, why, votes, participants, stored, more := RunPass(w, members);
      PassStep(passes, calls, members);
      PassCounts(passes, calls, was);
      CountersTellUnanimous(calls);
      HearMore(words, more);
      words := words + more;
      passes, failed, reason, replied := passes + [calls], f, why, replied + stored;
      abort := w.ShouldAbort();
      AbortHeard(words, abort);
      words := words + [Abort(abort)];
      if !failed && !abort && participants > 0 && votes == participants {
        reason := Consensus;
        return;
      }
      pass := pass + 1;
    }
  }

  /** im_run_round under the room lock.

      A discussion reported "done" either had one complete pass in which every
      distinct member voted to end, that pass being the last and the first such, or
      ran all its passes, each complete.  In every case there are at most five
      passes, each calls each distinct member at most once, no more replies are
      stored than passes times distinct members, and what the run has stored is what its
      calls said, in their order.

      It succeeds exactly when the session can be run and nothing it is told is trouble;
      otherwise what it reports has its cause among the words. */
  method RunRound(w: World, session: Option<Session>) returns (r: Report, ghost words: seq<Word>)
    modifies w
    ensures 1 <= r.rounds <= 5 && r.round == |r.passes| <= r.rounds
    ensures session.Some? && r.passes != [] ==>
      r.rounds == if 1 <= session.value.rounds <= 5 then session.value.rounds else 3
    ensures session.None? ==> r.passes == []
    ensures r.replied == StoredIn(r.passes) && w.posted == old(w.posted) + PostsIn(r.passes)
    ensures session.Some? ==>
      && AllPartial(r.passes, session.value.members)
      && r.replied <= |r.passes| * |Firsts(session.value.members)|
    ensures r.status == Done ==>
      && session.Some? && 1 <= |session.value.members| <= 64
      && Concluded(r.passes, session.value.members, r.rounds, r.reason)
    ensures w.log == old(w.log) + words
    ensures r.rc == 0 ==> r.status == Done && !Any(words, Trouble)
    ensures session.Some? && 1 <= |session.value.members| <= 64 && None !in session.value.members && !Any(words, Trouble) ==>
      r.status == Done && r.rc == 0
    ensures r.status == Failed ==> !Playable(session) || Any(words, Failure)
    ensures r.status == Cancelled ==> Any(words, Aborting) && (w.cancelled || r.reason == RoomUnavailable)
    ensures r.status == Timeout ==> Any(words, Aborting) && w.expired
    ensures Playable(session) && Any(words, GivesWay) ==> r.status == Cancelled
    ensures Playable(session) && r.reason == NewMessage ==> Any(words, NewerMessage)
  {
    hide Any, Concluded, Trouble, Failure, GivesWay, Aborting, NewerMessage, Posts, Partial;
    var rounds := DEFAULT_ROUNDS;
    var abort := w.ShouldAbort();
    OnlyAbort(abort);
    words := [Abort(abort)];
    if session.None? || abort {
      abort := w.ShouldAbort();
      AbortHeard(words, abort);
      words := words + [Abort(abort)];
      return Report(if abort then Cancelled else Failed, RoomUnavailable, 0, rounds, 0, -1, []), words;
    }
    var s := session.value;
    rounds := s.rounds;
    if rounds < 1 || rounds > MAX_ROUNDS {
      rounds := DEFAULT_ROUNDS;
    }
    var passes: seq<seq<Call>>, failed, reason, replied := [], true, RoundLimit, 0;
    ghost var more := [];
    NothingHeard();
    if 0 < |s.members| <= MAX_MEMBERS {
      passes, failed, reason, replied, more := RunPasses(w, s.members, rounds);
      PassesAreBounded(passes, s.members);
    }
    var status, rc, last := Conclude(w, failed);
    HearMore(words, more);
    HearLast(words + more, last);
    words := words + more + last;
    r := Report(status, reason, |passes|, rounds, replied, rc, passes);
  }

  lemma OnlyAbort(told: bool)
    ensures Any([Abort(told)], Trouble) == Any([Abort(told)], Aborting) == told
  {
    AnyOfOne(Abort(told), Trouble);
    AnyOfOne(Abort(told), Aborting);
  }

  lemma PassesAreBounded(passes: seq<seq<Call>>, members: seq<Option<string>>)
    requires AllPartial(passes, members)
    ensures StoredIn(passes) <= |passes| * |Firsts(members)|
  {
    assert forall p :: 0 <= p < |passes| ==> |Names(passes[p])| == |passes[p]|;
    StoredBounded(passes, |Firsts(members)|);
  }

  predicate OnlyAborts(words: seq<Word>) {
    forall k :: 0 <= k < |words| ==> words[k].Abort?
  }

  lemma HearLast(words: seq<Word>, last: seq<Word>)
    requires OnlyAborts(last)
    ensures Any(words + last, Trouble) <==> Any(words, Trouble) || Any(last, Aborting)
    ensures Any(words + last, Failure) <==> Any(words, Failure)
    ensures Any(words + last, GivesWay) <==> Any(words, GivesWay)
    ensures Any(words + last, Aborting) <==> Any(words, Aborting) || Any(last, Aborting)
    ensures Any(words + last, NewerMessage) <==> Any(words, NewerMessage)
  {
    OnlyAbortsAbort(last);
    hide Any, Trouble, Failure, GivesWay, Aborting, NewerMessage;
    AnyOfBoth(words, last, Trouble);
    AnyOfBoth(words, last, Failure);
    AnyOfBoth(words, last, GivesWay);
    AnyOfBoth(words, last, Aborting);
    AnyOfBoth(words, last, NewerMessage);
  }

  lemma OnlyAbortsAbort(last: seq<Word>)
    requires OnlyAborts(last)
    ensures !Any(last, Failure) && !Any(last, GivesWay) && !Any(last, NewerMessage)
    ensures Any(last, Trouble) <==> Any(last, Aborting)
  {
    if k :| 0 <= k < |last| && Trouble(last[k]) {
      assert Aborting(last[k]);
    }
    if k :| 0 <= k < |last| && Aborting(last[k]) {
      assert Trouble(last[k]);
    }
  }

  /** The status and the return value, each after its own look at the abort flags. */
  method Conclude(w: World, failed: bool) returns (status: Status, rc: int, ghost last: seq<Word>)
    modifies w
    ensures (old(w.cancelled) ==> w.cancelled) && (old(w.expired) ==> w.expired)
    ensures w.log == old(w.log) + last && w.posted == old(w.posted) && OnlyAborts(last)
    ensures rc == 0 <==> !failed && !Any(last, Aborting)
    ensures rc == 0 ==> status == Done
    ensures status == Done ==> !failed && !old(w.cancelled) && !old(w.expired)
    ensures status == Failed ==> failed
    ensures status == Cancelled ==> Any(last, Aborting) && w.cancelled
    ensures status == Timeout ==> Any(last, Aborting) && w.expired
    ensures old(w.cancelled) ==> status == Cancelled
  {
    ghost var was := w.log;
    var abort := w.ShouldAbort();
    status := if abort then Cancelled else if failed then Failed else Done;
    last := [Abort(abort)];
    abort := w.ShouldAbort();
    last := last + [Abort(abort)];
    if abort && !w.cancelled {
      status := Timeout;
    }
    abort := w.ShouldAbort();
    last := last + [Abort(abort)];
    assert Aborting(last[2]) || !abort;
    rc := if failed || abort then -1 else 0;
  }
}
