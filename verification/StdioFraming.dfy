/**
 The client's half of the newline-delimited JSON-RPC stream: stdio_take_response and the
 read loop of rpc_stdio in src/action/mcp_conn.c.

 Parsing is a parameter: what a text means that is JSON, with its id if it is an object
 with a numeric one (cut to an integer), and nothing for any other text.  Texts hold no
 NUL.
 */
module StdioFraming {
  import opened Texts
  import opened Options

  /** What a message says. */
  datatype Message = Message(id: Option<int>, content: string)

  type Parser = Text -> Option<Message>

  // ----- lines -----

  /** The place of the first line break from `cur` on, or the length. */
  function Eol(b: Text, cur: nat): (n: nat)
    requires cur <= |b|
    ensures cur <= n <= |b|
    decreases |b| - cur
  {
    if cur == |b| || b[cur] == '\n' then cur else Eol(b, cur + 1)
  }

  function Line(b: Text): Text {
    b[..Eol(b, 0)]
  }

  predicate Whole(b: Text) {
    Eol(b, 0) < |b|
  }

  /** What follows the first line and its break. */
  function Later(b: Text): (r: Text)
    ensures |b| > 0 ==> |r| < |b|
  {
    if Whole(b) then b[Eol(b, 0) + 1..] else []
  }

  /** An empty line is not parsed. */
  predicate Matches(parse: Parser, line: Text, id: int) {
    |line| > 0 && parse(line).Some? && parse(line).value.id == Some(id)
  }

  /** Where the first line with the id starts, from the line at `cur` on, or the length. */
  function StartOf(parse: Parser, b: Text, cur: nat, id: int): (r: nat)
    requires cur <= |b|
    ensures cur <= r <= |b|
    decreases |b| - cur
  {
    if cur == |b| || Matches(parse, b[cur..Eol(b, cur)], id) then cur
    else if Eol(b, cur) == |b| then |b|
    else StartOf(parse, b, Eol(b, cur) + 1, id)
  }

  /** The line at `t` and what follows it; everything, if there is no line. */
  function Found(b: Text, t: nat): (Option<Text>, Text)
    requires t <= |b|
  {
    if t == |b| then (None, b)
    else (Some(b[t..Eol(b, t)]), b[if Eol(b, t) < |b| then Eol(b, t) + 1 else |b|..])
  }

  /** The first line with the id, and what is left after it; without one, everything. */
  function Take(parse: Parser, b: Text, id: int): (Option<Text>, Text) {
    Found(b, StartOf(parse, b, 0, id))
  }

  class ProcBuffer {
    var buf: Text

    constructor ()
      ensures buf == []
    {
      buf := [];
    }

    /** proc_popen_trim. */
    method Trim(n: nat)
      requires n <= |buf|
      modifies this
      ensures buf == old(buf)[n..]
    {
      buf := buf[n..];
    }

    /** stdio_take_response: consume everything through the matched line. */
    method TakeResponse(parse: Parser, id: int) returns (line: Option<Text>)
      modifies this
      ensures (line, buf) == Take(parse, old(buf), id)
    {
      var cur := 0;
      while cur < |buf|
        invariant cur <= |buf| && buf == old(buf)
        invariant StartOf(parse, buf, cur, id) == StartOf(parse, buf, 0, id)
        decreases |buf| - cur
      {
        var n := FindEol(buf, cur);
        var text := buf[cur..n];
        if Matches(parse, text, id) {
          Trim(if n < |buf| then n + 1 else n);
          return Some(text);
        }
        if n == |buf| {
          return None;
        }
        cur := n + 1;
      }
      return None;
    }

    /** The read loop of rpc_stdio: the chunks that arrive before the deadline. */
    method AwaitResponse(parse: Parser, id: int, chunks: seq<Text>) returns (line: Option<Text>)
      modifies this
      ensures (line, buf) == Await(parse, old(buf), id, chunks)
    {
      var used := 0;
      while used < |chunks|
        invariant used <= |chunks|
        invariant Await(parse, old(buf), id, chunks) == Await(parse, buf, id, chunks[used..])
      {
        assert chunks[used..][1..] == chunks[used + 1..];
        NoneTakesNothing(parse, buf + chunks[used], id);
        buf := buf + chunks[used];
        used := used + 1;
        line := TakeResponse(parse, id);
        if line.Some? {
          return;
        }
      }
      line := None;
    }
  }

  /** strchr for the line break, from `cur`. */
  method FindEol(b: Text, cur: nat) returns (n: nat)
    requires cur <= |b|
    ensures n == Eol(b, cur)
  {
    n := cur;
    while n < |b| && b[n] != '\n'
      invariant cur <= n <= |b| && Eol(b, cur) == Eol(b, n)
    {
      n := n + 1;
    }
  }

  lemma {:induction false} EolShift(b: Text, k: nat, cur: nat)
    requires k + cur <= |b|
    ensures Eol(b, k + cur) == k + Eol(b[k..], cur)
    decreases |b| - cur
  {
    if k + cur < |b| && b[k + cur] != '\n' {
      EolShift(b, k, cur + 1);
    }
  }

  lemma {:induction false} StartShift(parse: Parser, b: Text, k: nat, cur: nat, id: int)
    requires k + cur <= |b|
    ensures StartOf(parse, b, k + cur, id) == k + StartOf(parse, b[k..], cur, id)
    decreases |b| - cur
  {
    hide Eol, Matches;
    EolShift(b, k, cur);
    var n := Eol(b[k..], cur);
    assert b[k + cur..k + n] == b[k..][cur..n];
    if k + n < |b| {
      StartShift(parse, b, k, n + 1, id);
    }
  }

  function Kept(was: Text, r: (Option<Text>, Text)): (Option<Text>, Text) {
    if r.0.Some? then r else (None, was)
  }

  lemma FoundShift(b: Text, k: nat, t: nat)
    requires k + t <= |b|
    ensures Found(b, k + t) == Kept(b, Found(b[k..], t))
  {
    EolShift(b, k, t);
    var n := Eol(b[k..], t);
    assert b[k + t..k + n] == b[k..][t..n];
    if k + n < |b| {
      assert b[k + n + 1..] == b[k..][n + 1..];
    } else {
      assert b[k + n..] == b[k..][n..];
    }
  }

  /** Line by line: the first line, or what is taken of the later ones. */
  lemma TakeTurn(parse: Parser, b: Text, id: int)
    requires |b| > 0
    ensures Take(parse, b, id) ==
            if Matches(parse, Line(b), id) then (Some(Line(b)), Later(b))
            else if Whole(b) then Kept(b, Take(parse, Later(b), id)) else (None, b)
  {
    var n := Eol(b, 0);
    assert b[0..n] == Line(b);
    if Matches(parse, b[0..n], id) {
      StartHere(parse, b, 0, id);
      FoundAt(b, 0, n);
    } else if n < |b| {
      TakeLater(parse, b, n + 1, id);
    } else {
      StartNowhere(parse, b, 0, id);
    }
  }

  lemma TakeLater(parse: Parser, b: Text, k: nat, id: int)
    requires 0 < k <= |b| && k == Eol(b, 0) + 1 && !Matches(parse, b[0..k - 1], id)
    ensures Take(parse, b, id) == Kept(b, Take(parse, b[k..], id))
  {
    hide StartOf, Kept;
    StartShift(parse, b, k, 0, id);
    FoundShift(b, k, StartOf(parse, b[k..], 0, id));
    StartLater(parse, b, 0, id);
  }

  lemma StartHere(parse: Parser, b: Text, cur: nat, id: int)
    requires cur < |b| && Matches(parse, b[cur..Eol(b, cur)], id)
    ensures StartOf(parse, b, cur, id) == cur
  {
  }

  lemma StartLater(parse: Parser, b: Text, cur: nat, id: int)
    requires cur < |b| && !Matches(parse, b[cur..Eol(b, cur)], id) && Eol(b, cur) < |b|
    ensures StartOf(parse, b, cur, id) == StartOf(parse, b, Eol(b, cur) + 1, id)
  {
  }

  lemma StartNowhere(parse: Parser, b: Text, cur: nat, id: int)
    requires cur < |b| && !Matches(parse, b[cur..Eol(b, cur)], id) && Eol(b, cur) == |b|
    ensures StartOf(parse, b, cur, id) == |b|
  {
  }

  lemma FoundAt(b: Text, t: nat, n: nat)
    requires t < |b| && n == Eol(b, t)
    ensures Found(b, t) == (Some(b[t..n]), if n < |b| then b[n + 1..] else [])
  {
    assert b[|b|..] == [];
  }

  /** Polling after each chunk until the response is there or the chunks are used up. */
  function Await(parse: Parser, b: Text, id: int, chunks: seq<Text>): (Option<Text>, Text)
    decreases |chunks|
  {
    if |chunks| == 0 then (None, b)
    else
      var (line, rest) := Take(parse, b + chunks[0], id);
      if line.Some? then (line, rest) else Await(parse, b + chunks[0], id, chunks[1..])
  }

  /** How many chunks that takes. */
  function Reads(parse: Parser, b: Text, id: int, chunks: seq<Text>): (n: nat)
    ensures n <= |chunks|
    decreases |chunks|
  {
    if |chunks| == 0 then 0
    else if Take(parse, b + chunks[0], id).0.Some? then 1
    else 1 + Reads(parse, b + chunks[0], id, chunks[1..])
  }

  lemma NoneTakesNothing(parse: Parser, b: Text, id: int)
    ensures Take(parse, b, id).0.None? ==> Take(parse, b, id).1 == b
  {
  }

  // ----- the response is the first line with the id, and the rest is what follows it -----

  /** Complete lines, none of them with the id. */
  predicate NoneOf(parse: Parser, b: Text, id: int)
    decreases |b|
  {
    |b| == 0 || (Whole(b) && !Matches(parse, Line(b), id) && NoneOf(parse, Later(b), id))
  }

  /** The lines before the first with the id. */
  function Before(parse: Parser, b: Text, id: int): Text
    decreases |b|
  {
    if |b| == 0 || Matches(parse, Line(b), id) then [] else Line(b) + ['\n'] + Before(parse, Later(b), id)
  }

  lemma {:induction false} BeforeIsNoneOf(parse: Parser, b: Text, id: int)
    requires Take(parse, b, id).0.Some?
    ensures NoneOf(parse, Before(parse, b, id), id)
    decreases |b|
  {
    TakeTurn(parse, b, id);
    if !Matches(parse, Line(b), id) {
      BeforeIsNoneOf(parse, Later(b), id);
      EolIsFirst(b);
      LineOf(Line(b), Before(parse, Later(b), id));
    }
  }

  /** The response is the first line with the id; what is left is what follows it. */
  lemma {:induction false} TakesFirst(parse: Parser, b: Text, id: int)
    requires Take(parse, b, id).0.Some?
    ensures var (line, rest) := Take(parse, b, id);
            && Matches(parse, line.value, id) && '\n' !in line.value
            && Split(b, Before(parse, b, id), line.value, rest)
    decreases |b|
  {
    TakeTurn(parse, b, id);
    EolIsFirst(b);
    if !Matches(parse, Line(b), id) {
      TakesFirst(parse, Later(b), id);
      var (line, rest) := Take(parse, Later(b), id);
      SplitLater(b, Before(parse, Later(b), id), line.value, rest);
    }
  }

  predicate Split(b: Text, before: Text, line: Text, rest: Text) {
    b == before + line + ['\n'] + rest || (b == before + line && rest == [])
  }

  lemma SplitLater(b: Text, before: Text, line: Text, rest: Text)
    requires Whole(b) && Split(Later(b), before, line, rest)
    ensures Split(b, Line(b) + ['\n'] + before, line, rest)
  {
    hide Later;
    var head := Line(b) + ['\n'];
    EolIsFirst(b);
    assert head + (before + line) == (head + before) + line;
    assert head + (before + line + ['\n'] + rest) == (head + before) + line + ['\n'] + rest;
  }

  lemma {:induction false} NoBreakBefore(b: Text, cur: nat)
    requires cur <= |b|
    ensures forall i :: cur <= i < Eol(b, cur) ==> b[i] != '\n'
    ensures Eol(b, cur) < |b| ==> b[Eol(b, cur)] == '\n'
    decreases |b| - cur
  {
    if cur < |b| && b[cur] != '\n' {
      NoBreakBefore(b, cur + 1);
    }
  }

  lemma EolIsFirst(b: Text)
    ensures '\n' !in Line(b)
    ensures Whole(b) ==> b == Line(b) + ['\n'] + Later(b)
    ensures !Whole(b) ==> b == Line(b)
  {
    NoBreakBefore(b, 0);
  }

  lemma {:induction false} EolIs(b: Text, cur: nat, n: nat)
    requires cur <= n <= |b| && (forall i :: cur <= i < n ==> b[i] != '\n') && (n < |b| ==> b[n] == '\n')
    ensures Eol(b, cur) == n
    decreases n - cur
  {
    if cur < n {
      EolIs(b, cur + 1, n);
    }
  }

  lemma LineOf(line: Text, rest: Text)
    requires '\n' !in line
    ensures var b := line + ['\n'] + rest; Whole(b) && Line(b) == line && Later(b) == rest
  {
    EolIs(line + ['\n'] + rest, 0, |line|);
  }

  lemma LastLineOf(line: Text)
    requires '\n' !in line
    ensures Line(line) == line && !Whole(line)
  {
    EolIs(line, 0, |line|);
  }

  // ----- how the stream is cut into chunks does not matter -----

  /** Characters that may follow a message on its line. */
  predicate BlankText(t: Text) {
    forall i :: 0 <= i < |t| ==> t[i] == ' ' || t[i] == '\t' || t[i] == '\r'
  }

  /** A parser that reads no message in blanks. */
  ghost predicate BlanksSayNothing(parse: Parser) {
    forall t: Text :: BlankText(t) ==> parse(t) == None
  }

  /** A proper prefix of a line is a message with an id only if the line is the same
      message and nothing but blanks follow, as before the line feed of a CR LF. */
  predicate LineOk(parse: Parser, line: Text) {
    forall k :: 0 < k < |line| && HasId(parse, line[..k]) ==> parse(line) == parse(line[..k]) && BlankText(line[k..])
  }

  predicate HasId(parse: Parser, t: Text) {
    parse(t).Some? && parse(t).value.id.Some?
  }

  predicate Clean(parse: Parser, s: Text)
    decreases |s|
  {
    |s| == 0 || (LineOk(parse, Line(s)) && Clean(parse, Later(s)))
  }

  /** The same text, but for a line of blanks left at the front. */
  predicate Leftover(w: Text, x: Text, y: Text) {
    BlankText(w) && (x == w + ['\n'] + y || (x == w && |y| == 0))
  }

  ghost predicate Same(x: Text, y: Text) {
    x == y || exists w :: Leftover(w, x, y)
  }

  lemma WholeExtends(b: Text, f: Text)
    requires Whole(b)
    ensures Whole(b + f) && Line(b + f) == Line(b) && Later(b + f) == Later(b) + f
  {
    EolIsFirst(b);
    LineOf(Line(b), Later(b) + f);
    assert b + f == Line(b) + ['\n'] + (Later(b) + f);
  }

  lemma LineContinues(b: Text, f: Text)
    requires !Whole(b)
    ensures Line(b) == b && Line(b + f) == b + Line(f) && Later(b + f) == Later(f) && Whole(b + f) == Whole(f)
    ensures f == if Whole(f) then Line(f) + ['\n'] + Later(f) else Line(f)
  {
    EolIsFirst(b);
    EolIsFirst(f);
    var whole := b + Line(f);
    if Whole(f) {
      assert b + f == whole + ['\n'] + Later(f);
      LineOf(whole, Later(f));
    } else {
      assert b + f == whole;
      LastLineOf(whole);
    }
  }

  /** A line cut off at the end of the buffer, which is a message, is the same message as
      the whole line, and blanks are all that is to come of it. */
  lemma PartIsWhole(parse: Parser, b: Text, f: Text, id: int)
    requires |b| > 0 && !Whole(b) && Matches(parse, Line(b), id) && LineOk(parse, Line(b + f))
    ensures Line(b) == b && parse(Line(b + f)) == parse(b) && |Line(b + f)| > 0 && Same(f, Later(b + f))
  {
    LineContinues(b, f);
    var whole := b + Line(f);
    assert whole[..|b|] == b && whole[|b|..] == Line(f);
    if |Line(f)| == 0 {
      assert whole == b;
    }
    assert BlankText(Line(f));
    assert Leftover(Line(f), f, Later(f));
  }

  function Meaning(parse: Parser, line: Option<Text>): Option<Message> {
    if line.Some? then parse(line.value) else None
  }

  /** A response found in a buffer is the one found when more has arrived. */
  lemma {:induction false} TakeExtends(parse: Parser, b: Text, f: Text, id: int)
    requires Clean(parse, b + f) && Take(parse, b, id).0.Some?
    ensures Take(parse, b + f, id).0.Some?
    ensures Meaning(parse, Take(parse, b + f, id).0) == Meaning(parse, Take(parse, b, id).0)
    ensures Same(Take(parse, b, id).1 + f, Take(parse, b + f, id).1)
    decreases |b|
  {
    TakeTurn(parse, b, id);
    TakeTurn(parse, b + f, id);
    if Whole(b) {
      WholeExtends(b, f);
      if !Matches(parse, Line(b), id) {
        TakeExtends(parse, Later(b), f, id);
      }
    } else {
      PartIsWhole(parse, b, f, id);
      assert Later(b) + f == f;
    }
  }

  lemma {:induction false} RestIsClean(parse: Parser, s: Text, id: int)
    requires Clean(parse, s)
    ensures Clean(parse, Take(parse, s, id).1)
    decreases |s|
  {
    if |s| > 0 {
      TakeTurn(parse, s, id);
      RestIsClean(parse, Later(s), id);
    }
  }

  lemma BlankLineOk(parse: Parser, w: Text)
    requires BlanksSayNothing(parse) && BlankText(w)
    ensures LineOk(parse, w) && '\n' !in w && parse(w) == None
  {
    forall k | 0 < k < |w| ensures parse(w[..k]) == None {
      assert BlankText(w[..k]);
    }
  }

  lemma BlankLineFirst(parse: Parser, w: Text, x: Text, y: Text, id: int)
    requires BlanksSayNothing(parse) && Leftover(w, x, y)
    ensures Take(parse, x, id).0 == Take(parse, y, id).0
    ensures Take(parse, y, id).0.Some? ==> Take(parse, x, id).1 == Take(parse, y, id).1
    ensures Clean(parse, y) ==> Clean(parse, x)
  {
    BlankLineOk(parse, w);
    if x == w + ['\n'] + y {
      LineOf(w, y);
      TakeTurn(parse, x, id);
    } else if |x| > 0 {
      LastLineOf(x);
      TakeTurn(parse, x, id);
      assert Take(parse, y, id).0.None?;
    }
  }

  lemma SameTakesSame(parse: Parser, x: Text, y: Text, id: int)
    requires BlanksSayNothing(parse) && Same(x, y)
    ensures Take(parse, x, id).0 == Take(parse, y, id).0
    ensures Take(parse, y, id).0.Some? ==> Take(parse, x, id).1 == Take(parse, y, id).1
    ensures Clean(parse, y) ==> Clean(parse, x)
  {
    if x != y {
      var w :| Leftover(w, x, y);
      BlankLineFirst(parse, w, x, y, id);
    }
  }

  /** What the client sees: chunks arriving, and polls for the answer to a request. */
  datatype Event = Arrive(chunk: Text) | Poll(id: int)

  /** An answer is what the client parses of the line it has taken. */
  type Answer = (int, Option<Message>)

  function Play(parse: Parser, b: Text, evs: seq<Event>): seq<Answer>
    decreases |evs|
  {
    if |evs| == 0 then []
    else
      match evs[0]
      case Arrive(chunk) => Play(parse, b + chunk, evs[1..])
      case Poll(id) =>
        var (line, rest) := Take(parse, b, id);
        if line.Some? then [(id, parse(line.value))] + Play(parse, rest, evs[1..]) else Play(parse, b, evs[1..])
  }

  function Arrived(evs: seq<Event>): Text
    decreases |evs|
  {
    if |evs| == 0 then []
    else (if evs[0].Arrive? then evs[0].chunk else []) + Arrived(evs[1..])
  }

  /** The answers to these requests when the whole stream is there from the start. */
  function Ideal(parse: Parser, s: Text, ids: seq<int>): seq<Answer>
    decreases |ids|
  {
    if |ids| == 0 then []
    else
      var (line, rest) := Take(parse, s, ids[0]);
      if line.Some? then [(ids[0], parse(line.value))] + Ideal(parse, rest, ids[1..]) else Ideal(parse, s, ids[1..])
  }

  function Ids(answers: seq<Answer>): (r: seq<int>)
    ensures |r| == |answers|
  {
    seq(|answers|, i requires 0 <= i < |answers| => answers[i].0)
  }

  /** One poll that finds its answer, against the stream as a whole. */
  lemma PollAgrees(parse: Parser, b: Text, f: Text, y: Text, id: int)
    requires BlanksSayNothing(parse) && Clean(parse, y) && Same(b + f, y) && Take(parse, b, id).0.Some?
    ensures Take(parse, y, id).0.Some?
    ensures Meaning(parse, Take(parse, y, id).0) == Meaning(parse, Take(parse, b, id).0)
    ensures Same(Take(parse, b, id).1 + f, Take(parse, y, id).1) && Clean(parse, Take(parse, y, id).1)
  {
    SameTakesSame(parse, b + f, y, id);
    TakeExtends(parse, b, f, id);
    RestIsClean(parse, y, id);
  }

  /** The answers a client gets depend on the stream and on which requests are answered,
      in which order, and on nothing else: not on how the stream was cut into chunks, nor
      on when the polls came. */
  lemma {:induction false} AnswersAreIdeal(parse: Parser, b: Text, evs: seq<Event>, y: Text)
    requires BlanksSayNothing(parse) && Clean(parse, y) && Same(b + Arrived(evs), y)
    ensures Play(parse, b, evs) == Ideal(parse, y, Ids(Play(parse, b, evs)))
    decreases |evs|, 0
  {
    if |evs| > 0 {
      var later := evs[1..];
      match evs[0]
      case Arrive(chunk) =>
        assert b + Arrived(evs) == (b + chunk) + Arrived(later);
        AnswersAreIdeal(parse, b + chunk, later, y);
      case Poll(id) =>
        assert Arrived(evs) == Arrived(later);
        if Take(parse, b, id).0.None? {
          AnswersAreIdeal(parse, b, later, y);
        } else {
          AnsweredPoll(parse, b, later, y, id);
        }
    }
  }

  /** The case of a poll that finds its answer. */
  lemma {:induction false} AnsweredPoll(parse: Parser, b: Text, later: seq<Event>, y: Text, id: int)
    requires BlanksSayNothing(parse) && Clean(parse, y) && Same(b + Arrived(later), y) && Take(parse, b, id).0.Some?
    ensures var all := [(id, parse(Take(parse, b, id).0.value))] + Play(parse, Take(parse, b, id).1, later);
            all == Ideal(parse, y, Ids(all))
    decreases |later|, 1
  {
    var (line, rest) := Take(parse, b, id);
    PollAgrees(parse, b, Arrived(later), y, id);
    AnswersAreIdeal(parse, rest, later, Take(parse, y, id).1);
    IdealFirst(parse, y, id, Play(parse, rest, later));
  }

  lemma IdealFirst(parse: Parser, y: Text, id: int, more: seq<Answer>)
    requires Take(parse, y, id).0.Some? && more == Ideal(parse, Take(parse, y, id).1, Ids(more))
    ensures var all := [(id, parse(Take(parse, y, id).0.value))] + more; all == Ideal(parse, y, Ids(all))
  {
    var all := [(id, parse(Take(parse, y, id).0.value))] + more;
    assert Ids(all)[1..] == Ids(more);
  }

  lemma ChunksDoNotMatter(parse: Parser, evs: seq<Event>, evs': seq<Event>)
    requires BlanksSayNothing(parse) && Clean(parse, Arrived(evs)) && Arrived(evs) == Arrived(evs')
    requires Ids(Play(parse, [], evs)) == Ids(Play(parse, [], evs'))
    ensures Play(parse, [], evs) == Play(parse, [], evs')
  {
    assert [] + Arrived(evs) == Arrived(evs);
    AnswersAreIdeal(parse, [], evs, Arrived(evs));
    AnswersAreIdeal(parse, [], evs', Arrived(evs));
  }

  ghost predicate OnlyPolls(evs: seq<Event>) {
    forall i :: 0 <= i < |evs| ==> evs[i].Poll?
  }

  /** The ids asked for. */
  function Polled(evs: seq<Event>): seq<int> {
    if |evs| == 0 then [] else (if evs[0].Poll? then [evs[0].id] else []) + Polled(evs[1..])
  }

  /** Polls that come when the whole stream is there find all that it has for them. */
  lemma {:induction false} LatePollsAreDecided(parse: Parser, b: Text, evs: seq<Event>, y: Text)
    requires BlanksSayNothing(parse) && Clean(parse, y) && Same(b, y) && OnlyPolls(evs)
    ensures Play(parse, b, evs) == Ideal(parse, y, Polled(evs))
    decreases |evs|
  {
    if |evs| > 0 {
      var id := evs[0].id;
      assert Polled(evs)[0] == id && Polled(evs)[1..] == Polled(evs[1..]);
      SameTakesSame(parse, b, y, id);
      if Take(parse, b, id).0.Some? {
        RestIsClean(parse, y, id);
        LatePollsAreDecided(parse, Take(parse, b, id).1, evs[1..], Take(parse, y, id).1);
      } else {
        LatePollsAreDecided(parse, b, evs[1..], y);
      }
    }
  }

  /** A client that polls once the stream has arrived gets what the stream has for it,
      however the stream was cut. */
  lemma {:induction false} ArrivalsFirst(parse: Parser, b: Text, evs: seq<Event>, n: nat)
    requires BlanksSayNothing(parse) && Clean(parse, b + Arrived(evs)) && n <= |evs|
    requires (forall i :: 0 <= i < n ==> evs[i].Arrive?) && OnlyPolls(evs[n..])
    ensures Play(parse, b, evs) == Ideal(parse, b + Arrived(evs), Polled(evs))
    decreases |evs|
  {
    hide Take, Ideal;
    if n == 0 {
      assert evs[0..] == evs;
      PollsBringNothing(evs);
      assert b + [] == b;
      LatePollsAreDecided(parse, b, evs, b);
    } else {
      assert evs[n..] == evs[1..][n - 1..];
      assert b + Arrived(evs) == (b + evs[0].chunk) + Arrived(evs[1..]);
      assert Polled(evs) == Polled(evs[1..]);
      ArrivalsFirst(parse, b + evs[0].chunk, evs[1..], n - 1);
    }
  }

  lemma {:induction false} PollsBringNothing(evs: seq<Event>)
    requires OnlyPolls(evs)
    ensures Arrived(evs) == []
  {
    if |evs| > 0 {
      PollsBringNothing(evs[1..]);
    }
  }

  // ----- when a cut can change an answer -----

  /** Whether, up to the answer, each part of a line that is a message with the id says
      what the answer says. */
  predicate Steady(parse: Parser, s: Text, id: int, said: Option<Message>)
    decreases |s|
  {
    |s| == 0
    || ((forall k :: 0 < k < |Line(s)| && Matches(parse, Line(s)[..k], id) ==> parse(Line(s)[..k]) == said)
        && (Matches(parse, Line(s), id) || Steady(parse, Later(s), id, said)))
  }

  function AnswerTo(parse: Parser, b: Text, id: int): Option<Message> {
    Meaning(parse, Take(parse, b, id).0)
  }

  /** An answer found when the stream has arrived up to `k`. */
  ghost predicate AgreesAt(parse: Parser, s: Text, id: int, said: Option<Message>, k: nat) {
    k <= |s| && (AnswerTo(parse, s[..k], id).Some? ==> AnswerTo(parse, s[..k], id) == said)
  }

  ghost predicate AgreesAlways(parse: Parser, s: Text, id: int, said: Option<Message>) {
    forall k: nat :: k <= |s| ==> AgreesAt(parse, s, id, said, k)
  }

  /** For one id: wherever the stream is cut, an answer found in the part that has arrived
      is the one found in the whole, if and only if the stream is steady for that id. */
  lemma CutsAgreeExactly(parse: Parser, s: Text, id: int)
    ensures AgreesAlways(parse, s, id, AnswerTo(parse, s, id)) <==> Steady(parse, s, id, AnswerTo(parse, s, id))
  {
    AgreementIsSteadiness(parse, s, id, AnswerTo(parse, s, id));
  }

  lemma {:induction false} AgreementIsSteadiness(parse: Parser, s: Text, id: int, said: Option<Message>)
    requires AnswerTo(parse, s, id).Some? ==> said == AnswerTo(parse, s, id)
    ensures AgreesAlways(parse, s, id, said) <==> Steady(parse, s, id, said)
    decreases |s|
  {
    hide Eol;
    if |s| == 0 {
      forall k: nat | k <= |s| ensures AgreesAt(parse, s, id, said, k) {
        AnswerInLine(parse, s, id, k);
      }
    } else {
      AnswerPastLine(parse, s, id, |s|);
      assert s[..|s|] == s && Later(s)[..|Later(s)|] == Later(s);
      if !Matches(parse, Line(s), id) {
        AgreementIsSteadiness(parse, Later(s), id, said);
      }
      if Steady(parse, s, id, said) {
        SteadyAgrees(parse, s, id, said);
      } else if AgreesAlways(parse, s, id, said) {
        AgreementIsSteady(parse, s, id, said);
      }
    }
  }

  /** What has arrived of the first line is an answer or nothing. */
  lemma AnswerInLine(parse: Parser, s: Text, id: int, k: nat)
    requires k <= |Line(s)|
    ensures AnswerTo(parse, s[..k], id) == if Matches(parse, Line(s)[..k], id) then parse(Line(s)[..k]) else None
  {
    EolIsFirst(s);
    var b := s[..k];
    assert b == Line(s)[..k];
    LastLineOf(b);
    if k > 0 {
      TakeTurn(parse, b, id);
    }
  }

  /** Past it, the first line is the answer, or the later ones decide. */
  lemma AnswerPastLine(parse: Parser, s: Text, id: int, k: nat)
    requires |s| > 0 && |Line(s)| <= k <= |s|
    ensures AnswerTo(parse, s[..k], id)
         == if Matches(parse, Line(s), id) then parse(Line(s))
            else if |Line(s)| < k then AnswerTo(parse, Later(s)[..k - |Line(s)| - 1], id) else None
  {
    var n := |Line(s)|;
    EolIsFirst(s);
    if n < k {
      var rest := Later(s)[..k - n - 1];
      assert s[..k] == Line(s) + ['\n'] + rest;
      LineOf(Line(s), rest);
      TakeTurn(parse, s[..k], id);
    } else {
      AnswerInLine(parse, s, id, k);
      assert Line(s)[..n] == Line(s);
    }
  }

  lemma SteadyAgrees(parse: Parser, s: Text, id: int, said: Option<Message>)
    requires |s| > 0 && Steady(parse, s, id, said)
    requires Matches(parse, Line(s), id) ==> said == parse(Line(s))
    requires !Matches(parse, Line(s), id) ==> AgreesAlways(parse, Later(s), id, said)
    ensures AgreesAlways(parse, s, id, said)
  {
    forall k: nat | k <= |s| ensures AgreesAt(parse, s, id, said, k) {
      if k < |Line(s)| {
        AnswerInLine(parse, s, id, k);
      } else {
        AnswerPastLine(parse, s, id, k);
        assert !Matches(parse, Line(s), id) && |Line(s)| < k ==> AgreesAt(parse, Later(s), id, said, k - |Line(s)| - 1);
      }
    }
  }

  lemma AgreementIsSteady(parse: Parser, s: Text, id: int, said: Option<Message>)
    requires |s| > 0 && AgreesAlways(parse, s, id, said)
    requires !Matches(parse, Line(s), id) && AgreesAlways(parse, Later(s), id, said) ==> Steady(parse, Later(s), id, said)
    ensures Steady(parse, s, id, said)
  {
    hide AnswerTo;
    var n := |Line(s)|;
    forall k | 0 < k < n && Matches(parse, Line(s)[..k], id) ensures parse(Line(s)[..k]) == said {
      AnswerInLine(parse, s, id, k);
      assert AgreesAt(parse, s, id, said, k);
    }
    if !Matches(parse, Line(s), id) {
      EolIsFirst(s);
      forall k: nat | k <= |Later(s)| ensures AgreesAt(parse, Later(s), id, said, k) {
        if Whole(s) {
          AnswerPastLine(parse, s, id, n + 1 + k);
          assert AgreesAt(parse, s, id, said, n + 1 + k);
        } else {
          AnswerInLine(parse, Later(s), id, k);
        }
      }
    }
  }

  /** A parser that reads one digit and perhaps a letter, and whatever follows. */
  function Lenient(t: Text): Option<Message> {
    if |t| > 0 && t[0] == '1' then Some(Message(Some(1), ""))
    else if |t| > 1 && t[0] == '2' then Some(Message(Some(2), [t[1]]))
    else None
  }

  /** A stream whose first line holds two messages: cut between them, the second is taken
      for a line of its own, and the answer to request 2 is another. */
  lemma HalfALineIsTaken()
    ensures var s: Text := ['1', '2', 'x', '\n', '2', 'y']; var one := (1, Some(Message(Some(1), "")));
            && BlanksSayNothing(Lenient) && !Clean(Lenient, s)
            && Play(Lenient, [], [Arrive(s), Poll(1), Arrive([]), Poll(2)]) == [one, (2, Some(Message(Some(2), ['y'])))]
            && Play(Lenient, [], [Arrive(s[..1]), Poll(1), Arrive(s[1..]), Poll(2)]) == [one, (2, Some(Message(Some(2), ['x'])))]
  {
    hide Take, Play, Clean, LineOk;
    TwoInALineAreUnclean();
    var s: Text, x: Text, y: Text := ['1', '2', 'x', '\n', '2', 'y'], ['2', 'x'], ['2', 'y'];
    TakesLine(Lenient, ['1'] + x, y, 1);
    TakesLine(Lenient, y, [], 2);
    assert s == ['1'] + x + ['\n'] + y && y + [] == y;
    TwoAnswers(Lenient, s, [], 1, 2, ['1'] + x, y, y, []);
    TakesLine(Lenient, ['1'], [], 1);
    TakesLine(Lenient, x, y, 2);
    assert s[..1] == ['1'] && [] + s[1..] == x + ['\n'] + y;
    TwoAnswers(Lenient, s[..1], s[1..], 1, 2, ['1'], [], x, y);
  }

  lemma TwoInALineAreUnclean()
    ensures !Clean(Lenient, ['1', '2', 'x', '\n', '2', 'y'])
  {
    var line: Text := ['1', '2', 'x'];
    LineOf(line, ['2', 'y']);
    assert line + ['\n'] + ['2', 'y'] == ['1', '2', 'x', '\n', '2', 'y'];
    assert HasId(Lenient, line[..1]) && line[1..][0] == '2';
  }

  lemma TakesLine(parse: Parser, line: Text, rest: Text, id: int)
    requires Matches(parse, line, id) && '\n' !in line
    ensures Take(parse, line, id) == (Some(line), []) && Take(parse, line + ['\n'] + rest, id) == (Some(line), rest)
  {
    hide Take, Line;
    LastLineOf(line);
    LineOf(line, rest);
    TakeTurn(parse, line, id);
    TakeTurn(parse, line + ['\n'] + rest, id);
  }

  lemma TwoAnswers(parse: Parser, a: Text, c: Text, p: int, q: int, l: Text, left: Text, m: Text, end: Text)
    requires Take(parse, a, p) == (Some(l), left) && Take(parse, left + c, q) == (Some(m), end)
    ensures Play(parse, [], [Arrive(a), Poll(p), Arrive(c), Poll(q)]) == [(p, parse(l)), (q, parse(m))]
  {
    hide Take;
    var evs := [Arrive(a), Poll(p), Arrive(c), Poll(q)];
    assert evs[1..] == [Poll(p), Arrive(c), Poll(q)] && evs[2..] == [Arrive(c), Poll(q)] && evs[3..] == [Poll(q)];
    assert [] + a == a;
    assert Play(parse, [], evs) == Play(parse, a, evs[1..]);
    assert Play(parse, a, evs[1..]) == [(p, parse(l))] + Play(parse, left, evs[1..][1..]);
    assert evs[1..][1..] == evs[2..] && evs[2..][1..] == evs[3..];
    assert Play(parse, left, evs[2..]) == Play(parse, left + c, evs[3..]);
    assert Play(parse, left + c, evs[3..]) == [(q, parse(m))] + Play(parse, end, evs[3..][1..]);
  }

  /** Every answer is to the request it is returned for: one to an earlier request, whose
      time was up, never is. */
  lemma {:induction false} AnswersMatch(parse: Parser, b: Text, evs: seq<Event>, k: nat)
    requires k < |Play(parse, b, evs)|
    ensures var (id, said) := Play(parse, b, evs)[k]; said.Some? && said.value.id == Some(id)
    decreases |evs|
  {
    var later := evs[1..];
    match evs[0]
    case Arrive(chunk) => AnswersMatch(parse, b + chunk, later, k);
    case Poll(id) =>
      var (line, rest) := Take(parse, b, id);
      if line.None? {
        AnswersMatch(parse, b, later, k);
      } else if k == 0 {
        TakesFirst(parse, b, id);
      } else {
        AnswersMatch(parse, rest, later, k - 1);
      }
  }

  /** The events of one request: a poll after each chunk it reads. */
  function Polls(id: int, chunks: seq<Text>): seq<Event>
    decreases |chunks|
  {
    if |chunks| == 0 then [] else [Arrive(chunks[0]), Poll(id)] + Polls(id, chunks[1..])
  }

  /** rpc_stdio's loop plays exactly those events. */
  lemma {:induction false} AwaitPlays(parse: Parser, b: Text, id: int, chunks: seq<Text>, more: seq<Event>)
    ensures var (line, rest) := Await(parse, b, id, chunks);
            Play(parse, b, Polls(id, chunks[..Reads(parse, b, id, chunks)]) + more)
            == (if line.Some? then [(id, parse(line.value))] else []) + Play(parse, rest, more)
    decreases |chunks|
  {
    hide Play, Take;
    var n := Reads(parse, b, id, chunks);
    if |chunks| == 0 {
      assert Polls(id, chunks[..n]) + more == more;
    } else {
      var b' := b + chunks[0];
      var later := Polls(id, chunks[..n][1..]) + more;
      PlayRead(parse, b, chunks[0], id, later);
      assert Polls(id, chunks[..n]) + more == [Arrive(chunks[0]), Poll(id)] + later;
      if Take(parse, b', id).0.Some? {
        assert later == more;
      } else {
        assert chunks[..n][1..] == chunks[1..][..n - 1];
        AwaitPlays(parse, b', id, chunks[1..], more);
      }
    }
  }

  lemma PlayRead(parse: Parser, b: Text, chunk: Text, id: int, more: seq<Event>)
    ensures var (line, rest) := Take(parse, b + chunk, id);
            Play(parse, b, [Arrive(chunk), Poll(id)] + more)
            == if line.Some? then [(id, parse(line.value))] + Play(parse, rest, more) else Play(parse, b + chunk, more)
  {
    var evs := [Arrive(chunk), Poll(id)] + more;
    assert evs[1..] == [Poll(id)] + more;
    assert evs[1..][1..] == more;
  }
}
