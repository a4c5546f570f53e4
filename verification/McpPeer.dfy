/**
 The server's half of the stream: processMessage and the stdin handler of
 tools/mock_mcp_server.js, and both halves together.

 Reading a line (trimming it and parsing what is left) and writing a reply as a line of
 JSON are parameters.
 */
module McpPeer {
  import opened Texts
  import opened Options
  import opened StdioFraming

  datatype Method = Initialize | Initialized | ToolsList | ToolsCall | OtherMethod

  datatype Tool = Echo | Shutdown | OtherTool

  /** A message: something that is no object, or its id, its method if that is a string,
      and the tool its parameters name. */
  datatype Msg = NoObject | Msg(id: Option<int>, verb: Option<Method>, tool: Tool)

  datatype Result = ServerInfo | ToolList | Called(tool: Tool)

  datatype Reply = Reply(id: int, result: Result) | NotFound(id: int)

  /** handle: nothing for an unknown method. */
  function Handle(verb: Method, tool: Tool): Option<Result> {
    match verb
    case Initialize => Some(ServerInfo)
    case ToolsList => Some(ToolList)
    case ToolsCall => Some(Called(tool))
    case _ => None
  }

  function ProcessMessage(msg: Msg): Option<Reply> {
    if msg.NoObject? then None
    else if msg.verb == Some(Initialized) then None
    else if msg.verb.None? then None
    else
      var result := Handle(msg.verb.value, msg.tool);
      if msg.id.None? then None
      else if result.None? then Some(NotFound(msg.id.value))
      else Some(Reply(msg.id.value, result.value))
  }

  /** JSON-RPC 2.0, sections 4.1 and 5: a notification is never answered; a request with a
      method, other than one named like the notification of the handshake, is answered
      once, with its own id, by an error exactly if its method is unknown, and otherwise by
      what the method asks for.  The server stops after a call of its shutdown tool. */
  lemma RepliesToRequests(msg: Msg)
    ensures var r := ProcessMessage(msg);
            && (r.Some? <==> msg.Msg? && msg.id.Some? && msg.verb.Some? && msg.verb != Some(Initialized))
            && (r.Some? ==> r.value.id == msg.id.value)
            && (r.Some? ==> (r.value.NotFound? <==> msg.verb == Some(OtherMethod)))
            && (r.Some? && msg.verb == Some(Initialize) ==> r.value == Reply(msg.id.value, ServerInfo))
            && (r.Some? && msg.verb == Some(ToolsList) ==> r.value == Reply(msg.id.value, ToolList))
            && (r.Some? && msg.verb == Some(ToolsCall) ==> r.value == Reply(msg.id.value, Called(msg.tool)))
            && (r.Some? ==> (ShutsDown(r.value) <==> msg.verb == Some(ToolsCall) && msg.tool == Shutdown))
  {
  }

  predicate ShutsDown(r: Reply) {
    r.Reply? && r.result == Called(Shutdown)
  }

  type Reader = Text -> Option<Msg>

  datatype Peer = Peer(buf: Text, out: seq<Reply>, running: bool)

  /** One line of the handler's loop. */
  function Heard(read: Reader, p: Peer, line: Text): Peer {
    var msg := read(line);
    var reply := if msg.Some? then ProcessMessage(msg.value) else None;
    if reply.None? then p
    else if ShutsDown(reply.value) then Peer([], p.out + [reply.value], false)
    else p.(out := p.out + [reply.value])
  }

  /** The handler's loop over the complete lines of its buffer; once the process has
      exited, its buffer is gone. */
  function Drained(read: Reader, p: Peer): Peer
    decreases |p.buf|
  {
    if !p.running || !Whole(p.buf) then p
    else Drained(read, Heard(read, p.(buf := Later(p.buf)), Line(p.buf)))
  }

  function Feed(read: Reader, p: Peer, chunk: Text): Peer {
    if p.running then Drained(read, p.(buf := p.buf + chunk)) else p
  }

  class PeerProcess {
    var buf: Text
    var out: seq<Reply>
    var running: bool

    function View(): Peer
      reads this
    {
      Peer(buf, out, running)
    }

    constructor ()
      ensures View() == Peer([], [], true)
    {
      buf, out, running := [], [], true;
    }

    /** process.stdin.on('data'). */
    method OnData(read: Reader, chunk: Text)
      modifies this
      ensures View() == Feed(read, old(View()), chunk)
    {
      hide Eol;
      if !running {
        return;
      }
      buf := buf + chunk;
      var idx := FindEol(buf, 0);
      while idx < |buf|
        invariant running && idx == Eol(buf, 0)
        invariant Drained(read, View()) == Feed(read, old(View()), chunk)
        decreases |buf|
      {
        ghost var was := View();
        var line := buf[..idx];
        buf := buf[idx + 1..];
        var msg := read(line);
        var reply := if msg.Some? then ProcessMessage(msg.value) else None;
        if reply.Some? {
          out := out + [reply.value];
          if ShutsDown(reply.value) {
            buf, running := [], false;
          }
        }
        assert View() == Heard(read, was.(buf := Later(was.buf)), Line(was.buf));
        if !running {
          return;
        }
        idx := FindEol(buf, 0);
      }
    }
  }

  // ----- how the input is cut into chunks does not matter -----

  lemma HeardKeepsBuf(read: Reader, p: Peer, line: Text, f: Text)
    requires p.running
    ensures var q := Heard(read, p, line); var r := Heard(read, p.(buf := p.buf + f), line);
            if q.running then r == q.(buf := p.buf + f) && q.buf == p.buf else r == q && !q.running
  {
  }

  lemma {:induction false} DrainInTwo(read: Reader, p: Peer, f: Text)
    requires p.running
    ensures Feed(read, Drained(read, p), f) == Drained(read, p.(buf := p.buf + f))
    decreases |p.buf|
  {
    if Whole(p.buf) {
      WholeExtends(p.buf, f);
      var next := p.(buf := Later(p.buf));
      var line := Line(p.buf);
      HeardKeepsBuf(read, next, line, f);
      var q := Heard(read, next, line);
      if q.running {
        DrainInTwo(read, q, f);
      }
    }
  }

  /** Two chunks are as good as one. */
  lemma FeedInTwo(read: Reader, p: Peer, a: Text, b: Text)
    ensures Feed(read, Feed(read, p, a), b) == Feed(read, p, a + b)
  {
    if p.running {
      DrainInTwo(read, p.(buf := p.buf + a), b);
      assert p.buf + a + b == p.buf + (a + b);
    }
  }

  function FeedAll(read: Reader, p: Peer, chunks: seq<Text>): Peer {
    if |chunks| == 0 then p else Feed(read, FeedAll(read, p, chunks[..|chunks| - 1]), chunks[|chunks| - 1])
  }

  function Joined(chunks: seq<Text>): Text {
    if |chunks| == 0 then [] else Joined(chunks[..|chunks| - 1]) + chunks[|chunks| - 1]
  }

  /** What the server answers depends on what it is sent, not on how that is cut up. */
  lemma {:induction false} ServerIgnoresChunks(read: Reader, p: Peer, chunks: seq<Text>)
    requires !Whole(p.buf)
    ensures FeedAll(read, p, chunks) == Feed(read, p, Joined(chunks))
  {
    if |chunks| == 0 {
      assert p.buf + [] == p.buf;
    } else {
      var init, last := chunks[..|chunks| - 1], chunks[|chunks| - 1];
      ServerIgnoresChunks(read, p, init);
      FeedInTwo(read, p, Joined(init), last);
    }
  }

  // ----- what the server makes of a series of messages -----

  type Asker = Msg -> Text

  /** A message is written as one line, which is read as that message. */
  ghost predicate Readable(ask: Asker, read: Reader) {
    forall m: Msg :: '\n' !in ask(m) && read(ask(m)) == Some(m)
  }

  function Sent(ask: Asker, ms: seq<Msg>): Text {
    if |ms| == 0 then [] else ask(ms[0]) + ['\n'] + Sent(ask, ms[1..])
  }

  function Said(m: Msg): seq<Reply> {
    if ProcessMessage(m).Some? then [ProcessMessage(m).value] else []
  }

  predicate Ends(m: Msg) {
    ProcessMessage(m).Some? && ShutsDown(ProcessMessage(m).value)
  }

  /** The replies in order, up to one that ends the server. */
  function Replies(ms: seq<Msg>): seq<Reply> {
    if |ms| == 0 then [] else Said(ms[0]) + if Ends(ms[0]) then [] else Replies(ms[1..])
  }

  lemma HeardSays(read: Reader, p: Peer, line: Text, m: Msg)
    requires p.running && read(line) == Some(m)
    ensures var q := Heard(read, p, line);
            q.out == p.out + Said(m) && q.running == !Ends(m) && (q.running ==> q.buf == p.buf)
  {
    hide ProcessMessage, ShutsDown;
    assert p.out + [] == p.out;
  }

  lemma DrainsLine(read: Reader, p: Peer, line: Text, rest: Text)
    requires p.running && '\n' !in line && p.buf == line + ['\n'] + rest
    ensures Drained(read, p) == Drained(read, Heard(read, p.(buf := rest), line))
    ensures !Heard(read, p.(buf := rest), line).running ==> Drained(read, p) == Heard(read, p.(buf := rest), line)
  {
    LineOf(line, rest);
  }

  lemma DrainsNothing(read: Reader, p: Peer)
    requires p.buf == []
    ensures Drained(read, p) == p
  {
    EolIsFirst(p.buf);
  }

  lemma FirstReplies(ms: seq<Msg>)
    ensures |ms| == 0 ==> Replies(ms) == []
    ensures |ms| > 0 && Ends(ms[0]) ==> Replies(ms) == Said(ms[0])
    ensures |ms| > 0 && !Ends(ms[0]) ==> Replies(ms) == Said(ms[0]) + Replies(ms[1..])
  {
    hide Said, Ends;
  }

  lemma Regroup(a: seq<Reply>, b: seq<Reply>, c: seq<Reply>)
    ensures a + b + c == a + (b + c) && a + [] == a
  {
  }

  lemma {:induction false} DrainsToReplies(ask: Asker, read: Reader, p: Peer, ms: seq<Msg>)
    requires Readable(ask, read) && p.running && p.buf == Sent(ask, ms)
    ensures Drained(read, p).out == p.out + Replies(ms)
    decreases |ms|
  {
    hide Drained, Heard, Said, Ends, Replies;
    FirstReplies(ms);
    if |ms| == 0 {
      DrainsNothing(read, p);
      Regroup(p.out, [], []);
    } else {
      var rest := Sent(ask, ms[1..]);
      var q := Heard(read, p.(buf := rest), ask(ms[0]));
      DrainsLine(read, p, ask(ms[0]), rest);
      HeardSays(read, p.(buf := rest), ask(ms[0]), ms[0]);
      if q.running {
        DrainsToReplies(ask, read, q, ms[1..]);
        Regroup(p.out, Said(ms[0]), Replies(ms[1..]));
      }
    }
  }

  lemma FeedToEmpty(read: Reader, p: Peer, text: Text)
    requires p.running && p.buf == []
    ensures Feed(read, p, text) == Drained(read, p.(buf := text))
  {
    assert p.buf + text == text;
  }

  lemma FeedAllToEmpty(read: Reader, p: Peer, chunks: seq<Text>)
    requires p.running && p.buf == []
    ensures FeedAll(read, p, chunks) == Drained(read, p.(buf := Joined(chunks)))
  {
    EolIsFirst(p.buf);
    ServerIgnoresChunks(read, p, chunks);
    FeedToEmpty(read, p, Joined(chunks));
  }

  /** However the requests are cut up on their way, the server answers them in order. */
  lemma ServerAnswersInOrder(ask: Asker, read: Reader, p: Peer, ms: seq<Msg>, chunks: seq<Text>)
    requires Readable(ask, read) && Joined(chunks) == Sent(ask, ms)
    requires p.running && p.buf == []
    ensures FeedAll(read, p, chunks).out == p.out + Replies(ms)
  {
    FeedAllToEmpty(read, p, chunks);
    DrainsToReplies(ask, read, p.(buf := Sent(ask, ms)), ms);
  }

  /** One reply a request, in order, when all messages are requests that are answered and
      none before the last ends the server. */
  lemma {:induction false} OneReplyARequest(ms: seq<Msg>)
    requires forall i :: 0 <= i < |ms| ==> ProcessMessage(ms[i]).Some?
    requires forall i :: 0 <= i < |ms| - 1 ==> !ShutsDown(ProcessMessage(ms[i]).value)
    ensures |Replies(ms)| == |ms| && forall i :: 0 <= i < |ms| ==> Replies(ms)[i] == ProcessMessage(ms[i]).value
  {
    hide ProcessMessage;
    if |ms| > 0 {
      if |ms| == 1 {
        assert Replies(ms[1..]) == [];
      }
      OneReplyARequest(ms[1..]);
    }
  }

  /** Every reply is to one of the messages, later replies to later messages. */
  lemma {:induction false} ReplyTo(ms: seq<Msg>, j: nat) returns (i: nat)
    requires j < |Replies(ms)|
    ensures i < |ms| && ProcessMessage(ms[i]) == Some(Replies(ms)[j])
  {
    hide ProcessMessage, Ends, Replies;
    FirstReplies(ms);
    var n := |Said(ms[0])|;
    if j < n {
      i := 0;
    } else {
      var k := ReplyTo(ms[1..], j - n);
      i := k + 1;
    }
  }

  /** No two messages carry the same id. */
  predicate IdsDiffer(ms: seq<Msg>) {
    forall i, j :: 0 <= i < j < |ms| && ms[i].Msg? && ms[j].Msg? && ms[i].id.Some? ==> ms[i].id != ms[j].id
  }

  lemma {:induction false} RepliesDiffer(ms: seq<Msg>, i: nat, j: nat)
    requires IdsDiffer(ms) && i < j < |Replies(ms)|
    ensures Replies(ms)[i].id != Replies(ms)[j].id
  {
    hide ProcessMessage, Ends, Replies;
    FirstReplies(ms);
    var n := |Said(ms[0])|;
    if i >= n {
      RepliesDiffer(ms[1..], i - n, j - n);
    } else {
      var k := ReplyTo(ms[1..], j - 1);
      RepliesToRequests(ms[0]);
      RepliesToRequests(ms[1..][k]);
      assert ms[1..][k] == ms[k + 1];
    }
  }

  // ----- both halves -----

  type Writer = Reply -> Text

  /** A reply is written as one line and parsed with its id, and a part of the line is a
      message only if it is the same and blanks are all that follow. */
  ghost predicate Faithful(write: Writer, parse: Parser) {
    forall r: Reply :: var line := write(r);
      |line| > 0 && '\n' !in line && parse(line).Some? && parse(line).value.id == Some(r.id) && LineOk(parse, line)
  }

  /** What the server has written. */
  function Wire(write: Writer, out: seq<Reply>): Text {
    if |out| == 0 then [] else write(out[0]) + ['\n'] + Wire(write, out[1..])
  }

  lemma WireLine(write: Writer, parse: Parser, out: seq<Reply>)
    requires Faithful(write, parse) && |out| > 0
    ensures var s := Wire(write, out);
            |s| > 0 && Whole(s) && Line(s) == write(out[0]) && Later(s) == Wire(write, out[1..])
  {
    LineOf(write(out[0]), Wire(write, out[1..]));
  }

  lemma {:induction false} WireIsClean(write: Writer, parse: Parser, out: seq<Reply>)
    requires Faithful(write, parse)
    ensures Clean(parse, Wire(write, out))
  {
    if |out| > 0 {
      WireLine(write, parse, out);
      WireIsClean(write, parse, out[1..]);
    }
  }

  /** The response found is the first reply with the id, and what is left is the replies
      after it; nothing is found only if there is none. */
  lemma {:induction false} TakeOfWire(write: Writer, parse: Parser, out: seq<Reply>, id: int) returns (j: nat)
    requires Faithful(write, parse)
    ensures j <= |out| && forall i :: 0 <= i < j ==> out[i].id != id
    ensures var (line, rest) := Take(parse, Wire(write, out), id);
            if j < |out| then out[j].id == id && line == Some(write(out[j])) && rest == Wire(write, out[j + 1..])
            else line == None
  {
    if |out| == 0 {
      j := 0;
    } else {
      WireLine(write, parse, out);
      TakeTurn(parse, Wire(write, out), id);
      if out[0].id == id {
        j := 0;
      } else {
        var k := TakeOfWire(write, parse, out[1..], id);
        j := k + 1;
        assert j < |out| ==> out[1..][k] == out[j] && out[1..][k + 1..] == out[j + 1..];
        forall i | 0 <= i < j ensures out[i].id != id {
          assert i > 0 ==> out[i] == out[1..][i - 1];
        }
      }
    }
  }

  predicate Replied(write: Writer, parse: Parser, out: seq<Reply>, a: Answer) {
    exists j :: 0 <= j < |out| && out[j].id == a.0 && parse(write(out[j])) == a.1
  }

  lemma {:induction false} IdealIsReplied(write: Writer, parse: Parser, out: seq<Reply>, ids: seq<int>, k: nat)
    requires Faithful(write, parse) && k < |Ideal(parse, Wire(write, out), ids)|
    ensures Replied(write, parse, out, Ideal(parse, Wire(write, out), ids)[k])
    decreases |ids|
  {
    var j := TakeOfWire(write, parse, out, ids[0]);
    if j == |out| {
      IdealIsReplied(write, parse, out, ids[1..], k);
    } else if k > 0 {
      IdealIsReplied(write, parse, out[j + 1..], ids[1..], k - 1);
      RepliedLater(write, parse, out, j + 1, Ideal(parse, Wire(write, out), ids)[k]);
    }
  }

  lemma RepliedLater(write: Writer, parse: Parser, out: seq<Reply>, j: nat, a: Answer)
    requires j <= |out| && Replied(write, parse, out[j..], a)
    ensures Replied(write, parse, out, a)
  {
    var i :| 0 <= i < |out[j..]| && out[j..][i].id == a.0 && parse(write(out[j..][i])) == a.1;
    assert out[j + i].id == a.0 && parse(write(out[j + i])) == a.1;
  }

  /** However the server's output reaches the client, and whichever requests the client
      gives up, each answer it takes means what one of the replies with its id means. */
  lemma AnswersAreReplies(write: Writer, parse: Parser, out: seq<Reply>, evs: seq<Event>, k: nat)
    requires Faithful(write, parse) && BlanksSayNothing(parse)
    requires Arrived(evs) == Wire(write, out) && k < |Play(parse, [], evs)|
    ensures Replied(write, parse, out, Play(parse, [], evs)[k])
  {
    WireIsClean(write, parse, out);
    assert [] + Arrived(evs) == Arrived(evs);
    AnswersAreIdeal(parse, [], evs, Wire(write, out));
    IdealIsReplied(write, parse, out, Ids(Play(parse, [], evs)), k);
  }

  /** The whole way: requests with distinct ids, cut up in any way, are processed by the
      server; its replies, cut up in any way, reach the client; whichever requests the
      client gives up, each answer it takes is what the server made of the one message
      with that id. */
  lemma EveryAnswerIsTheReply(ask: Asker, read: Reader, write: Writer, parse: Parser,
                              ms: seq<Msg>, chunks: seq<Text>, evs: seq<Event>, k: nat) returns (i: nat)
    requires Readable(ask, read) && Faithful(write, parse) && BlanksSayNothing(parse) && IdsDiffer(ms)
    requires Joined(chunks) == Sent(ask, ms)
    requires Arrived(evs) == Wire(write, FeedAll(read, Peer([], [], true), chunks).out)
    requires k < |Play(parse, [], evs)|
    ensures i < |ms|
    ensures var (id, said) := Play(parse, [], evs)[k]; var r := ProcessMessage(ms[i]);
            && ms[i].Msg? && ms[i].id == Some(id) && r.Some? && r.value.id == id && said == parse(write(r.value))
            && (forall j :: 0 <= j < |ms| && ms[j].Msg? && ms[j].id == Some(id) ==> j == i)
  {
    ServerAnswersInOrder(ask, read, Peer([], [], true), ms, chunks);
    var out := Replies(ms);
    assert [] + out == out;
    AnswersAreReplies(write, parse, out, evs, k);
    var a := Play(parse, [], evs)[k];
    var j :| 0 <= j < |out| && out[j].id == a.0 && parse(write(out[j])) == a.1;
    i := ReplyTo(ms, j);
    RepliesToRequests(ms[i]);
  }
}
