/**
 The generators tools/gen_attachment_extractor.py and tools/gen_web_ui.py, which write a
 text as adjacent C string literals, and what a C compiler reads back.

 Reading back follows C11: sections 5.1.1.2 (no spliced lines, adjacent literals joined)
 and 6.4.4.4 and 6.4.5 (simple escapes).  Trigraphs and numeric escapes, which are never
 written on purpose, read as an error.
 */
module CLiterals {
  import opened Texts
  import opened Options

  // ----- escaping -----

  /** str.replace for a single character. */
  function Replace(s: Text, c: char, w: Text): Text {
    if |s| == 0 then [] else (if s[0] == c then w else [s[0]]) + Replace(s[1..], c, w)
  }

  /** What the attachment generator makes of a line, one replacement after the other. */
  function EscapeAll(s: Text): Text {
    Replace(Replace(Replace(Replace(s, '\\', ['\\', '\\']), '"', ['\\', '"']), '\n', ['\\', 'n']), '\r', ['\\', 'r'])
  }

  /** What the web UI generator makes of a line. */
  function EscapeQuotes(s: Text): Text {
    Replace(Replace(s, '\\', ['\\', '\\']), '"', ['\\', '"'])
  }

  /** One character, with or without its line breaks escaped. */
  function Escaped(c: char, breaks: bool): Text {
    if c == '\\' then ['\\', '\\']
    else if c == '"' then ['\\', '"']
    else if breaks && c == '\n' then ['\\', 'n']
    else if breaks && c == '\r' then ['\\', 'r']
    else [c]
  }

  function Mapped(s: Text, breaks: bool): Text {
    if |s| == 0 then [] else Escaped(s[0], breaks) + Mapped(s[1..], breaks)
  }

  lemma {:induction false} ReplaceConcat(s: Text, t: Text, c: char, w: Text)
    ensures Replace(s + t, c, w) == Replace(s, c, w) + Replace(t, c, w)
  {
    if |s| == 0 {
      assert s + t == t;
    } else {
      assert (s + t)[1..] == s[1..] + t;
      ReplaceConcat(s[1..], t, c, w);
    }
  }

  lemma ReplaceShort(s: Text, c: char, w: Text)
    requires 1 <= |s| <= 2
    ensures Replace(s, c, w) == (if s[0] == c then w else [s[0]]) + (if |s| == 1 then [] else if s[1] == c then w else [s[1]])
  {
    assert |s| == 2 ==> s[1..][1..] == [];
  }

  lemma QuotesOfChar(c: char)
    ensures EscapeQuotes([c]) == Escaped(c, false)
  {
    ReplaceShort([c], '\\', ['\\', '\\']);
    var a := if c == '\\' then ['\\', '\\'] else [c];
    ReplaceShort(a, '"', ['\\', '"']);
  }

  lemma AllOfChar(c: char)
    ensures EscapeAll([c]) == Escaped(c, true)
  {
    QuotesOfChar(c);
    var a := Escaped(c, false);
    ReplaceShort(a, '\n', ['\\', 'n']);
    var b := if c == '\n' then ['\\', 'n'] else a;
    assert Replace(a, '\n', ['\\', 'n']) == b;
    ReplaceShort(b, '\r', ['\\', 'r']);
  }

  lemma QuotesConcat(s: Text, t: Text)
    ensures EscapeQuotes(s + t) == EscapeQuotes(s) + EscapeQuotes(t)
  {
    ReplaceConcat(s, t, '\\', ['\\', '\\']);
    ReplaceConcat(Replace(s, '\\', ['\\', '\\']), Replace(t, '\\', ['\\', '\\']), '"', ['\\', '"']);
  }

  lemma AllConcat(s: Text, t: Text)
    ensures EscapeAll(s + t) == EscapeAll(s) + EscapeAll(t)
  {
    QuotesConcat(s, t);
    var a, b := EscapeQuotes(s), EscapeQuotes(t);
    ReplaceConcat(a, b, '\n', ['\\', 'n']);
    ReplaceConcat(Replace(a, '\n', ['\\', 'n']), Replace(b, '\n', ['\\', 'n']), '\r', ['\\', 'r']);
  }

  /** The chained replacements act on each character by itself: no replacement touches
      what another has put in. */
  lemma {:induction false} ChainIsMap(s: Text)
    ensures EscapeAll(s) == Mapped(s, true) && EscapeQuotes(s) == Mapped(s, false)
  {
    if |s| > 0 {
      ChainIsMap(s[1..]);
      assert s == [s[0]] + s[1..];
      AllConcat([s[0]], s[1..]);
      QuotesConcat([s[0]], s[1..]);
      AllOfChar(s[0]);
      QuotesOfChar(s[0]);
    }
  }

  // ----- reading C -----

  function Simple(c: char): Option<char> {
    if c == '\\' || c == '"' || c == '\'' || c == '?' then Some(c)
    else if c == 'n' then Some('\n')
    else if c == 'r' then Some('\r')
    else if c == 't' then Some('\t')
    else None
  }

  function Then(c: Text, r: Option<Text>): Option<Text> {
    if r.None? then None else Some(c + r.value)
  }

  lemma ThenNothing(r: Option<Text>)
    ensures Then([], r) == r
  {
    if r.Some? {
      assert [] + r.value == r.value;
    }
  }

  lemma ThenTwice(c: Text, d: Text, r: Option<Text>)
    ensures Then(c, Then(d, r)) == Then(c + d, r)
  {
    if r.Some? {
      assert c + (d + r.value) == c + d + r.value;
    }
  }

  /** The value of adjacent literals up to the semicolon; none if they are malformed. */
  function Outside(t: Text): Option<Text>
    decreases |t|
  {
    if |t| == 0 then None
    else if t[0] == ';' then Some([])
    else if t[0] == ' ' || t[0] == '\n' then Outside(t[1..])
    else if t[0] == '"' then Inside(t[1..])
    else None
  }

  /** The rest of a literal; a line must not end inside it. */
  function Inside(t: Text): Option<Text>
    decreases |t|
  {
    if |t| == 0 || t[0] == '\n' || t[0] == '\r' then None
    else if t[0] == '"' then Outside(t[1..])
    else if t[0] == '\\' then
      if |t| > 1 && Simple(t[1]).Some? then Then([Simple(t[1]).value], Inside(t[2..])) else None
    else Then([t[0]], Inside(t[1..]))
  }

  /** Translation phase 2 would join a line that ends in a backslash to the next. */
  predicate Spliced(t: Text) {
    exists i :: 0 <= i < |t| - 1 && t[i] == '\\' && t[i + 1] == '\n'
  }

  // ----- writing -----

  /** A literal on its own line; `ending` is what the generator puts at its end. */
  function LiteralLine(escaped: Text, ending: Text): Text {
    [' ', ' ', ' ', ' ', '"'] + escaped + ending + ['"', '\n']
  }

  function Terminator(): Text {
    [' ', ' ', ' ', ' ', ';', '\n']
  }

  /** The lines after the declaration of the array. */
  function Emitted(pieces: seq<Text>, breaks: bool, ending: Text): Text {
    if |pieces| == 0 then Terminator()
    else LiteralLine(Mapped(pieces[0], breaks), ending) + Emitted(pieces[1..], breaks, ending)
  }

  function Concat(pieces: seq<Text>, ending: Text): Text {
    if |pieces| == 0 then [] else pieces[0] + ending + Concat(pieces[1..], ending)
  }

  /** A piece that can stand in a literal. */
  predicate Plain(p: Text, breaks: bool) {
    breaks || forall i :: 0 <= i < |p| ==> p[i] != '\n' && p[i] != '\r'
  }

  lemma {:induction false} InsideOfMapped(p: Text, breaks: bool, rest: Text)
    requires Plain(p, breaks)
    ensures Inside(Mapped(p, breaks) + rest) == Then(p, Inside(rest))
  {
    hide Inside;
    if |p| == 0 {
      assert Mapped(p, breaks) + rest == rest;
      ThenNothing(Inside(rest));
    } else {
      InsideOfMapped(p[1..], breaks, rest);
      var later := Mapped(p[1..], breaks) + rest;
      assert Mapped(p, breaks) + rest == Escaped(p[0], breaks) + later;
      InsideOfChar(p[0], breaks, later);
      ThenTwice([p[0]], p[1..], Inside(rest));
      assert p == [p[0]] + p[1..];
    }
  }

  lemma InsideOfChar(c: char, breaks: bool, later: Text)
    requires breaks || (c != '\n' && c != '\r')
    ensures Inside(Escaped(c, breaks) + later) == Then([c], Inside(later))
  {
    var e := Escaped(c, breaks);
    if |e| == 1 {
      assert (e + later)[1..] == later;
    } else {
      assert (e + later)[2..] == later;
    }
  }

  lemma OutsideSkips(t: Text)
    ensures Outside([' ', ' ', ' ', ' '] + t) == Outside(t)
  {
    hide Outside;
    SkipSpace(t);
    SkipSpace([' '] + t);
    SkipSpace([' ', ' '] + t);
    SkipSpace([' ', ' ', ' '] + t);
    assert [' '] + ([' '] + t) == [' ', ' '] + t;
    assert [' '] + ([' ', ' '] + t) == [' ', ' ', ' '] + t;
    assert [' '] + ([' ', ' ', ' '] + t) == [' ', ' ', ' ', ' '] + t;
  }

  lemma SkipSpace(t: Text)
    ensures Outside([' '] + t) == Outside(t)
  {
    assert ([' '] + t)[1..] == t;
  }

  lemma CloseLiteral(rest: Text)
    ensures Inside(['"', '\n'] + rest) == Outside(rest)
  {
    assert (['"', '\n'] + rest)[1..] == ['\n'] + rest;
    assert (['\n'] + rest)[1..] == rest;
  }

  lemma OpenLiteral(t: Text)
    ensures Outside([' ', ' ', ' ', ' ', '"'] + t) == Inside(t)
  {
    OutsideSkips(['"'] + t);
    assert (['"'] + t)[1..] == t;
    assert [' ', ' ', ' ', ' '] + (['"'] + t) == [' ', ' ', ' ', ' ', '"'] + t;
  }

  lemma TerminatorEnds()
    ensures Outside(Terminator()) == Some([])
  {
    OutsideSkips([';', '\n']);
    assert Terminator() == [' ', ' ', ' ', ' '] + [';', '\n'];
  }

  /** A line with no ending of its own, and one that ends in an escaped line break. */
  predicate EndingOk(ending: Text, value: Text) {
    (ending == [] && value == []) || (ending == ['\\', 'n'] && value == ['\n'])
  }

  lemma InsideOfEnding(ending: Text, value: Text, rest: Text)
    requires EndingOk(ending, value)
    ensures Inside(ending + rest) == Then(value, Inside(rest))
  {
    if ending == [] {
      assert ending + rest == rest;
      ThenNothing(Inside(rest));
    } else {
      assert (ending + rest)[2..] == rest;
    }
  }

  lemma InsideOfLine(p: Text, breaks: bool, ending: Text, value: Text, rest: Text)
    requires EndingOk(ending, value) && Plain(p, breaks)
    ensures Inside(Mapped(p, breaks) + (ending + (['"', '\n'] + rest))) == Then(p, Then(value, Outside(rest)))
  {
    var closed := ['"', '\n'] + rest;
    CloseLiteral(rest);
    InsideOfEnding(ending, value, closed);
    InsideOfMapped(p, breaks, ending + closed);
  }

  lemma LineParts(escaped: Text, ending: Text, rest: Text)
    ensures LiteralLine(escaped, ending) + rest
         == [' ', ' ', ' ', ' ', '"'] + (escaped + (ending + (['"', '\n'] + rest)))
  {
  }

  /** One literal line. */
  lemma ReadsLine(p: Text, breaks: bool, ending: Text, value: Text, rest: Text)
    requires EndingOk(ending, value) && Plain(p, breaks)
    ensures Outside(LiteralLine(Mapped(p, breaks), ending) + rest) == Then(p, Then(value, Outside(rest)))
  {
    InsideOfLine(p, breaks, ending, value, rest);
    OpenLiteral(Mapped(p, breaks) + (ending + (['"', '\n'] + rest)));
    LineParts(Mapped(p, breaks), ending, rest);
  }

  /** What a compiler reads of what a generator writes: the pieces, each with its ending. */
  lemma {:induction false} ReadsBack(pieces: seq<Text>, breaks: bool, ending: Text, value: Text)
    requires EndingOk(ending, value) && forall i :: 0 <= i < |pieces| ==> Plain(pieces[i], breaks)
    ensures Outside(Emitted(pieces, breaks, ending)) == Some(Concat(pieces, value))
  {
    hide Outside;
    if |pieces| == 0 {
      TerminatorEnds();
    } else {
      ReadsBack(pieces[1..], breaks, ending, value);
      ReadsLine(pieces[0], breaks, ending, value, Emitted(pieces[1..], breaks, ending));
      var later := Concat(pieces[1..], value);
      assert pieces[0] + (value + later) == pieces[0] + value + later;
    }
  }

  // ----- no line is spliced -----

  predicate LinesEndClean(t: Text) {
    forall i :: 0 <= i < |t| && t[i] == '\n' ==> i > 0 && t[i - 1] != '\\'
  }

  lemma {:induction false} MappedHasNoBreak(p: Text, breaks: bool)
    requires Plain(p, breaks)
    ensures '\n' !in Mapped(p, breaks)
  {
    if |p| > 0 {
      MappedHasNoBreak(p[1..], breaks);
      assert breaks || (p[0] != '\n' && p[0] != '\r');
    }
  }

  lemma {:induction false} EmittedIsNotSpliced(pieces: seq<Text>, breaks: bool, ending: Text)
    requires EndingOk(ending, if ending == [] then [] else ['\n'])
    requires forall i :: 0 <= i < |pieces| ==> Plain(pieces[i], breaks)
    ensures LinesEndClean(Emitted(pieces, breaks, ending)) && !Spliced(Emitted(pieces, breaks, ending))
  {
    if |pieces| > 0 {
      EmittedIsNotSpliced(pieces[1..], breaks, ending);
      MappedHasNoBreak(pieces[0], breaks);
      LineEndsClean(Mapped(pieces[0], breaks), ending);
      CleanTogether(LiteralLine(Mapped(pieces[0], breaks), ending), Emitted(pieces[1..], breaks, ending));
    }
  }

  lemma LineEndsClean(escaped: Text, ending: Text)
    requires '\n' !in escaped && '\n' !in ending
    ensures LinesEndClean(LiteralLine(escaped, ending))
  {
    var body := [' ', ' ', ' ', ' ', '"'] + escaped + ending;
    assert LiteralLine(escaped, ending) == body + ['"', '\n'];
    assert '\n' !in body;
  }

  lemma CleanTogether(a: Text, b: Text)
    requires LinesEndClean(a) && LinesEndClean(b)
    ensures LinesEndClean(a + b)
  {
    forall i | 0 <= i < |a + b| && (a + b)[i] == '\n' ensures i > 0 && (a + b)[i - 1] != '\\' {
      if i >= |a| {
        assert b[i - |a|] == '\n';
      }
    }
  }

  // ----- the attachment generator -----

  /** splitlines with the line ends kept, for what counts as a line end; a carriage
      return takes a line feed after it along.  `line` is what has been read of a line. */
  function Pieces(s: Text, ends: char -> bool, line: Text): seq<Text>
    decreases |s|
  {
    if |s| == 0 then (if |line| == 0 then [] else [line])
    else if s[0] == '\r' && |s| > 1 && s[1] == '\n' then [line + s[..2]] + Pieces(s[2..], ends, [])
    else if ends(s[0]) then [line + s[..1]] + Pieces(s[1..], ends, [])
    else Pieces(s[1..], ends, line + s[..1])
  }

  lemma {:induction false} PiecesJoin(s: Text, ends: char -> bool, line: Text)
    ensures Concat(Pieces(s, ends, line), []) == line + s
    decreases |s|
  {
    if |s| == 0 {
      assert line + s == line;
    } else if s[0] == '\r' && |s| > 1 && s[1] == '\n' {
      PiecesJoin(s[2..], ends, []);
      ConcatHead(line + s[..2], Pieces(s[2..], ends, []), []);
      assert line + s[..2] + [] == line + s[..2];
      assert line + s[..2] + ([] + s[2..]) == line + s;
    } else if ends(s[0]) {
      PiecesJoin(s[1..], ends, []);
      ConcatHead(line + s[..1], Pieces(s[1..], ends, []), []);
      assert line + s[..1] + [] == line + s[..1];
      assert line + s[..1] + ([] + s[1..]) == line + s;
    } else {
      PiecesJoin(s[1..], ends, line + s[..1]);
      assert line + s[..1] + s[1..] == line + s;
    }
  }

  lemma ConcatHead(p: Text, rest: seq<Text>, ending: Text)
    ensures Concat([p] + rest, ending) == p + ending + Concat(rest, ending)
  {
    assert ([p] + rest)[1..] == rest;
  }

  lemma {:induction false} EmitOne(pieces: seq<Text>, p: Text, breaks: bool, ending: Text)
    ensures Written(pieces + [p], breaks, ending) == Written(pieces, breaks, ending) + LiteralLine(Mapped(p, breaks), ending)
  {
    assert (pieces + [p])[..|pieces|] == pieces;
  }

  /** The lines written so far. */
  function Written(pieces: seq<Text>, breaks: bool, ending: Text): Text {
    if |pieces| == 0 then []
    else Written(pieces[..|pieces| - 1], breaks, ending) + LiteralLine(Mapped(pieces[|pieces| - 1], breaks), ending)
  }

  lemma EmittedFirst(p: Text, b: seq<Text>, breaks: bool, ending: Text)
    ensures Emitted([p] + b, breaks, ending) == LiteralLine(Mapped(p, breaks), ending) + Emitted(b, breaks, ending)
  {
    assert ([p] + b)[1..] == b;
  }

  lemma {:induction false} WrittenIsEmitted(a: seq<Text>, b: seq<Text>, breaks: bool, ending: Text)
    ensures Written(a, breaks, ending) + Emitted(b, breaks, ending) == Emitted(a + b, breaks, ending)
  {
    if |a| == 0 {
      assert a + b == b;
    } else {
      var init, last := a[..|a| - 1], a[|a| - 1];
      var line, rest := LiteralLine(Mapped(last, breaks), ending), Emitted(b, breaks, ending);
      WrittenIsEmitted(init, [last] + b, breaks, ending);
      assert init + ([last] + b) == a + b;
      EmittedFirst(last, b, breaks, ending);
      assert (Written(init, breaks, ending) + line) + rest == Written(init, breaks, ending) + (line + rest);
    }
  }

  /** The loop of gen_attachment_extractor.py over the lines of the source.  A compiler
      reads the source back; there is a literal to read unless the source is empty. */
  method EmitAttachment(source: Text, ends: char -> bool) returns (out: Text)
    ensures Outside(out) == Some(source) && !Spliced(out)
    ensures '"' in out <==> source != []
  {
    var pieces := Pieces(source, ends, []);
    PiecesJoin(source, ends, []);
    assert [] + source == source;
    out := WriteLines(pieces, true, []);
    ReadsBack(pieces, true, [], []);
    EmittedIsNotSpliced(pieces, true, []);
    if |source| == 0 {
      assert out == Terminator();
      assert source == [];
    } else {
      assert |pieces| > 0;
      assert out == LiteralLine(Mapped(pieces[0], true), []) + Emitted(pieces[1..], true, []);
      assert out[4] == '"';
    }
  }

  /** The loop both generators have: a literal a line, and the closing semicolon. */
  method WriteLines(pieces: seq<Text>, breaks: bool, ending: Text) returns (out: Text)
    ensures out == Emitted(pieces, breaks, ending)
  {
    out := [];
    var i := 0;
    while i < |pieces|
      invariant i <= |pieces| && out == Written(pieces[..i], breaks, ending)
    {
      ChainIsMap(pieces[i]);
      var escaped := if breaks then EscapeAll(pieces[i]) else EscapeQuotes(pieces[i]);
      EmitOne(pieces[..i], pieces[i], breaks, ending);
      assert pieces[..i + 1] == pieces[..i] + [pieces[i]];
      out := out + ([' ', ' ', ' ', ' ', '"'] + escaped + ending + ['"', '\n']);
      i := i + 1;
    }
    out := out + [' ', ' ', ' ', ' ', ';', '\n'];
    WrittenIsEmitted(pieces, [], breaks, ending);
    assert pieces[..i] == pieces && pieces + [] == pieces;
  }

  // ----- the web UI generator -----

  /** A file read as text: every line end becomes a line feed. */
  function UniversalNewlines(raw: Text): (r: Text)
    ensures '\r' !in r
    decreases |raw|
  {
    if |raw| == 0 then []
    else if raw[0] == '\r' then
      ['\n'] + UniversalNewlines(if |raw| > 1 && raw[1] == '\n' then raw[2..] else raw[1..])
    else [raw[0]] + UniversalNewlines(raw[1..])
  }

  /** Reading with universal newlines: a carriage return, with a line feed right after it or
      alone, is one line feed, and every other character is itself. */
  lemma UniversalTexts(c: char, r: Text)
    ensures UniversalNewlines([]) == []
    ensures UniversalNewlines(['\r', '\n'] + r) == ['\n'] + UniversalNewlines(r)
    ensures (|r| > 0 ==> r[0] != '\n') ==> UniversalNewlines(['\r'] + r) == ['\n'] + UniversalNewlines(r)
    ensures c != '\r' ==> UniversalNewlines([c] + r) == [c] + UniversalNewlines(r)
  {
    assert (['\r', '\n'] + r)[2..] == r && (['\r'] + r)[1..] == r && ([c] + r)[1..] == r;
  }

  /** text.split('\n'). */
  function SplitLines(s: Text): (r: seq<Text>)
    ensures |r| > 0
  {
    if |s| == 0 then [[]]
    else if s[0] == '\n' then [[]] + SplitLines(s[1..])
    else var r := SplitLines(s[1..]); [[s[0]] + r[0]] + r[1..]
  }

  lemma {:induction false} SplitJoins(s: Text)
    ensures Concat(SplitLines(s), ['\n']) == s + ['\n']
  {
    if |s| > 0 {
      SplitJoins(s[1..]);
      var r := SplitLines(s[1..]);
      if s[0] == '\n' {
        ConcatHead([], r, ['\n']);
      } else {
        ConcatLonger(s[0], r, ['\n']);
      }
      assert [s[0]] + (s[1..] + ['\n']) == s + ['\n'];
    }
  }

  lemma ConcatLonger(c: char, r: seq<Text>, ending: Text)
    requires |r| > 0
    ensures Concat([[c] + r[0]] + r[1..], ending) == [c] + Concat(r, ending)
  {
    hide Concat;
    ConcatHead([c] + r[0], r[1..], ending);
    ConcatHead(r[0], r[1..], ending);
    assert [r[0]] + r[1..] == r;
  }

  lemma {:induction false} SplitIsPlain(s: Text, i: nat)
    requires '\r' !in s && i < |SplitLines(s)|
    ensures Plain(SplitLines(s)[i], false)
  {
    if |s| > 0 {
      var r := SplitLines(s[1..]);
      assert '\r' !in s[1..];
      if s[0] == '\n' {
        if i > 0 {
          SplitIsPlain(s[1..], i - 1);
        }
      } else {
        SplitIsPlain(s[1..], i);
      }
    }
  }

  /** The loop of gen_web_ui.py over the lines of the page.  A compiler reads the page
      back with one line feed after it. */
  method EmitWebUi(raw: Text) returns (out: Text)
    ensures Outside(out) == Some(UniversalNewlines(raw) + ['\n']) && !Spliced(out)
  {
    var text := UniversalNewlines(raw);
    var lines := SplitLines(text);
    out := WriteLines(lines, false, ['\\', 'n']);
    SplitJoins(text);
    forall i | 0 <= i < |lines| ensures Plain(lines[i], false) {
      SplitIsPlain(text, i);
    }
    ReadsBack(lines, false, ['\\', 'n'], ['\n']);
    EmittedIsNotSpliced(lines, false, ['\\', 'n']);
  }
}
