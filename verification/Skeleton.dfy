/**
 strip_comments of tools/var_hoist.py: the skeleton of a C text, in which comments and
 the contents of literals are blank and every other character is where it was.
 */
module Skeleton {

  /** Where the lexer is: which of the loop's four flags is set, if any. */
  datatype Mode = Code | Block | Line | Str | Chr

  /** Two characters that are read in one turn: a comment's opening or closing, or a
      backslash in a literal with whatever follows it. */
  predicate IsPair(a: char, b: char, m: Mode) {
    match m
    case Block => a == '*' && b == '/'
    case Line => false
    case Code => a == '/' && (b == '*' || b == '/')
    case _ => a == '\\'
  }

  function AfterPair(b: char, m: Mode): Mode {
    match m
    case Code => if b == '*' then Block else Line
    case Block => Code
    case _ => m
  }

  function AfterChar(c: char, m: Mode): Mode {
    match m
    case Code => if c == '"' then Str else if c == '\'' then Chr else Code
    case Block => Block
    case Line => if c == '\n' then Code else Line
    case _ => if c == Quote(m) then Code else m
  }

  /** The quote that closes a literal. */
  function Quote(m: Mode): char {
    if m == Str then '"' else '\''
  }

  function Blank(c: char): char {
    if c == '\n' then '\n' else ' '
  }

  /** What a character read on its own becomes in the skeleton. */
  function Kept(c: char, m: Mode): char {
    if m == Code || (m in {Str, Chr} && c == Quote(m)) then c else Blank(c)
  }

  predicate StartsPair(t: seq<char>, m: Mode) {
    |t| > 1 && IsPair(t[0], t[1], m)
  }

  /** The skeleton of the rest of a text, read from a mode of the lexer. */
  function Strip(t: seq<char>, m: Mode): (r: seq<char>)
    ensures |r| == |t|
  {
    if |t| == 0 then []
    else if StartsPair(t, m) then [' ', ' '] + Strip(t[2..], AfterPair(t[1], m))
    else [Kept(t[0], m)] + Strip(t[1..], AfterChar(t[0], m))
  }

  function StripComments(t: seq<char>): (r: seq<char>)
    ensures |r| == |t|
  {
    Strip(t, Code)
  }

  /** The loop of strip_comments, which overwrites a copy of the text in place. */
  method StripInPlace(text: seq<char>) returns (out: array<char>)
    ensures fresh(out) && out[..] == StripComments(text)
  {
    out := new char[|text|](i requires 0 <= i < |text| => text[i]);
    var i, mode := 0, Code;
    while i < |text|
      invariant i <= |text| && out.Length == |text| && fresh(out)
      invariant out[i..] == text[i..]
      invariant out[..i] == StripComments(text)[..i]
      invariant Strip(text[i..], mode) == StripComments(text)[i..]
    {
      i, mode := NextTurn(text, out, i, mode, StripComments(text));
    }
    assert out[..i] == out[..];
  }

  /** A turn of the loop, from where the copy agrees with the goal to where it next does. */
  method NextTurn(text: seq<char>, out: array<char>, i: nat, mode: Mode, ghost goal: seq<char>)
    returns (next: nat, mode': Mode)
    requires i < |text| == out.Length == |goal| && out[i..] == text[i..]
    requires out[..i] == goal[..i] && Strip(text[i..], mode) == goal[i..]
    modifies out
    ensures i < next <= |text| && out[next..] == text[next..]
    ensures out[..next] == goal[..next] && Strip(text[next..], mode') == goal[next..]
  {
    var width;
    width, mode' := Turn(text, out, i, mode);
    Advanced(text, goal, out[..], i, width, mode, mode');
    next := i + width;
  }

  lemma Advanced(text: seq<char>, goal: seq<char>, out: seq<char>, i: nat, width: nat, m: Mode, m': Mode)
    requires |goal| == |out| == |text| && i + width <= |text|
    requires out[..i] == goal[..i] && Strip(text[i..], m) == goal[i..]
    requires Strip(text[i..], m) == out[i..i + width] + Strip(text[i..][width..], m')
    ensures out[..i + width] == goal[..i + width] && Strip(text[i + width..], m') == goal[i + width..]
  {
    assert text[i..][width..] == text[i + width..];
    assert goal[i..][..width] == out[i..i + width] && goal[i..][width..] == Strip(text[i + width..], m');
    assert out[..i + width] == out[..i] + out[i..i + width];
    assert goal[..i + width] == goal[..i] + goal[i..][..width];
    assert goal[i + width..] == goal[i..][width..];
  }

  /** One turn of the loop: blank one character or two, and move on. */
  method Turn(text: seq<char>, out: array<char>, i: nat, mode: Mode) returns (width: nat, mode': Mode)
    requires i < |text| == out.Length && out[i..] == text[i..]
    modifies out
    ensures 1 <= width <= |text| - i
    ensures out[..i] == old(out[..i]) && out[i + width..] == text[i + width..]
    ensures Strip(text[i..], mode) == out[i..i + width] + Strip(text[i..][width..], mode')
  {
    var c := text[i];
    var pair := i + 1 < |text| && IsPair(c, text[i + 1], mode);
    assert pair == StartsPair(text[i..], mode);
    width, mode' := 1, mode;
    match mode {
      case Block =>
        if pair {
          width, mode' := 2, Code;
        } else if c != '\n' {
          out[i] := ' ';
        }
      case Line =>
        if c == '\n' {
          mode' := Code;
        } else {
          out[i] := ' ';
        }
      case Code =>
        if pair {
          width, mode' := 2, if text[i + 1] == '*' then Block else Line;
        } else if c == '"' {
          mode' := Str;
        } else if c == '\'' {
          mode' := Chr;
        }
      case _ =>
        if pair {
          width := 2;
        } else if c == Quote(mode) {
          mode' := Code;
        } else if c != '\n' {
          out[i] := ' ';
        }
    }
    if width == 2 {
      out[i], out[i + 1] := ' ', ' ';
      assert out[i..i + 2] == [' ', ' '];
    } else {
      assert out[i..i + 1] == [Kept(c, mode)];
    }
  }

  // ----- properties -----

  /** Characters only ever become spaces. */
  lemma {:induction false} OnlyBlanks(t: seq<char>, m: Mode, i: nat)
    requires i < |t|
    ensures Strip(t, m)[i] == t[i] || Strip(t, m)[i] == ' '
  {
    if StartsPair(t, m) {
      if i >= 2 {
        OnlyBlanks(t[2..], AfterPair(t[1], m), i - 2);
      }
    } else if i >= 1 {
      OnlyBlanks(t[1..], AfterChar(t[0], m), i - 1);
    }
  }

  /** The mode in which the skeleton is read again: comments have become code. */
  function Again(m: Mode): Mode {
    if m == Block || m == Line then Code else m
  }

  lemma ReadBlank(r: seq<char>, m: Mode)
    requires m != Block && m != Line
    ensures Strip([' '] + r, m) == [' '] + Strip(r, m)
    ensures Strip([' ', ' '] + r, m) == [' ', ' '] + Strip(r, m)
  {
    hide Strip;
    ReadOneBlank(r, m);
    ReadOneBlank([' '] + r, m);
    assert [' ', ' '] + r == [' '] + ([' '] + r);
  }

  lemma ReadOneBlank(r: seq<char>, m: Mode)
    requires m != Block && m != Line
    ensures Strip([' '] + r, m) == [' '] + Strip(r, m)
  {
    assert ([' '] + r)[1..] == r;
  }

  /** Reading a kept character again gives it back. */
  lemma ReadKept(c: char, r: seq<char>, m: Mode)
    requires m == Code && |r| > 0 ==> !IsPair(c, r[0], m)
    ensures var k := Kept(c, m); Strip([k] + r, Again(m)) == [k] + Strip(r, Again(AfterChar(c, m)))
  {
    hide AfterChar;
    var k := Kept(c, m);
    var s := [k] + r;
    assert s[1..] == r;
    KeptAgain(c, m);
    assert |r| > 0 ==> s[1] == r[0];
    if |r| > 0 && k != ' ' {
      assert !IsPair(k, r[0], Again(m));
    }
  }

  /** A kept character is kept the second time, and leads to the same mode. */
  lemma KeptAgain(c: char, m: Mode)
    ensures var k := Kept(c, m);
            && Kept(k, Again(m)) == k && AfterChar(k, Again(m)) == Again(AfterChar(c, m))
            && (k != '\\' || m == Code)
            && (Again(m) == Code && m != Code ==> k != '/')
  {
  }

  /** Stripping a skeleton changes nothing. */
  lemma {:induction false} StripTwice(t: seq<char>, m: Mode)
    ensures Strip(Strip(t, m), Again(m)) == Strip(t, m)
  {
    if |t| == 0 {
    } else if StartsPair(t, m) {
      var m' := AfterPair(t[1], m);
      StripTwice(t[2..], m');
      ReadBlank(Strip(t[2..], m'), Again(m));
    } else {
      var m' := AfterChar(t[0], m);
      StripTwice(t[1..], m');
      if |t| > 1 {
        OnlyBlanks(t[1..], m', 0);
      }
      ReadKept(t[0], Strip(t[1..], m'), m);
    }
  }

  /** The second character of a backslash pair in a literal is at `i`. */
  predicate Escaped(t: seq<char>, m: Mode, i: nat) {
    if |t| == 0 then false
    else if StartsPair(t, m) then
      if i < 2 then i == 1 && (m == Str || m == Chr) else Escaped(t[2..], AfterPair(t[1], m), i - 2)
    else i > 0 && Escaped(t[1..], AfterChar(t[0], m), i - 1)
  }

  /** Line breaks are kept, but for those a backslash escapes inside a literal. */
  lemma {:induction false} NewlinesKept(t: seq<char>, m: Mode, i: nat)
    requires i < |t|
    ensures Strip(t, m)[i] == '\n' <==> t[i] == '\n' && !Escaped(t, m, i)
  {
    if StartsPair(t, m) {
      if i >= 2 {
        NewlinesKept(t[2..], AfterPair(t[1], m), i - 2);
      }
    } else if i >= 1 {
      NewlinesKept(t[1..], AfterChar(t[0], m), i - 1);
    }
  }

  /** The text `"\<newline>"`: its line break is blanked. */
  lemma ABrokenStringLosesItsNewline()
    ensures StripComments(['"', '\\', '\n', '"']) == ['"', ' ', ' ', '"']
  {
    var t := ['"', '\\', '\n', '"'];
    assert t[1..] == ['\\', '\n', '"'];
    assert t[1..][2..] == ['"'];
  }
}
