/**
 strip_comments, line_map and off_line of tools/hw_audit.py: a second lexer for the same
 texts, which blanks comments only, and the lookup of line numbers in its output.
 */
module HwAudit {
  import opened Skeleton

  /** What a character read on its own becomes: literals are kept here. */
  function KeptHere(c: char, m: Mode): char {
    if m == Block || m == Line then Blank(c) else c
  }

  function PairHere(a: char, b: char, m: Mode): seq<char> {
    if m == Str || m == Chr then [a, b] else [' ', ' ']
  }

  /** The rest of a text with its comments blanked, read from a mode of the lexer. */
  function Decomment(t: seq<char>, m: Mode): (r: seq<char>)
    ensures |r| == |t|
  {
    if |t| == 0 then []
    else if StartsPair(t, m) then PairHere(t[0], t[1], m) + Decomment(t[2..], AfterPair(t[1], m))
    else [KeptHere(t[0], m)] + Decomment(t[1..], AfterChar(t[0], m))
  }

  /** The loop of strip_comments, which appends to a list of pieces. */
  method StripByAppending(text: seq<char>) returns (out: seq<char>)
    ensures out == Decomment(text, Code)
  {
    hide Decomment;
    out := [];
    var i, mode := 0, Code;
    while i < |text|
      invariant i <= |text|
      invariant out + Decomment(text[i..], mode) == Decomment(text, Code)
    {
      var piece, mode' := NextPiece(text, i, mode);
      assert text[i..][|piece|..] == text[i + |piece|..];
      out, i, mode := out + piece, i + |piece|, mode';
    }
  }

  method NextPiece(text: seq<char>, i: nat, mode: Mode) returns (piece: seq<char>, mode': Mode)
    requires i < |text|
    ensures 1 <= |piece| <= |text| - i
    ensures Decomment(text[i..], mode) == piece + Decomment(text[i..][|piece|..], mode')
  {
    var c := text[i];
    var pair := i + 1 < |text| && IsPair(c, text[i + 1], mode);
    assert pair == StartsPair(text[i..], mode);
    piece, mode' := [c], mode;
    match mode {
      case Block =>
        if pair {
          piece, mode' := [' ', ' '], Code;
        } else {
          piece := if c == '\n' then ['\n'] else [' '];
        }
      case Line =>
        if c == '\n' {
          mode' := Code;
        } else {
          piece := [' '];
        }
      case Code =>
        if pair {
          piece := [' ', ' '];
          mode' := if text[i + 1] == '*' then Block else Line;
        } else if c == '"' {
          mode' := Str;
        } else if c == '\'' {
          mode' := Chr;
        }
      case _ =>
        if pair {
          piece := [c, text[i + 1]];
        } else if c == Quote(mode) {
          mode' := Code;
        }
    }
  }

  // ----- properties -----

  lemma {:induction false} DecommentOnlyBlanks(t: seq<char>, m: Mode, i: nat)
    requires i < |t|
    ensures Decomment(t, m)[i] == t[i] || Decomment(t, m)[i] == ' '
  {
    if StartsPair(t, m) {
      if i >= 2 {
        DecommentOnlyBlanks(t[2..], AfterPair(t[1], m), i - 2);
      }
    } else if i >= 1 {
      DecommentOnlyBlanks(t[1..], AfterChar(t[0], m), i - 1);
    }
  }

  /** A pair of a literal is read as that pair again, by the skeleton's lexer too. */
  lemma ReadPair(a: char, b: char, r: seq<char>, m: Mode)
    requires IsPair(a, b, m) && (m == Str || m == Chr)
    ensures Strip([a, b] + r, m) == [' ', ' '] + Strip(r, m)
    ensures Decomment([a, b] + r, m) == [a, b] + Decomment(r, m)
  {
    assert ([a, b] + r)[2..] == r;
  }

  lemma ReadKeptHere(c: char, r: seq<char>, m: Mode)
    requires |r| > 0 && m != Block && m != Line ==> !IsPair(c, r[0], m)
    ensures var k := KeptHere(c, m);
            && Strip([k] + r, Again(m)) == [Kept(c, m)] + Strip(r, Again(AfterChar(c, m)))
            && Decomment([k] + r, Again(m)) == [k] + Decomment(r, Again(AfterChar(c, m)))
  {
    var s := [KeptHere(c, m)] + r;
    assert s[1..] == r;
    KeptHereAgain(c, m);
    assert |r| > 0 ==> s[1] == r[0];
    if |r| > 0 {
      assert !IsPair(s[0], r[0], Again(m));
    }
  }

  lemma KeptHereAgain(c: char, m: Mode)
    ensures var k := KeptHere(c, m);
            && Kept(k, Again(m)) == Kept(c, m) && AfterChar(k, Again(m)) == Again(AfterChar(c, m))
            && KeptHere(k, Again(m)) == k
            && (m == Block || m == Line ==> k != '/' && k != '\\')
  {
  }

  lemma DecommentBlank(r: seq<char>, m: Mode)
    requires m != Block && m != Line
    ensures Decomment([' '] + r, m) == [' '] + Decomment(r, m)
    ensures Decomment([' ', ' '] + r, m) == [' ', ' '] + Decomment(r, m)
  {
    hide PairHere, AfterPair;
    assert ([' '] + r)[1..] == r;
    var s := [' ', ' '] + r;
    assert s[1..] == [' '] + r;
  }

  /** The two lexers walk in step: the skeleton of the decommented text is the skeleton
      of the text, and decommenting twice changes nothing more. */
  lemma {:induction false} SameSkeleton(t: seq<char>, m: Mode)
    ensures Strip(Decomment(t, m), Again(m)) == Strip(t, m)
    ensures Decomment(Decomment(t, m), Again(m)) == Decomment(t, m)
  {
    if |t| == 0 {
    } else if StartsPair(t, m) {
      var m' := AfterPair(t[1], m);
      SameSkeleton(t[2..], m');
      var r := Decomment(t[2..], m');
      if m == Str || m == Chr {
        ReadPair(t[0], t[1], r, m);
      } else {
        ReadBlank(r, Again(m));
        DecommentBlank(r, Again(m));
      }
    } else {
      var m' := AfterChar(t[0], m);
      SameSkeleton(t[1..], m');
      var r := Decomment(t[1..], m');
      if |t| > 1 {
        DecommentOnlyBlanks(t[1..], m', 0);
      }
      ReadKeptHere(t[0], r, m);
    }
  }

  /** The other way round: there is nothing to decomment in a skeleton. */
  lemma {:induction false} NothingToDecomment(t: seq<char>, m: Mode)
    ensures Decomment(Strip(t, m), Again(m)) == Strip(t, m)
  {
    if |t| == 0 {
    } else if StartsPair(t, m) {
      NothingToDecomment(t[2..], AfterPair(t[1], m));
      DecommentBlank(Strip(t[2..], AfterPair(t[1], m)), Again(m));
    } else {
      var m' := AfterChar(t[0], m);
      NothingToDecomment(t[1..], m');
      if |t| > 1 {
        OnlyBlanks(t[1..], m', 0);
      }
      DecommentKept(t[0], Strip(t[1..], m'), m);
    }
  }

  lemma DecommentKept(c: char, r: seq<char>, m: Mode)
    requires m == Code && |r| > 0 ==> !IsPair(c, r[0], m)
    ensures var k := Kept(c, m); Decomment([k] + r, Again(m)) == [k] + Decomment(r, Again(AfterChar(c, m)))
  {
    hide Decomment, StartsPair;
    KeptAgain(c, m);
    NoPairAgain(c, r, m);
    DecommentChar(Kept(c, m), r, Again(m));
  }

  lemma NoPairAgain(c: char, r: seq<char>, m: Mode)
    requires m == Code && |r| > 0 ==> !IsPair(c, r[0], m)
    ensures !StartsPair([Kept(c, m)] + r, Again(m))
  {
    var s := [Kept(c, m)] + r;
    assert |r| > 0 ==> s[1] == r[0];
    KeptAgain(c, m);
  }

  lemma DecommentChar(k: char, r: seq<char>, m: Mode)
    requires !StartsPair([k] + r, m)
    ensures Decomment([k] + r, m) == [KeptHere(k, m)] + Decomment(r, AfterChar(k, m))
  {
    hide StartsPair, KeptHere, AfterChar;
    assert ([k] + r)[1..] == r;
  }

  /** This lexer keeps every line break, so its output has the text's line numbers. */
  lemma {:induction false} EveryNewlineKept(t: seq<char>, m: Mode, i: nat)
    requires i < |t|
    ensures Decomment(t, m)[i] == '\n' <==> t[i] == '\n'
  {
    if StartsPair(t, m) {
      if i >= 2 {
        EveryNewlineKept(t[2..], AfterPair(t[1], m), i - 2);
      }
    } else if i >= 1 {
      EveryNewlineKept(t[1..], AfterChar(t[0], m), i - 1);
    }
  }

  // ----- line numbers -----

  /** The offset at which each line starts. */
  function LineStarts(t: seq<char>): (r: seq<nat>)
    ensures |r| > 0
  {
    if |t| == 0 then [0]
    else LineStarts(t[..|t| - 1]) + if t[|t| - 1] == '\n' then [|t|] else []
  }

  method LineMap(text: seq<char>) returns (lines: seq<nat>)
    ensures lines == LineStarts(text)
  {
    lines := [0];
    var i := 0;
    while i < |text|
      invariant i <= |text| && lines == LineStarts(text[..i])
    {
      assert text[..i + 1][..i] == text[..i];
      if text[i] == '\n' {
        lines := lines + [i + 1];
      }
      i := i + 1;
    }
    assert text[..i] == text;
  }

  function Newlines(t: seq<char>): nat {
    if |t| == 0 then 0 else Newlines(t[..|t| - 1]) + if t[|t| - 1] == '\n' then 1 else 0
  }

  predicate Increasing(lines: seq<nat>) {
    forall i, j :: 0 <= i < j < |lines| ==> lines[i] < lines[j]
  }

  /** Line k starts after k line breaks, and the lines start in order. */
  lemma {:induction false} LineStartsCount(t: seq<char>)
    ensures Increasing(LineStarts(t)) && |LineStarts(t)| == Newlines(t) + 1 && LineStarts(t)[0] == 0
    ensures forall k :: 0 <= k < |LineStarts(t)| ==> LineStarts(t)[k] <= |t|
  {
    if |t| > 0 {
      LineStartsCount(t[..|t| - 1]);
    }
  }

  /** The starts at or before an offset are those of the text up to it. */
  lemma {:induction false} StartsBefore(t: seq<char>, off: nat)
    requires off <= |t|
    ensures |LineStarts(t[..off])| <= |LineStarts(t)| && LineStarts(t)[..|LineStarts(t[..off])|] == LineStarts(t[..off])
    ensures forall k :: |LineStarts(t[..off])| <= k < |LineStarts(t)| ==> LineStarts(t)[k] > off
  {
    if off == |t| {
      assert t[..off] == t;
    } else {
      assert t[..|t| - 1][..off] == t[..off];
      StartsBefore(t[..|t| - 1], off);
    }
  }

  /** off_line's search for the last line that starts at or before an offset. */
  method OffLine(lines: seq<nat>, off: nat) returns (line: nat)
    requires |lines| > 0 && lines[0] == 0 && Increasing(lines)
    ensures 1 <= line <= |lines| && lines[line - 1] <= off
    ensures forall k :: line <= k < |lines| ==> off < lines[k]
  {
    var lo, hi := 0, |lines| - 1;
    while lo < hi
      invariant 0 <= lo <= hi < |lines| && lines[lo] <= off
      invariant forall k :: hi < k < |lines| ==> off < lines[k]
    {
      var mid := (lo + hi + 1) / 2;
      if lines[mid] <= off {
        lo := mid;
      } else {
        hi := mid - 1;
      }
    }
    return lo + 1;
  }

  /** The number found is one more than the line breaks before the offset. */
  lemma OffLineCountsNewlines(t: seq<char>, off: nat, line: nat)
    requires off <= |t| && 1 <= line <= |LineStarts(t)| && LineStarts(t)[line - 1] <= off
    requires forall k :: line <= k < |LineStarts(t)| ==> off < LineStarts(t)[k]
    ensures line == Newlines(t[..off]) + 1
  {
    StartsBefore(t, off);
    LineStartsCount(t[..off]);
    var n := |LineStarts(t[..off])|;
    assert LineStarts(t)[n - 1] == LineStarts(t[..off])[n - 1];
  }
}
