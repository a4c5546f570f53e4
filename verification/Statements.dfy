/**
 The brace matching of find_functions and split_top_statements of tools/var_hoist.py,
 over the skeleton of a text.
 */
module Statements {
  import opened Texts
  import opened Options

  // ----- nesting -----

  /** Braces opened less braces closed from `o` up to `k`. */
  function Depth(code: Text, o: nat, k: nat): int
    requires k <= |code|
  {
    if k <= o then 0
    else Depth(code, o, k - 1) + if code[k - 1] == '{' then 1 else if code[k - 1] == '}' then -1 else 0
  }

  /** Parentheses open at `k`, never below none. */
  function Parens(code: Text, o: nat, k: nat): nat
    requires k <= |code|
  {
    if k <= o then 0
    else
      var p := Parens(code, o, k - 1);
      if code[k - 1] == '(' then p + 1
      else if code[k - 1] == ')' then (if p > 0 then p - 1 else 0)
      else p
  }

  /** The brace at `close` is the one that matches that at `open`. */
  ghost predicate Matched(code: Text, open: nat, close: nat) {
    && open < close < |code| && code[open] == '{' && code[close] == '}'
    && (forall k :: open < k <= close ==> Depth(code, open, k) > 0)
    && Depth(code, open, close + 1) == 0
  }

  /** The search of find_functions for the matching brace. */
  method MatchBrace(code: Text, open: nat) returns (close: Option<nat>)
    requires open < |code| && code[open] == '{'
    ensures close.Some? ==> Matched(code, open, close.value)
    ensures close.None? ==> forall k :: open < k <= |code| ==> Depth(code, open, k) > 0
  {
    var depth, k := 0, open;
    while k < |code|
      invariant open <= k <= |code| && depth == Depth(code, open, k)
      invariant forall i :: open < i <= k ==> Depth(code, open, i) > 0
    {
      if code[k] == '{' {
        depth := depth + 1;
      } else if code[k] == '}' {
        depth := depth - 1;
        if depth == 0 {
          return Some(k);
        }
      }
      k := k + 1;
    }
    return None;
  }

  lemma {:induction false} DepthFrom(code: Text, o: nat, a: nat, k: nat)
    requires o <= a <= k <= |code|
    ensures Depth(code, a, k) == Depth(code, o, k) - Depth(code, o, a)
  {
    if a < k {
      DepthFrom(code, o, a, k - 1);
    }
  }

  /** Inside matched braces the depth, counted from the body's start, is never negative
      and is 0 at its end. */
  lemma BodyDepth(code: Text, open: nat, close: nat, k: nat)
    requires Matched(code, open, close) && open < k <= close
    ensures Depth(code, open + 1, k) >= 0
    ensures k == close ==> Depth(code, open + 1, k) == 0
  {
    DepthFrom(code, open, open + 1, k);
    assert Depth(code, open, open + 1) == 1;
    assert Depth(code, open, close + 1) == Depth(code, open, close) - 1;
  }

  // ----- the statements -----

  /** A statement may start here: a brace, or anything else outside parentheses. */
  predicate Starts(code: Text, o: nat, k: nat)
    requires k < |code|
  {
    && Depth(code, o, k) == 0 && code[k] != '}'
    && (code[k] == '{' || (Parens(code, o, k + 1) == 0 && code[k] != ';' && !IsWhite(code[k])))
  }

  /** A statement ends here: a semicolon or closing brace at the top, outside parentheses. */
  predicate Ends(code: Text, o: nat, k: nat)
    requires k < |code|
  {
    && (code[k] == ';' || code[k] == '}')
    && Depth(code, o, k + 1) == 0 && Parens(code, o, k + 1) == 0
  }

  function SkipWhite(code: Text, i: nat, e: nat): (j: nat)
    requires i <= e <= |code|
    ensures i <= j <= e
    decreases e - i
  {
    if i < e && IsWhite(code[i]) then SkipWhite(code, i + 1, e) else i
  }

  function NextStart(code: Text, o: nat, e: nat, i: nat): (a: nat)
    requires i <= e <= |code|
    ensures i <= a <= e
    decreases e - i
  {
    if i < e && !Starts(code, o, i) then NextStart(code, o, e, i + 1) else i
  }

  function NextEnd(code: Text, o: nat, e: nat, i: nat): (k: nat)
    requires i <= e <= |code|
    ensures i <= k <= e
    decreases e - i
  {
    if i < e && !Ends(code, o, i) then NextEnd(code, o, e, i + 1) else i
  }

  /** Where the statement read so far up to `i` stops: after its end, or after the
      semicolon that follows its closing brace, or with the body. */
  function Stop(code: Text, o: nat, e: nat, i: nat): (b: nat)
    requires i <= e <= |code|
    ensures i <= b <= e && (i < e ==> i < b)
  {
    var k := NextEnd(code, o, e, i);
    if k == e then e
    else if code[k] == '}' && SkipWhite(code, k + 1, e) < e && code[SkipWhite(code, k + 1, e)] == ';'
    then SkipWhite(code, k + 1, e) + 1
    else k + 1
  }

  type Span = (nat, nat)

  /** The statements from `i` on. */
  function Spans(code: Text, o: nat, e: nat, i: nat): seq<Span>
    requires i <= e <= |code|
    decreases e - i
  {
    var a := NextStart(code, o, e, i);
    if a == e then [] else [(a, Stop(code, o, e, a))] + Spans(code, o, e, Stop(code, o, e, a))
  }

  /** The statements from `i` on, when one has been read from `start` up to there. */
  function SpansOpen(code: Text, o: nat, e: nat, i: nat, start: nat): seq<Span>
    requires i <= e <= |code|
  {
    [(start, Stop(code, o, e, i))] + Spans(code, o, e, Stop(code, o, e, i))
  }

  function Rest(code: Text, o: nat, e: nat, i: nat, start: Option<nat>): seq<Span>
    requires i <= e <= |code|
  {
    if start.None? then Spans(code, o, e, i) else SpansOpen(code, o, e, i, start.value)
  }

  lemma SpansStart(code: Text, o: nat, e: nat, i: nat)
    requires i < e <= |code|
    ensures Spans(code, o, e, i) == if Starts(code, o, i) then SpansOpen(code, o, e, i, i) else Spans(code, o, e, i + 1)
  {
  }

  lemma OpenMoves(code: Text, o: nat, e: nat, i: nat, start: nat)
    requires i < e <= |code| && !Ends(code, o, i)
    ensures SpansOpen(code, o, e, i, start) == SpansOpen(code, o, e, i + 1, start)
  {
  }

  lemma OpenStops(code: Text, o: nat, e: nat, i: nat, start: nat)
    requires i < e <= |code| && Ends(code, o, i)
    ensures var j := SkipWhite(code, i + 1, e);
            var b := if code[i] == '}' && j < e && code[j] == ';' then j + 1 else i + 1;
            SpansOpen(code, o, e, i, start) == [(start, b)] + Spans(code, o, e, b)
  {
  }

  lemma {:induction false} WhiteKeepsNesting(code: Text, o: nat, i: nat, e: nat)
    requires o <= i <= e <= |code|
    ensures var j := SkipWhite(code, i, e);
            Depth(code, o, j) == Depth(code, o, i) && Parens(code, o, j) == Parens(code, o, i)
    decreases e - i
  {
    if i < e && IsWhite(code[i]) {
      WhiteKeepsNesting(code, o, i + 1, e);
    }
  }

  lemma RestAtEnd(code: Text, o: nat, e: nat, start: Option<nat>)
    requires e <= |code|
    ensures Rest(code, o, e, e, start) == if start.Some? then [(start.value, e)] else []
  {
    assert Spans(code, o, e, e) == [];
  }

  lemma Regroup(spans: seq<Span>, more: seq<Span>, rest: seq<Span>, all: seq<Span>)
    requires spans + (more + rest) == all
    ensures (spans + more) + rest == all
  {
  }

  /** split_top_statements. */
  method SplitTopStatements(code: Text, open: nat, close: nat) returns (spans: seq<Span>)
    requires Matched(code, open, close)
    ensures spans == Spans(code, open + 1, close, open + 1)
  {
    var o := open + 1;
    var start: Option<nat> := None;
    var depth, paren := 0, 0;
    spans := [];
    var i := o;
    ghost var all := Spans(code, o, close, o);
    while i < close
      invariant open < i <= close
      invariant depth == Depth(code, o, i) && paren == Parens(code, o, i)
      invariant start.None? ==> depth == 0
      invariant spans + Rest(code, o, close, i, start) == all
    {
      BodyDepth(code, open, close, i);
      BodyDepth(code, open, close, i + 1);
      var start', depth', paren', more, next := ReadChar(code, o, close, i, start, depth, paren);
      Regroup(spans, more, Rest(code, o, close, next, start'), all);
      spans, start, depth, paren, i := spans + more, start', depth', paren', next;
    }
    RestAtEnd(code, o, close, start);
    if start.Some? {
      spans := spans + [(start.value, close)];
    }
  }

  /** One turn of the loop. */
  method ReadChar(code: Text, o: nat, e: nat, i: nat, start: Option<nat>, depth: int, paren: nat)
    returns (start': Option<nat>, depth': int, paren': nat, more: seq<Span>, next: nat)
    requires o <= i < e <= |code|
    requires depth == Depth(code, o, i) >= 0 && Depth(code, o, i + 1) >= 0 && paren == Parens(code, o, i)
    requires start.None? ==> depth == 0
    ensures i < next <= e && depth' == Depth(code, o, next) && paren' == Parens(code, o, next)
    ensures start'.None? ==> depth' == 0
    ensures Rest(code, o, e, i, start) == more + Rest(code, o, e, next, start')
  {
    hide SpansOpen;
    start', depth', paren', more, next := start, depth, paren, [], i + 1;
    var c := code[i];
    if c == '(' {
      paren' := paren + 1;
    } else if c == ')' {
      paren' := if paren > 0 then paren - 1 else 0;
    }
    if c == '{' {
      depth' := depth + 1;
      start' := OpenBrace(code, o, e, i, start, depth);
    } else if c == '}' {
      depth' := depth - 1;
      start', more, next := CloseBrace(code, o, e, i, start, depth', paren');
    } else {
      start', more := ReadPlain(code, o, e, i, start, depth, paren');
    }
  }

  method OpenBrace(code: Text, o: nat, e: nat, i: nat, start: Option<nat>, depth: int) returns (start': Option<nat>)
    requires o <= i < e <= |code| && code[i] == '{' && depth == Depth(code, o, i) >= 0
    requires start.None? ==> depth == 0
    ensures start'.Some? && Rest(code, o, e, i, start) == Rest(code, o, e, i + 1, start')
  {
    start' := start;
    if depth == 0 && start.None? {
      start' := Some(i);
    }
    SpansStart(code, o, e, i);
    OpenMoves(code, o, e, i, start'.value);
  }

  method CloseBrace(code: Text, o: nat, e: nat, i: nat, start: Option<nat>, depth: int, paren: nat)
    returns (start': Option<nat>, more: seq<Span>, next: nat)
    requires o <= i < e <= |code| && code[i] == '}' && start.Some?
    requires depth == Depth(code, o, i + 1) && paren == Parens(code, o, i + 1)
    ensures i < next <= e && depth == Depth(code, o, next) && paren == Parens(code, o, next)
    ensures start'.None? ==> depth == 0
    ensures SpansOpen(code, o, e, i, start.value) == more + Rest(code, o, e, next, start')
  {
    if depth == 0 && start.Some? && paren == 0 {
      OpenStops(code, o, e, i, start.value);
      var b := PastSemicolon(code, o, e, i);
      start', more, next := None, [(start.value, b)], b;
    } else {
      OpenMoves(code, o, e, i, start.value);
      start', more, next := start, [], i + 1;
    }
  }

  method ReadPlain(code: Text, o: nat, e: nat, i: nat, start: Option<nat>, depth: int, paren: nat)
    returns (start': Option<nat>, more: seq<Span>)
    requires o <= i < e <= |code| && code[i] != '{' && code[i] != '}'
    requires depth == Depth(code, o, i) == Depth(code, o, i + 1) && paren == Parens(code, o, i + 1)
    requires start.None? ==> depth == 0
    ensures start'.None? ==> depth == 0
    ensures Rest(code, o, e, i, start) == more + Rest(code, o, e, i + 1, start')
  {
    hide Spans;
    var c := code[i];
    start', more := start, [];
    SpansStart(code, o, e, i);
    if depth == 0 && paren == 0 {
      if c == ';' {
        if start.Some? {
          OpenStops(code, o, e, i, start.value);
          return None, [(start.value, i + 1)];
        }
      } else if !IsWhite(c) && start.None? {
        start' := Some(i);
      }
    }
    if start'.Some? {
      OpenMoves(code, o, e, i, start'.value);
    }
  }

  /** Where a statement that closes at `i` stops: a semicolon that follows directly, past
      white space, belongs to it. */
  method PastSemicolon(code: Text, o: nat, e: nat, i: nat) returns (b: nat)
    requires o <= i < e <= |code| && code[i] == '}'
    ensures i < b <= e
    ensures var j := SkipWhite(code, i + 1, e); b == if j < e && code[j] == ';' then j + 1 else i + 1
    ensures Depth(code, o, b) == Depth(code, o, i + 1) && Parens(code, o, b) == Parens(code, o, i + 1)
  {
    var j := i + 1;
    while j < e && IsWhite(code[j])
      invariant i < j <= e && SkipWhite(code, j, e) == SkipWhite(code, i + 1, e)
    {
      j := j + 1;
    }
    WhiteKeepsNesting(code, o, i + 1, e);
    b := if j < e && code[j] == ';' then j + 1 else i + 1;
  }

  // ----- what the statements are like -----

  lemma {:induction false} NextEndIs(code: Text, o: nat, e: nat, i: nat)
    requires i <= e <= |code|
    ensures var k := NextEnd(code, o, e, i);
            && (k < e ==> Ends(code, o, k))
            && (forall j :: i <= j < k ==> !Ends(code, o, j))
    decreases e - i
  {
    if i < e && !Ends(code, o, i) {
      NextEndIs(code, o, e, i + 1);
    }
  }

  lemma {:induction false} NextStartIs(code: Text, o: nat, e: nat, i: nat)
    requires i <= e <= |code|
    ensures var k := NextStart(code, o, e, i);
            && (k < e ==> Starts(code, o, k))
            && (forall j :: i <= j < k ==> !Starts(code, o, j))
    decreases e - i
  {
    if i < e && !Starts(code, o, i) {
      NextStartIs(code, o, e, i + 1);
    }
  }

  /** A statement stops at the top. */
  lemma StopIsAtTop(code: Text, open: nat, close: nat, i: nat)
    requires Matched(code, open, close) && open < i <= close
    ensures Depth(code, open + 1, Stop(code, open + 1, close, i)) == 0
  {
    var o := open + 1;
    var k := NextEnd(code, o, close, i);
    NextEndIs(code, o, close, i);
    BodyDepth(code, open, close, close);
    if k < close {
      WhiteKeepsNesting(code, o, k + 1, close);
    }
  }

  ghost predicate Balanced(code: Text, a: nat, b: nat)
    requires b <= |code|
  {
    Depth(code, a, b) == 0 && forall k :: a <= k <= b ==> Depth(code, a, k) >= 0
  }

  /** A span from one place at the top to another is balanced. */
  lemma TopToTopIsBalanced(code: Text, open: nat, close: nat, a: nat, b: nat)
    requires Matched(code, open, close) && open < a <= b <= close
    requires Depth(code, open + 1, a) == 0 && Depth(code, open + 1, b) == 0
    ensures Balanced(code, a, b)
  {
    forall k | a <= k <= b ensures Depth(code, a, k) == Depth(code, open + 1, k) >= 0 {
      DepthFrom(code, open + 1, a, k);
      BodyDepth(code, open, close, k);
    }
  }

  lemma FirstStatement(code: Text, o: nat, e: nat, i: nat)
    requires i <= e <= |code| && NextStart(code, o, e, i) < e
    ensures var a := NextStart(code, o, e, i); var b := Stop(code, o, e, a);
            Spans(code, o, e, i) == [(a, b)] + Spans(code, o, e, b)
  {
  }

  /** A statement lies inside the body and is balanced. */
  lemma {:induction false} StatementIsSound(code: Text, open: nat, close: nat, i: nat, s: nat)
    requires Matched(code, open, close) && open < i <= close && s < |Spans(code, open + 1, close, i)|
    ensures var span := Spans(code, open + 1, close, i)[s];
            i <= span.0 < span.1 <= close && Balanced(code, span.0, span.1)
    decreases close - i
  {
    var o := open + 1;
    var a := NextStart(code, o, close, i);
    var b := Stop(code, o, close, a);
    FirstStatement(code, o, close, i);
    if s == 0 {
      NextStartIs(code, o, close, i);
      StopIsAtTop(code, open, close, a);
      TopToTopIsBalanced(code, open, close, a, b);
    } else {
      StatementIsSound(code, open, close, b, s - 1);
    }
  }

  /** The statements are in order and apart. */
  lemma {:induction false} StatementsAreApart(code: Text, open: nat, close: nat, i: nat, s: nat, t: nat)
    requires Matched(code, open, close) && open < i <= close && s < t < |Spans(code, open + 1, close, i)|
    ensures Spans(code, open + 1, close, i)[s].1 <= Spans(code, open + 1, close, i)[t].0
    decreases close - i
  {
    var o := open + 1;
    var b := Stop(code, o, close, NextStart(code, o, close, i));
    FirstStatement(code, o, close, i);
    if s == 0 {
      StatementIsSound(code, open, close, b, t - 1);
    } else {
      StatementsAreApart(code, open, close, b, s - 1, t - 1);
    }
  }

  /** Before the next start the body stays at the top, so there is no brace there. */
  lemma {:induction false} NoBraceBetweenStatements(code: Text, open: nat, close: nat, i: nat, k: nat)
    requires Matched(code, open, close) && open < i <= close && i <= k < NextStart(code, open + 1, close, i)
    requires Depth(code, open + 1, i) == 0
    ensures code[k] != '{' && code[k] != '}' && Depth(code, open + 1, k) == 0 && !Starts(code, open + 1, k)
    decreases close - i
  {
    BodyDepth(code, open, close, i + 1);
    assert !Starts(code, open + 1, i);
    if i < k {
      NoBraceBetweenStatements(code, open, close, i + 1, k);
    }
  }

  predicate InSpan(ss: seq<Span>, s: nat, k: nat) {
    s < |ss| && ss[s].0 <= k < ss[s].1
  }

  /** Every brace of the body is in a statement; what is in none starts none. */
  lemma {:induction false} BracesAreCovered(code: Text, open: nat, close: nat, i: nat, k: nat) returns (s: nat)
    requires Matched(code, open, close) && open < i <= k < close && Depth(code, open + 1, i) == 0
    ensures InSpan(Spans(code, open + 1, close, i), s, k)
            || (code[k] != '{' && code[k] != '}' && Depth(code, open + 1, k) == 0 && !Starts(code, open + 1, k))
    decreases close - i
  {
    var o := open + 1;
    var a := NextStart(code, o, close, i);
    if k < a {
      NoBraceBetweenStatements(code, open, close, i, k);
      s := 0;
    } else {
      var b := Stop(code, o, close, a);
      if k < b {
        s := 0;
      } else {
        StopIsAtTop(code, open, close, a);
        var t := BracesAreCovered(code, open, close, b, k);
        s := t + 1;
      }
    }
  }

  // ----- what is left out -----

  ghost predicate Covered(ss: seq<Span>, k: nat) {
    exists s: nat :: InSpan(ss, s, k)
  }

  /** Where the search for a statement starts: at `i`, or where the one before stops. */
  function GapStart(ss: seq<Span>, i: nat, g: nat): nat
    requires g <= |ss|
  {
    if g == 0 then i else ss[g - 1].1
  }

  ghost predicate InGap(code: Text, o: nat, e: nat, ss: seq<Span>, i: nat, g: nat, k: nat)
    requires e <= |code|
  {
    g <= |ss| && GapStart(ss, i, g) <= e && GapStart(ss, i, g) <= k < NextStart(code, o, e, GapStart(ss, i, g))
  }

  ghost predicate InSomeGap(code: Text, o: nat, e: nat, ss: seq<Span>, i: nat, k: nat)
    requires e <= |code|
  {
    exists g: nat :: InGap(code, o, e, ss, i, g, k)
  }

  lemma CoveredFirst(a: nat, b: nat, rest: seq<Span>, k: nat)
    ensures Covered([(a, b)] + rest, k) <==> a <= k < b || Covered(rest, k)
  {
    var ss := [(a, b)] + rest;
    if a <= k < b {
      assert InSpan(ss, 0, k);
    }
    if s: nat :| InSpan(rest, s, k) {
      assert InSpan(ss, s + 1, k);
    }
    if s: nat :| InSpan(ss, s, k) {
      assert s > 0 ==> InSpan(rest, s - 1, k);
    }
  }

  lemma GapLater(code: Text, o: nat, e: nat, i: nat, a: nat, b: nat, rest: seq<Span>, k: nat)
    requires i <= e <= |code| && a == NextStart(code, o, e, i) && a < b <= k < e
    ensures InSomeGap(code, o, e, [(a, b)] + rest, i, k) <==> InSomeGap(code, o, e, rest, b, k)
  {
    var ss := [(a, b)] + rest;
    if g: nat :| InGap(code, o, e, rest, b, g, k) {
      assert GapStart(ss, i, g + 1) == GapStart(rest, b, g);
      assert InGap(code, o, e, ss, i, g + 1, k);
    }
    if g: nat :| InGap(code, o, e, ss, i, g, k) {
      assert g > 0;
      assert GapStart(ss, i, g) == GapStart(rest, b, g - 1);
      assert InGap(code, o, e, rest, b, g - 1, k);
    }
  }

  /** A place before the first statement is in the first gap and in no statement. */
  lemma BeforeFirst(code: Text, open: nat, close: nat, i: nat, k: nat)
    requires Matched(code, open, close) && open < i <= k < close
    requires k < NextStart(code, open + 1, close, i)
    ensures !Covered(Spans(code, open + 1, close, i), k)
    ensures InGap(code, open + 1, close, Spans(code, open + 1, close, i), i, 0, k)
  {
    var ss := Spans(code, open + 1, close, i);
    if s: nat :| InSpan(ss, s, k) {
      StartsLater(code, open, close, i, s);
    }
  }

  lemma StartsLater(code: Text, open: nat, close: nat, i: nat, s: nat)
    requires Matched(code, open, close) && open < i <= close && s < |Spans(code, open + 1, close, i)|
    ensures NextStart(code, open + 1, close, i) <= Spans(code, open + 1, close, i)[s].0
  {
    var o := open + 1;
    FirstStatement(code, o, close, i);
    if s > 0 {
      StatementIsSound(code, open, close, Stop(code, o, close, NextStart(code, o, close, i)), s - 1);
    }
  }

  /** Exactly which places are left out: those between where one statement stops, or the
      body begins, and where the next starts. */
  lemma {:induction false} LeftOutExactly(code: Text, open: nat, close: nat, i: nat, k: nat)
    requires Matched(code, open, close) && open < i <= k < close
    ensures var ss := Spans(code, open + 1, close, i);
            !Covered(ss, k) <==> InSomeGap(code, open + 1, close, ss, i, k)
    decreases close - i
  {
    var o := open + 1;
    var a := NextStart(code, o, close, i);
    if k < a {
      BeforeFirst(code, open, close, i, k);
    } else {
      var b := Stop(code, o, close, a);
      var rest := Spans(code, o, close, b);
      FirstStatement(code, o, close, i);
      CoveredFirst(a, b, rest, k);
      if k < b {
        InFirst(code, open, close, i, a, b, k);
      } else {
        LeftOutExactly(code, open, close, b, k);
        GapLater(code, o, close, i, a, b, rest, k);
      }
    }
  }

  /** A place of the first statement is in no gap. */
  lemma InFirst(code: Text, open: nat, close: nat, i: nat, a: nat, b: nat, k: nat)
    requires Matched(code, open, close) && open < i <= a <= k < b <= close
    requires a == NextStart(code, open + 1, close, i) && b == Stop(code, open + 1, close, a)
    ensures !InSomeGap(code, open + 1, close, Spans(code, open + 1, close, i), i, k)
  {
    var o := open + 1;
    var ss := Spans(code, o, close, i);
    FirstStatement(code, o, close, i);
    forall g: nat ensures !InGap(code, o, close, ss, i, g, k) {
      if 1 < g <= |ss| {
        StatementIsSound(code, open, close, i, g - 1);
        StatementsAreApart(code, open, close, i, 0, g - 1);
      }
    }
  }

  /** From a place at the top and outside parentheses, a gap without a parenthesis holds
      white space and semicolons only. */
  lemma {:induction false} PlainGap(code: Text, open: nat, close: nat, i: nat, k: nat)
    requires Matched(code, open, close) && open < i <= close && i <= k < NextStart(code, open + 1, close, i)
    requires Depth(code, open + 1, i) == 0 && Parens(code, open + 1, i) == 0
    requires forall j :: i <= j <= k ==> code[j] != '('
    ensures (IsWhite(code[k]) || code[k] == ';') && Parens(code, open + 1, k + 1) == 0
  {
    NoBraceBetweenStatements(code, open, close, i, k);
    if i < k {
      PlainGap(code, open, close, i, k - 1);
    }
  }

  lemma StopIsOutsideParens(code: Text, o: nat, e: nat, a: nat)
    requires o <= a < e <= |code| && Stop(code, o, e, a) < e
    ensures Parens(code, o, Stop(code, o, e, a)) == 0
  {
    NextEndIs(code, o, e, a);
    var k := NextEnd(code, o, e, a);
    WhiteKeepsNesting(code, o, k + 1, e);
  }

  predicate Matters(c: char) {
    !IsWhite(c) && c != ';'
  }

  /** A place where the search for a statement may start: the body's start, or after a
      semicolon or closing brace at the top, outside parentheses. */
  predicate Begins(code: Text, o: nat, h: nat)
    requires h <= |code|
  {
    h == o || (o < h && Ends(code, o, h - 1))
  }

  predicate IsBlank(code: Text, h: nat, k: nat)
    requires k <= |code|
  {
    forall j :: h <= j < k ==> IsWhite(code[j])
  }

  /** An opening parenthesis at the top that comes first after such a place. */
  ghost predicate HeadParen(code: Text, o: nat, e: nat, k: nat)
    requires e <= |code|
  {
    && o <= k < e && code[k] == '(' && Depth(code, o, k) == 0 && Parens(code, o, k) == 0
    && exists h :: o <= h <= k && Begins(code, o, h) && IsBlank(code, h, k)
  }

  ghost predicate HasHead(code: Text, o: nat, e: nat)
    requires e <= |code|
  {
    exists k: nat :: HeadParen(code, o, e, k)
  }

  /** Before a place in a gap, all blanks and semicolons, the blanks go back to such a
      place. */
  lemma {:induction false} BackToEnd(code: Text, open: nat, close: nat, i: nat, k: nat) returns (h: nat)
    requires Matched(code, open, close) && open < i <= close && i <= k < NextStart(code, open + 1, close, i)
    requires Depth(code, open + 1, i) == 0 && Parens(code, open + 1, i) == 0 && Begins(code, open + 1, i)
    requires forall j :: i <= j < k ==> code[j] != '('
    ensures i <= h <= k && Begins(code, open + 1, h) && IsBlank(code, h, k)
    ensures Depth(code, open + 1, k) == 0 && Parens(code, open + 1, k) == 0
  {
    NoBraceBetweenStatements(code, open, close, i, k);
    h := k;
    if i < k {
      PlainGap(code, open, close, i, k - 1);
      if IsWhite(code[k - 1]) {
        h := BackToEnd(code, open, close, i, k - 1);
      }
    }
  }

  /** The first opening parenthesis of a gap is a head. */
  lemma GapHoldsHead(code: Text, open: nat, close: nat, i: nat, k: nat) returns (j: nat)
    requires Matched(code, open, close) && open < i <= close && i <= k < NextStart(code, open + 1, close, i)
    requires Depth(code, open + 1, i) == 0 && Parens(code, open + 1, i) == 0 && Begins(code, open + 1, i)
    requires Matters(code[k])
    ensures i <= j <= k && HeadParen(code, open + 1, close, j)
  {
    j := i;
    while j < k && code[j] != '('
      invariant i <= j <= k && forall l :: i <= l < j ==> code[l] != '('
    {
      j := j + 1;
    }
    if code[j] != '(' {
      PlainGap(code, open, close, i, k);
    }
    var h := BackToEnd(code, open, close, i, j);
  }

  /** What matters and is left out has such a head before it that is left out too. */
  lemma {:induction false} GapsHoldParentheses(code: Text, open: nat, close: nat, i: nat, k: nat) returns (j: nat)
    requires Matched(code, open, close) && open < i <= k < close
    requires Depth(code, open + 1, i) == 0 && Parens(code, open + 1, i) == 0 && Begins(code, open + 1, i)
    requires Matters(code[k]) && !Covered(Spans(code, open + 1, close, i), k)
    ensures i <= j <= k && HeadParen(code, open + 1, close, j) && !Covered(Spans(code, open + 1, close, i), j)
    decreases close - i
  {
    var o := open + 1;
    var a := NextStart(code, o, close, i);
    if k < a {
      j := GapHoldsHead(code, open, close, i, k);
      BeforeFirst(code, open, close, i, j);
    } else {
      var b := Stop(code, o, close, a);
      FirstStatement(code, o, close, i);
      CoveredFirst(a, b, Spans(code, o, close, b), k);
      StopIsAtTop(code, open, close, a);
      StopIsOutsideParens(code, o, close, a);
      StatementEndsFirst(code, o, close, a);
      j := GapsHoldParentheses(code, open, close, b, k);
      CoveredFirst(a, b, Spans(code, o, close, b), j);
    }
  }

  /** A head starts no statement, and neither do the blanks before it. */
  lemma HeadStartsNothing(code: Text, o: nat, e: nat, i: nat, h: nat, k: nat)
    requires o <= i <= h <= k < e <= |code| && IsBlank(code, h, k)
    requires code[k] == '(' && Parens(code, o, k) == 0
    ensures !(h <= NextStart(code, o, e, i) <= k)
  {
    NextStartIs(code, o, e, i);
    assert Parens(code, o, k + 1) == 1;
  }

  /** A statement that starts before a place where the search may start stops by then. */
  lemma StopsBefore(code: Text, o: nat, e: nat, a: nat, h: nat, k: nat)
    requires o <= a < h <= k < e <= |code| && Begins(code, o, h) && IsBlank(code, h, k) && code[k] == '('
    ensures Stop(code, o, e, a) <= h
  {
    NextEndIs(code, o, e, a);
    StatementEndsFirst(code, o, e, a);
  }

  /** A head is left out, wherever before it the search starts. */
  lemma {:induction false} HeadIsLeftOut(code: Text, open: nat, close: nat, i: nat, h: nat, k: nat)
    requires Matched(code, open, close) && open < i <= h <= k < close
    requires Begins(code, open + 1, h) && IsBlank(code, h, k) && code[k] == '(' && Parens(code, open + 1, k) == 0
    ensures !Covered(Spans(code, open + 1, close, i), k)
    decreases close - i
  {
    var o := open + 1;
    var a := NextStart(code, o, close, i);
    if k < a {
      BeforeFirst(code, open, close, i, k);
    } else {
      HeadStartsNothing(code, o, close, i, h, k);
      StopsBefore(code, o, close, a, h, k);
      var b := Stop(code, o, close, a);
      HeadIsLeftOut(code, open, close, b, h, k);
      FirstStatement(code, o, close, i);
      CoveredFirst(a, b, Spans(code, o, close, b), k);
    }
  }

  /** The statements cover all that matters if and only if none of them would begin with
      a parenthesis: no opening parenthesis comes first in the body, or first after a
      semicolon or closing brace at the top and outside parentheses. */
  lemma CoverageExactly(code: Text, open: nat, close: nat)
    requires Matched(code, open, close)
    ensures (forall k :: open < k < close && Matters(code[k]) ==> Covered(Spans(code, open + 1, close, open + 1), k))
            <==> !HasHead(code, open + 1, close)
  {
    var o := open + 1;
    var ss := Spans(code, o, close, o);
    if k :| open < k < close && Matters(code[k]) && !Covered(ss, k) {
      var j := GapsHoldParentheses(code, open, close, o, k);
    }
    if HasHead(code, o, close) {
      var k: nat :| HeadParen(code, o, close, k);
      var h :| o <= h <= k && Begins(code, o, h) && IsBlank(code, h, k);
      HeadIsLeftOut(code, open, close, o, h, k);
    }
  }

  /** Equally, if and only if they cover every opening parenthesis. */
  lemma ParenthesesTell(code: Text, open: nat, close: nat)
    requires Matched(code, open, close)
    ensures var ss := Spans(code, open + 1, close, open + 1);
            (forall k :: open < k < close && Matters(code[k]) ==> Covered(ss, k))
            <==> (forall k :: open < k < close && code[k] == '(' ==> Covered(ss, k))
  {
    var ss := Spans(code, open + 1, close, open + 1);
    if k :| open < k < close && Matters(code[k]) && !Covered(ss, k) {
      var j := GapsHoldParentheses(code, open, close, open + 1, k);
    }
  }

  /** Where a statement ends: at its first semicolon or closing brace at the top, or past
      the semicolon that directly follows that brace, or with the body. */
  lemma StatementEndsFirst(code: Text, o: nat, e: nat, a: nat)
    requires o <= a < e <= |code|
    ensures var b := Stop(code, o, e, a); var k := NextEnd(code, o, e, a);
            && (forall j :: a <= j < k ==> !Ends(code, o, j))
            && (k == e ==> b == e)
            && (k < e ==> Ends(code, o, k) && Ends(code, o, b - 1) && forall j :: k < j < b - 1 ==> IsWhite(code[j]))
  {
    NextEndIs(code, o, e, a);
    var k := NextEnd(code, o, e, a);
    if k < e {
      WhiteKeepsNesting(code, o, k + 1, e);
      SkipsOnlyWhite(code, k + 1, e);
    }
  }

  lemma {:induction false} SkipsOnlyWhite(code: Text, i: nat, e: nat)
    requires i <= e <= |code|
    ensures forall j :: i <= j < SkipWhite(code, i, e) ==> IsWhite(code[j])
    decreases e - i
  {
    if i < e && IsWhite(code[i]) {
      SkipsOnlyWhite(code, i + 1, e);
    }
  }

  /** The body `(a);` has one statement, which starts at the closing parenthesis. */
  lemma AParenthesisIsLeftOut()
    ensures var code := ['{', '(', 'a', ')', ';', '}'];
            Matched(code, 0, 5) && Spans(code, 1, 5, 1) == [(3, 5)]
  {
    var code := ['{', '(', 'a', ')', ';', '}'];
    assert Depth(code, 0, 1) == 1 && Depth(code, 0, 2) == 1 && Depth(code, 0, 3) == 1;
    assert Depth(code, 0, 4) == 1 && Depth(code, 0, 5) == 1 && Depth(code, 0, 6) == 0;
    assert Parens(code, 1, 2) == 1 && Parens(code, 1, 3) == 1 && Parens(code, 1, 4) == 0 && Parens(code, 1, 5) == 0;
    assert Depth(code, 1, 2) == 0 && Depth(code, 1, 3) == 0 && Depth(code, 1, 4) == 0 && Depth(code, 1, 5) == 0;
    assert NextStart(code, 1, 5, 3) == 3;
    assert NextStart(code, 1, 5, 2) == 3;
    assert NextStart(code, 1, 5, 1) == 3;
    assert NextEnd(code, 1, 5, 4) == 4;
    assert NextEnd(code, 1, 5, 3) == 4;
    assert Stop(code, 1, 5, 3) == 5;
    assert NextStart(code, 1, 5, 5) == 5;
  }
}
