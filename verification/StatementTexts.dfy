/**
 What split_top_statements of tools/var_hoist.py makes of a body, stated on texts: a
 statement goes on to the first semicolon or closing brace at which as many braces and
 parentheses have been closed as opened.
 */
module StatementTexts {
  import opened Texts
  import opened Options
  import opened Statements

  /** Characters that open less those that close. */
  function Level(t: Text, up: char, down: char): int {
    if |t| == 0 then 0
    else Level(t[..|t| - 1], up, down) + if t[|t| - 1] == up then 1 else if t[|t| - 1] == down then -1 else 0
  }

  lemma LevelNext(code: Text, i: nat, k: nat, up: char, down: char)
    requires i <= k < |code|
    ensures Level(code[i..k + 1], up, down)
         == Level(code[i..k], up, down) + if code[k] == up then 1 else if code[k] == down then -1 else 0
  {
    assert code[i..k + 1][..k - i] == code[i..k];
  }

  lemma {:induction false} DepthIsLevel(code: Text, o: nat, k: nat)
    requires o <= k <= |code|
    ensures Depth(code, o, k) == Level(code[o..k], '{', '}')
  {
    if o < k {
      DepthIsLevel(code, o, k - 1);
      LevelNext(code, o, k - 1, '{', '}');
    }
  }

  /** From a place outside parentheses, as long as none is closed that is not open. */
  lemma {:induction false} ParensAreLevel(code: Text, o: nat, i: nat, k: nat)
    requires o <= i <= k <= |code| && Parens(code, o, i) == 0
    requires forall m :: i <= m <= k ==> Level(code[i..m], '(', ')') >= 0
    ensures Parens(code, o, k) == Level(code[i..k], '(', ')')
  {
    if i < k {
      ParensAreLevel(code, o, i, k - 1);
      LevelNext(code, i, k - 1, '(', ')');
    }
  }

  /** The two braces match: between them every prefix has more braces open than closed. */
  lemma MatchedTexts(code: Text, open: nat, close: nat)
    requires open < close < |code|
    ensures Matched(code, open, close) <==>
      && code[open] == '{' && code[close] == '}' && Level(code[open..close + 1], '{', '}') == 0
      && forall k :: open < k <= close ==> Level(code[open..k], '{', '}') > 0
  {
    forall k | open <= k <= close + 1 ensures Depth(code, open, k) == Level(code[open..k], '{', '}') {
      DepthIsLevel(code, open, k);
    }
  }

  /** At `k` as many braces and parentheses have been closed as opened since `i`. */
  predicate Even(code: Text, i: nat, k: nat)
    requires i <= k <= |code|
  {
    Level(code[i..k], '{', '}') == 0 && Level(code[i..k], '(', ')') == 0
  }

  predicate IsEnd(c: char) { c == ';' || c == '}' }

  /** From `i` to `j` nothing is closed that was not opened, and no semicolon or closing
      brace before `j` comes out even. */
  ghost predicate GoesOn(code: Text, i: nat, j: nat)
    requires i <= j <= |code|
  {
    && (forall m :: i <= m <= j ==> Level(code[i..m], '(', ')') >= 0)
    && (forall m :: i <= m < j && IsEnd(code[m]) ==> !Even(code, i, m + 1))
  }

  /** A top-level place, outside parentheses. */
  predicate AtTop(code: Text, o: nat, i: nat)
    requires i <= |code|
  {
    o <= i && Depth(code, o, i) == 0 && Parens(code, o, i) == 0
  }

  lemma EndsIsEven(code: Text, o: nat, i: nat, k: nat)
    requires i <= k < |code| && AtTop(code, o, i)
    requires forall m :: i <= m <= k + 1 ==> Level(code[i..m], '(', ')') >= 0
    ensures Ends(code, o, k) <==> IsEnd(code[k]) && Even(code, i, k + 1)
  {
    DepthFrom(code, o, i, k + 1);
    DepthIsLevel(code, i, k + 1);
    ParensAreLevel(code, o, i, k + 1);
  }

  lemma {:induction false} NextEndAt(code: Text, o: nat, e: nat, i: nat, k: nat)
    requires i <= k <= e <= |code| && (forall m :: i <= m < k ==> !Ends(code, o, m)) && (k < e ==> Ends(code, o, k))
    ensures NextEnd(code, o, e, i) == k
    decreases k - i
  {
    if i < k {
      NextEndAt(code, o, e, i + 1, k);
    }
  }

  /** White space and semicolons between statements are passed over. */
  lemma PassedOver(code: Text, o: nat, e: nat, i: nat)
    requires i < e <= |code| && AtTop(code, o, i) && (IsWhite(code[i]) || code[i] == ';')
    ensures Spans(code, o, e, i) == Spans(code, o, e, i + 1) && AtTop(code, o, i + 1)
  {
    SpansStart(code, o, e, i);
  }

  /** A statement may start with a brace or with anything but white space, a semicolon, a
      parenthesis or a closing brace. */
  predicate Begin(c: char) {
    !IsWhite(c) && c != ';' && c != '(' && c != ')' && c != '}'
  }

  lemma StartsHere(code: Text, o: nat, i: nat)
    requires i < |code| && AtTop(code, o, i) && Begin(code[i])
    ensures Starts(code, o, i)
  {
  }

  /** A statement that ends with a semicolon. */
  lemma ToSemicolon(code: Text, o: nat, e: nat, i: nat, j: nat)
    requires i <= j < e <= |code| && AtTop(code, o, i) && Begin(code[i])
    requires GoesOn(code, i, j) && code[j] == ';' && Even(code, i, j + 1)
    ensures Spans(code, o, e, i) == [(i, j + 1)] + Spans(code, o, e, j + 1) && AtTop(code, o, j + 1)
  {
    EndAt(code, o, e, i, j);
    StartsHere(code, o, i);
    SpansStart(code, o, e, i);
  }

  lemma EndAt(code: Text, o: nat, e: nat, i: nat, j: nat)
    requires i <= j < e <= |code| && AtTop(code, o, i) && GoesOn(code, i, j) && IsEnd(code[j]) && Even(code, i, j + 1)
    ensures NextEnd(code, o, e, i) == j && AtTop(code, o, j + 1)
  {
    forall k | i <= k <= j ensures Ends(code, o, k) <==> k == j {
      assert k == j ==> Level(code[i..j + 1], '(', ')') == 0;
      EndsIsEven(code, o, i, k);
    }
    NextEndAt(code, o, e, i, j);
  }

  /** A statement that ends with a block: a semicolon after it, past white space, is taken
      along. */
  lemma ToBrace(code: Text, o: nat, e: nat, i: nat, j: nat, k: nat)
    requires i <= j < k <= e <= |code| && AtTop(code, o, i) && Begin(code[i])
    requires GoesOn(code, i, j) && code[j] == '}' && Even(code, i, j + 1)
    requires (forall m :: j < m < k ==> IsWhite(code[m])) && (k < e ==> !IsWhite(code[k]))
    ensures var stop := if k < e && code[k] == ';' then k + 1 else j + 1;
            Spans(code, o, e, i) == [(i, stop)] + Spans(code, o, e, stop) && AtTop(code, o, stop)
  {
    hide Level, Parens, SkipWhite, NextEnd, GoesOn, Even, Starts;
    EndAt(code, o, e, i, j);
    StartsHere(code, o, i);
    SpansStart(code, o, e, i);
    SkipsTo(code, j + 1, e, k);
    WhiteKeepsNesting(code, o, j + 1, e);
    if k < e && code[k] == ';' {
      SemicolonIsFlat(code, o, k);
    }
  }

  lemma SemicolonIsFlat(code: Text, o: nat, k: nat)
    requires k < |code| && AtTop(code, o, k) && code[k] == ';'
    ensures AtTop(code, o, k + 1)
  {
  }

  lemma {:induction false} SkipsTo(code: Text, i: nat, e: nat, k: nat)
    requires i <= k <= e <= |code| && (forall m :: i <= m < k ==> IsWhite(code[m])) && (k < e ==> !IsWhite(code[k]))
    ensures SkipWhite(code, i, e) == k
    decreases k - i
  {
    if i < k {
      SkipsTo(code, i + 1, e, k);
    }
  }

  /** What the body ends in the middle of is a statement up to the end. */
  lemma ToTheEnd(code: Text, o: nat, e: nat, i: nat)
    requires i < e <= |code| && AtTop(code, o, i) && Begin(code[i]) && GoesOn(code, i, e)
    ensures Spans(code, o, e, i) == [(i, e)]
  {
    forall k | i <= k < e ensures !Ends(code, o, k) {
      EndsIsEven(code, o, i, k);
    }
    NextEndAt(code, o, e, i, e);
    StartsHere(code, o, i);
    SpansStart(code, o, e, i);
  }
}
