/**
 blank_pass of tools/var_hoist.py and the loop of transform_file that repeats it: which
 line breaks it inserts, and why repeating it ends.

 find_functions and the word characters of the pattern `(else|while)\b` are parameters.
 */
module BlankLines {
  import opened Texts
  import opened Insertions

  // ----- what the pass looks for -----

  /** The nesting read so far: per open brace whether it opens an initializer, and the
      last character that is not white space. */
  datatype Scan = Scan(depth: int, inits: seq<bool>, last: char)

  function Next(st: Scan, c: char): Scan {
    if c == '{' then Scan(st.depth + 1, st.inits + [st.last == '=' || st.last == ',' || st.last == '{'], c)
    else if c == '}' then Scan(st.depth - 1, if |st.inits| > 0 then st.inits[..|st.inits| - 1] else [], c)
    else if IsWhite(c) then st
    else st.(last := c)
  }

  function Scanned(s: Text): Scan {
    if |s| == 0 then Scan(0, [], ' ') else Next(Scanned(s[..|s| - 1]), s[|s| - 1])
  }

  /** A closing brace read in this state ends a block at the top of the body. */
  predicate EndsTopBlock(st: Scan) {
    st.depth == 2 && (|st.inits| > 0 ==> !st.inits[|st.inits| - 1])
  }

  /** How many spaces and tabs (and, if asked, carriage returns) come first. */
  function Blanks(r: Text, cr: bool): (n: nat)
    ensures n <= |r|
  {
    if |r| > 0 && IsBlank(r[0], cr) then 1 + Blanks(r[1..], cr) else 0
  }

  lemma {:induction false} BlanksAre(r: Text, cr: bool)
    ensures forall i :: 0 <= i < Blanks(r, cr) ==> IsBlank(r[i], cr)
    ensures Blanks(r, cr) < |r| ==> !IsBlank(r[Blanks(r, cr)], cr)
  {
    if |r| > 0 && IsBlank(r[0], cr) {
      BlanksAre(r[1..], cr);
    }
  }

  predicate IsBlank(c: char, cr: bool) { c == ' ' || c == '\t' || (cr && c == '\r') }

  /** The text starts with this word and the word ends there. */
  predicate StartsWith(word: char -> bool, r: Text, w: Text) {
    if |w| == 0 then |r| > 0 ==> !word(r[0])
    else |r| > 0 && r[0] == w[0] && StartsWith(word, r[1..], w[1..])
  }

  /** The pattern `(else|while)\b`. */
  predicate Continues(word: char -> bool, r: Text) {
    StartsWith(word, r, "else") || StartsWith(word, r, "while")
  }

  /** Only blanks up to the end of the line, and the next line is not empty. */
  predicate Breaks(r: Text) {
    var j := Blanks(r, false);
    j + 1 < |r| && r[j] == '\n' && r[j + 1] != '\n'
  }

  /** What follows a brace asks for an empty line. */
  predicate Asks(word: char -> bool, r: Text) {
    Breaks(r) && NextLineAsks(word, r[Blanks(r, false) + 1..])
  }

  /** When a closing brace gets an edit: what comes before it, and what comes after. */
  datatype Rule = Rule(ends: Text -> bool, asks: Text -> bool)

  /** The rule of blank_pass. */
  function BlankRule(word: char -> bool): Rule {
    Rule((s: Text) => EndsTopBlock(Scanned(s)), (r: Text) => Asks(word, r))
  }

  predicate EditsAt(rule: Rule, body: Text, i: nat) {
    i < |body| && body[i] == '}' && rule.ends(body[..i]) && rule.asks(body[i + 1..])
  }

  /** Where a line break goes: at the start of the line after the brace's. */
  function EditPos(body: Text, i: nat): nat
    requires i < |body|
  {
    i + 1 + Blanks(body[i + 1..], false) + 1
  }

  /** The positions a function gives for the first `n` places, where 0 is none. */
  function Collect(at: nat -> nat, n: nat): seq<nat> {
    if n == 0 then [] else Collect(at, n - 1) + if at(n - 1) > 0 then [at(n - 1)] else []
  }

  function EditAt(rule: Rule, body: Text): nat -> nat {
    (i: nat) => if EditsAt(rule, body, i) then EditPos(body, i) else 0
  }

  function Edits(rule: Rule, body: Text): seq<nat> {
    Collect(EditAt(rule, body), |body|)
  }

  function Shifted(es: seq<nat>, offset: nat): (r: seq<nat>)
    ensures |r| == |es|
  {
    seq(|es|, i requires 0 <= i < |es| => es[i] + offset)
  }

  function Reversed(es: seq<nat>): (r: seq<nat>)
    ensures |r| == |es|
  {
    seq(|es|, i requires 0 <= i < |es| => es[|es| - 1 - i])
  }

  /** The edits of one pass over the body between two braces, last first. */
  function PassEdits(rule: Rule, code: Text, open: nat, close: nat): seq<nat>
    requires open <= close <= |code|
  {
    Reversed(Shifted(Edits(rule, code[open..close]), open))
  }

  // ----- the laws of the rule -----

  ghost predicate BreaksLines(rule: Rule) {
    forall r: Text :: rule.asks(r) ==> Breaks(r)
  }

  /** What is asked for depends on nothing past the next closing brace. */
  ghost predicate IsLocal(rule: Rule) {
    forall r: Text, u: Text, k: nat :: AgreeToBrace(r, u, k) ==> rule.asks(r) == rule.asks(u)
  }

  /** A line break read before makes no difference. */
  ghost predicate SkipsBreaks(rule: Rule) {
    forall a: Text, b: Text :: rule.ends(a + ['\n'] + b) == rule.ends(a + b)
  }

  ghost predicate RuleOk(rule: Rule) {
    BreaksLines(rule) && IsLocal(rule) && SkipsBreaks(rule)
  }

  // ----- the edits are in order, so sorting them and dropping repeats does nothing -----

  lemma EditPosBounds(rule: Rule, body: Text, i: nat)
    requires BreaksLines(rule)
    requires EditsAt(rule, body, i)
    ensures i + 1 < EditPos(body, i) < |body| && body[EditPos(body, i) - 1] == '\n' && body[EditPos(body, i)] != '\n'
    ensures forall k :: i < k < EditPos(body, i) ==> body[k] == ' ' || body[k] == '\t' || body[k] == '\n'
  {
    var r := body[i + 1..];
    assert Breaks(r);
    var j := Blanks(r, false);
    BlanksAre(r, false);
    assert forall k :: i < k < i + 1 + j ==> body[k] == r[k - i - 1];
  }

  /** The next closing brace comes after the break. */
  lemma NextBraceIsLater(rule: Rule, body: Text, i: nat, k: nat)
    requires BreaksLines(rule)
    requires EditsAt(rule, body, i) && i < k < |body| && body[k] == '}'
    ensures EditPos(body, i) <= k
  {
    EditPosBounds(rule, body, i);
  }

  lemma {:induction false} WhereFrom(at: nat -> nat, n: nat, a: nat) returns (i: nat)
    requires a < |Collect(at, n)|
    ensures i < n && Collect(at, n)[a] == at(i) > 0
  {
    if a < |Collect(at, n - 1)| {
      i := WhereFrom(at, n - 1, a);
    } else {
      i := n - 1;
    }
  }

  lemma {:induction false} CollectIncreases(at: nat -> nat, n: nat, a: nat, b: nat)
    requires forall i, k :: 0 <= i < k < n && at(i) > 0 && at(k) > 0 ==> at(i) < at(k)
    requires a < b < |Collect(at, n)|
    ensures Collect(at, n)[a] < Collect(at, n)[b]
  {
    if b < |Collect(at, n - 1)| {
      CollectIncreases(at, n - 1, a, b);
    } else {
      var i := WhereFrom(at, n - 1, a);
    }
  }

  /** Positions grow from one edit to the next. */
  lemma EditsIncrease(rule: Rule, body: Text, a: nat, b: nat)
    requires BreaksLines(rule)
    requires a < b < |Edits(rule, body)|
    ensures Edits(rule, body)[a] < Edits(rule, body)[b]
  {
    var at := EditAt(rule, body);
    forall i, k | 0 <= i < k < |body| && at(i) > 0 && at(k) > 0 ensures at(i) < at(k) {
      NextBraceIsLater(rule, body, i, k);
    }
    CollectIncreases(at, |body|, a, b);
  }

  // ----- one insertion: the last edit is taken off the list, and no other changes -----

  /** Two texts that agree up to a closing brace. */
  predicate AgreeToBrace(r: Text, u: Text, k: nat) {
    k < |r| && k < |u| && r[..k + 1] == u[..k + 1] && r[k] == '}'
  }

  lemma AgreeAt(r: Text, u: Text, k: nat, i: nat)
    requires AgreeToBrace(r, u, k) && i <= k
    ensures r[i] == u[i]
  {
    assert r[i] == r[..k + 1][i] && u[i] == u[..k + 1][i];
  }

  lemma AgreeLater(r: Text, u: Text, k: nat, i: nat)
    requires AgreeToBrace(r, u, k) && i <= k
    ensures AgreeToBrace(r[i..], u[i..], k - i)
  {
    AgreeAt(r, u, k, k);
    assert r[i..][..k - i + 1] == r[..k + 1][i..];
    assert u[i..][..k - i + 1] == u[..k + 1][i..];
  }

  lemma {:induction false} SameBlanks(r: Text, u: Text, k: nat, cr: bool)
    requires AgreeToBrace(r, u, k)
    ensures Blanks(r, cr) == Blanks(u, cr) <= k
  {
    AgreeAt(r, u, k, 0);
    if IsBlank(r[0], cr) {
      AgreeLater(r, u, k, 1);
      SameBlanks(r[1..], u[1..], k - 1, cr);
    }
  }

  lemma SameBreaks(r: Text, u: Text, k: nat)
    requires AgreeToBrace(r, u, k)
    ensures Breaks(r) == Breaks(u) && Blanks(r, false) == Blanks(u, false)
    ensures Breaks(r) ==> Blanks(r, false) + 1 <= k
  {
    SameBlanks(r, u, k, false);
    var j := Blanks(r, false);
    AgreeAt(r, u, k, j);
    AgreeAt(r, u, k, k);
    if j < k {
      AgreeAt(r, u, k, j + 1);
    }
  }

  lemma SameContinues(word: char -> bool, r: Text, u: Text, k: nat)
    requires AgreeToBrace(r, u, k)
    ensures Continues(word, r) == Continues(word, u)
  {
    SameStart(word, r, u, k, "else");
    SameStart(word, r, u, k, "while");
  }

  /** A word has no brace in it, so it ends before the brace. */
  lemma {:induction false} SameStart(word: char -> bool, r: Text, u: Text, k: nat, w: Text)
    requires AgreeToBrace(r, u, k) && '}' !in w
    ensures StartsWith(word, r, w) == StartsWith(word, u, w)
  {
    AgreeAt(r, u, k, 0);
    AgreeAt(r, u, k, k);
    if |w| > 0 && r[0] == w[0] {
      AgreeLater(r, u, k, 1);
      SameStart(word, r[1..], u[1..], k - 1, w[1..]);
    }
  }

  /** The tests on the line after the brace's. */
  predicate NextLineAsks(word: char -> bool, line: Text) {
    var p := Blanks(line, true);
    p < |line| && line[p] != '}' && line[p] != '#' && !Continues(word, line[p..])
  }

  lemma SameNextLine(word: char -> bool, l: Text, v: Text, k: nat)
    requires AgreeToBrace(l, v, k)
    ensures NextLineAsks(word, l) == NextLineAsks(word, v)
  {
    SameBlanks(l, v, k, true);
    var p := Blanks(l, true);
    AgreeAt(l, v, k, p);
    AgreeLater(l, v, k, p);
    SameContinues(word, l[p..], v[p..], k - p);
  }

  /** Whether a brace asks for an empty line depends on nothing past the next brace. */
  lemma SameAsks(word: char -> bool, r: Text, u: Text, k: nat)
    requires AgreeToBrace(r, u, k)
    ensures Asks(word, r) == Asks(word, u) && Blanks(r, false) == Blanks(u, false)
  {
    SameBreaks(r, u, k);
    if Breaks(r) {
      var j := Blanks(r, false) + 1;
      AgreeLater(r, u, k, j);
      SameNextLine(word, r[j..], u[j..], k - j);
    }
  }

  lemma ScannedSnoc(s: Text, c: char)
    ensures Scanned(s + [c]) == Next(Scanned(s), c)
  {
    assert (s + [c])[..|s|] == s;
  }

  lemma {:induction false} ScannedWithBreak(a: Text, b: Text)
    ensures Scanned(a + ['\n'] + b) == Scanned(a + b)
  {
    var s := a + ['\n'];
    if |b| == 0 {
      ScannedSnoc(a, '\n');
      assert s + b == s && a + b == a;
    } else {
      var init, c := b[..|b| - 1], b[|b| - 1];
      ScannedWithBreak(a, init);
      ScannedSnoc(s + init, c);
      ScannedSnoc(a + init, c);
      assert s + b == s + init + [c] && a + b == a + init + [c];
    }
  }

  lemma BlankRuleOk(word: char -> bool)
    ensures RuleOk(BlankRule(word))
  {
    forall r: Text, u: Text, k: nat | AgreeToBrace(r, u, k) ensures BlankRule(word).asks(r) == BlankRule(word).asks(u) {
      SameAsks(word, r, u, k);
    }
    forall a: Text, b: Text ensures BlankRule(word).ends(a + ['\n'] + b) == BlankRule(word).ends(a + b) {
      ScannedWithBreak(a, b);
    }
  }

  ghost predicate NoneBetween(at: nat -> nat, i: int, n: nat) {
    forall k: nat :: i < k < n ==> at(k) == 0
  }

  lemma {:induction false} LastOf(at: nat -> nat, n: nat) returns (i: nat)
    requires |Collect(at, n)| > 0
    ensures i < n && at(i) > 0 && NoneBetween(at, i, n)
    ensures Collect(at, n) == Collect(at, i) + [at(i)]
  {
    if at(n - 1) > 0 {
      i := n - 1;
    } else {
      i := LastOf(at, n - 1);
    }
  }

  lemma {:induction false} SameCollected(at: nat -> nat, bt: nat -> nat, n: nat)
    requires forall k :: 0 <= k < n ==> at(k) == bt(k)
    ensures Collect(at, n) == Collect(bt, n)
  {
    if n > 0 {
      SameCollected(at, bt, n - 1);
    }
  }

  lemma {:induction false} NoneCollected(at: nat -> nat, from: nat, n: nat)
    requires from <= n && forall k :: from <= k < n ==> at(k) == 0
    ensures Collect(at, n) == Collect(at, from)
  {
    if from < n {
      NoneCollected(at, from, n - 1);
    }
  }

  /** The last edit there is. */
  ghost predicate IsLastEdit(rule: Rule, body: Text, i: nat) {
    EditsAt(rule, body, i) && NoneBetween(EditAt(rule, body), i, |body|)
  }

  lemma EditsBefore(rule: Rule, body: Text, i: nat, k: nat)
    requires BreaksLines(rule) && IsLocal(rule)
    requires EditsAt(rule, body, i) && k < i
    ensures EditsAt(rule, Ins(body, EditPos(body, i)), k) == EditsAt(rule, body, k)
    ensures EditPos(Ins(body, EditPos(body, i)), k) == EditPos(body, k)
  {
    EditPosBounds(rule, body, i);
    var p := EditPos(body, i);
    var u := Ins(body, p);
    assert u[..k] == body[..k] && u[k] == body[k];
    var r, v := body[k + 1..], u[k + 1..];
    assert r[..i - k - 1 + 1] == v[..i - k - 1 + 1];
    assert AgreeToBrace(r, v, i - k - 1);
    SameBlanks(r, v, i - k - 1, false);
  }

  lemma EditTaken(rule: Rule, body: Text, i: nat)
    requires BreaksLines(rule)
    requires EditsAt(rule, body, i)
    ensures !EditsAt(rule, Ins(body, EditPos(body, i)), i)
  {
    EditPosBounds(rule, body, i);
    var p := EditPos(body, i);
    var u := Ins(body, p);
    var j := p - 1 - i - 1;
    assert u[p] == '\n' && u[p - 1] == '\n';
    BlanksAre(body[i + 1..], false);
    var r, v := body[i + 1..], u[i + 1..];
    assert forall k :: 0 <= k < j ==> v[k] == r[k];
    BlanksGiven(v, j);
  }

  lemma {:induction false} BlanksGiven(r: Text, j: nat)
    requires j < |r| && (forall i :: 0 <= i < j ==> IsBlank(r[i], false)) && !IsBlank(r[j], false)
    ensures Blanks(r, false) == j
  {
    if j > 0 {
      BlanksGiven(r[1..], j - 1);
    }
  }

  lemma EditsAfter(rule: Rule, body: Text, i: nat, k: nat)
    requires BreaksLines(rule) && SkipsBreaks(rule)
    requires IsLastEdit(rule, body, i) && i < k
    ensures !EditsAt(rule, Ins(body, EditPos(body, i)), k)
  {
    EditPosBounds(rule, body, i);
    var p := EditPos(body, i);
    if k > p {
      assert k <= |body| ==> EditAt(rule, body)(k - 1) == 0;
      if k < |Ins(body, p)| {
        EditsMoveOn(rule, body, p, k);
      }
    } else {
      NoBraceUpTo(rule, body, i, k);
    }
  }

  lemma NoBraceUpTo(rule: Rule, body: Text, i: nat, k: nat)
    requires BreaksLines(rule) && EditsAt(rule, body, i) && i < k <= EditPos(body, i)
    ensures Ins(body, EditPos(body, i))[k] != '}'
  {
    EditPosBounds(rule, body, i);
  }

  /** What comes after a line break put in is as before, one place on. */
  lemma EditsMoveOn(rule: Rule, body: Text, p: nat, k: nat)
    requires SkipsBreaks(rule)
    requires p < k <= |body|
    ensures EditsAt(rule, Ins(body, p), k) == EditsAt(rule, body, k - 1)
  {
    var u := Ins(body, p);
    assert u[..k] == body[..p] + ['\n'] + body[p..k - 1];
    assert body[..k - 1] == body[..p] + body[p..k - 1];
    assert u[k + 1..] == body[k..] && u[k] == body[k - 1];
  }

  /** Carrying out the last edit takes it off the list and leaves the others. */
  lemma InsertLastEdit(rule: Rule, body: Text, i: nat)
    requires RuleOk(rule)
    requires IsLastEdit(rule, body, i)
    ensures Edits(rule, Ins(body, EditPos(body, i))) == Collect(EditAt(rule, body), i)
  {
    EditPosBounds(rule, body, i);
    var u := Ins(body, EditPos(body, i));
    forall k | 0 <= k < i ensures EditAt(rule, u)(k) == EditAt(rule, body)(k) {
      EditsBefore(rule, body, i, k);
    }
    SameCollected(EditAt(rule, body), EditAt(rule, u), i);
    forall k | i <= k < |u| ensures EditAt(rule, u)(k) == 0 {
      if k == i {
        EditTaken(rule, body, i);
      } else {
        EditsAfter(rule, body, i, k);
      }
    }
    NoneCollected(EditAt(rule, u), i, |u|);
  }

  // ----- the measure -----

  /** How many closing braces of the skeleton end a line that is not followed by an
      empty one. */
  function LooseBraces(t: Text): nat {
    if |t| == 0 then 0 else (if t[0] == '}' && Breaks(t[1..]) then 1 else 0) + LooseBraces(t[1..])
  }

  lemma {:induction false} NoBraceNoLoose(t: Text, k: nat)
    requires k <= |t| && forall i :: 0 <= i < k ==> t[i] != '}'
    ensures LooseBraces(t) == LooseBraces(t[k..])
  {
    if k > 0 {
      NoBraceNoLoose(t[1..], k - 1);
      assert t[1..][k - 1..] == t[k..];
    } else {
      assert t[k..] == t;
    }
  }

  /** A line break put after a loose brace's line: one loose brace less. */
  lemma {:induction false} LooseFalls(t: Text, i: nat)
    requires i < |t| && t[i] == '}' && Breaks(t[i + 1..])
    ensures var p := EditPos(t, i); 0 < p <= |t| && LooseBraces(Ins(t, p)) == LooseBraces(t) - 1
  {
    if i > 0 {
      var p := EditPos(t, i);
      assert t[1..][i - 1 + 1..] == t[i + 1..];
      LooseFalls(t[1..], i - 1);
      assert EditPos(t[1..], i - 1) == p - 1;
      InsLater(t, p, 1);
      HeadStays(t, p, i);
    } else {
      LooseHeadFalls(t);
    }
  }

  lemma HeadStays(t: Text, p: nat, i: nat)
    requires 0 < i < p <= |t| && t[i] == '}'
    ensures Breaks(Ins(t, p)[1..]) == Breaks(t[1..]) && Ins(t, p)[0] == t[0]
  {
    var u := Ins(t, p);
    assert t[1..][..i] == u[1..][..i];
    SameBreaks(t[1..], u[1..], i - 1);
  }

  lemma LooseHeadFalls(t: Text)
    requires |t| > 0 && t[0] == '}' && Breaks(t[1..])
    ensures var p := EditPos(t, 0); p <= |t| && LooseBraces(Ins(t, p)) == LooseBraces(t) - 1
  {
    var p := EditPos(t, 0);
    InsLater(t, p, 1);
    BrokenTwice(t[1..]);
  }

  lemma BrokenTwice(r: Text)
    requires Breaks(r)
    ensures var v := Ins(r, Blanks(r, false) + 1); !Breaks(v) && LooseBraces(v) == LooseBraces(r)
  {
    var p := Blanks(r, false) + 1;
    var v := Ins(r, p);
    BlanksAre(r, false);
    NoBraceNoLoose(r, p);
    NoBraceNoLoose(v, p + 1);
    assert v[p + 1..] == r[p..];
    BlanksGiven(v, p - 1);
  }
}
