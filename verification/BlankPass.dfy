/**
 blank_pass and the loop of transform_file that repeats it (tools/var_hoist.py), against
 the positions that BlankLines describes.
 */
module BlankPass {
  import opened Texts
  import opened Skeleton
  import opened Insertions
  import opened BlankLines

  // ----- one pass -----

  lemma {:induction false} InsertFirst(t: Text, q: nat, ps: seq<nat>)
    ensures InsertSeq(t, [q] + ps) == InsertSeq(Ins(t, q), ps)
  {
    var qs := [q] + ps;
    if |ps| == 0 {
      assert qs == [q] && qs[..0] == [];
    } else {
      assert qs[..|qs| - 1] == [q] + ps[..|ps| - 1];
      InsertFirst(t, q, ps[..|ps| - 1]);
    }
  }

  lemma {:induction false} BlanksLonger(r: Text, x: Text)
    requires Blanks(r, false) < |r|
    ensures Blanks(r + x, false) == Blanks(r, false)
  {
    if IsBlank(r[0], false) {
      assert (r + x)[1..] == r[1..] + x;
      BlanksLonger(r[1..], x);
    }
  }

  /** What breaks the line in the body breaks it in the whole text. */
  lemma EditIsLoose(rule: Rule, code: Text, open: nat, close: nat, i: nat)
    requires BreaksLines(rule)
    requires open <= close <= |code| && EditsAt(rule, code[open..close], i)
    ensures open + i < |code| && code[open + i] == '}' && Breaks(code[open + i + 1..])
    ensures EditPos(code, open + i) == open + EditPos(code[open..close], i)
  {
    var body := code[open..close];
    EditPosBounds(rule, body, i);
    var r, x := body[i + 1..], code[close..];
    assert code[open + i + 1..] == r + x;
    BlanksLonger(r, x);
  }

  lemma LastIsFirst(es: seq<nat>, p: nat, open: nat)
    ensures Reversed(Shifted(es + [p], open)) == [open + p] + Reversed(Shifted(es, open))
  {
  }

  /** The last edit of a body, and what carrying it out does to the list of edits. */
  lemma LastEditOf(rule: Rule, body: Text) returns (i: nat)
    requires RuleOk(rule)
    requires |Edits(rule, body)| > 0
    ensures EditsAt(rule, body, i)
    ensures Edits(rule, body) == Edits(rule, Ins(body, EditPos(body, i))) + [EditPos(body, i)]
  {
    i := LastOf(EditAt(rule, body), |body|);
    assert IsLastEdit(rule, body, i);
    InsertLastEdit(rule, body, i);
  }

  lemma InsIsInside(code: Text, open: nat, close: nat, p: nat)
    requires open <= close <= |code| && p <= close - open
    ensures Ins(code, open + p)[open..close + 1] == Ins(code[open..close], p)
  {
  }

  /** The first insertion of a pass, which is its last edit. */
  lemma FirstInsertion(rule: Rule, code: Text, open: nat, close: nat) returns (q: nat)
    requires RuleOk(rule)
    requires open <= close <= |code| && |PassEdits(rule, code, open, close)| > 0
    ensures 0 < q < |code| && code[q - 1] == '\n'
    ensures close + 1 <= |Ins(code, q)|
    ensures PassEdits(rule, code, open, close) == [q] + PassEdits(rule, Ins(code, q), open, close + 1)
    ensures LooseBraces(Ins(code, q)) == LooseBraces(code) - 1
  {
    hide Blanks, Collect;
    var body := code[open..close];
    var i := LastEditOf(rule, body);
    var p := EditPos(body, i);
    q := open + p;
    InsIsInside(code, open, close, p);
    LastIsFirst(Edits(rule, Ins(body, p)), p, open);
    EditPosInText(rule, code, open, close, i);
    LooseAfter(rule, code, open, close, i);
  }

  lemma EditPosInText(rule: Rule, code: Text, open: nat, close: nat, i: nat)
    requires BreaksLines(rule)
    requires open <= close <= |code| && EditsAt(rule, code[open..close], i)
    ensures var p := EditPos(code[open..close], i);
            0 < p <= close - open && 0 < open + p < |code| && code[open + p - 1] == '\n'
  {
    EditPosBounds(rule, code[open..close], i);
  }

  lemma LooseAfter(rule: Rule, code: Text, open: nat, close: nat, i: nat)
    requires BreaksLines(rule)
    requires open <= close <= |code| && EditsAt(rule, code[open..close], i)
    ensures LooseBraces(Ins(code, open + EditPos(code[open..close], i))) == LooseBraces(code) - 1
  {
    hide EditPos, Ins;
    EditIsLoose(rule, code, open, close, i);
    LooseAt(code, open + i, open + EditPos(code[open..close], i));
  }

  lemma LooseAt(code: Text, i: nat, q: nat)
    requires i < |code| && code[i] == '}' && Breaks(code[i + 1..]) && q == EditPos(code, i)
    ensures LooseBraces(Ins(code, q)) == LooseBraces(code) - 1
  {
    LooseFalls(code, i);
  }

  /** The insertions `ps` settle the body: they go into the skeleton as into the text,
      after which there is nothing more to insert and that many fewer loose braces. */
  ghost predicate Settles(rule: Rule, orig: Text, open: nat, close: nat, ps: seq<nat>) {
    var out := InsertSeq(orig, ps);
    && Fits(orig, ps) && open <= close && close + |ps| <= |out|
    && StripComments(out) == InsertSeq(StripComments(orig), ps)
    && |PassEdits(rule, StripComments(out), open, close + |ps|)| == 0
    && LooseBraces(StripComments(out)) + |ps| == LooseBraces(StripComments(orig))
  }

  lemma SettlesFirst(rule: Rule, orig: Text, open: nat, close: nat, q: nat, rest: seq<nat>)
    requires 0 < q <= |orig| && StripComments(orig)[q - 1] == '\n' && open <= close
    requires LooseBraces(Ins(StripComments(orig), q)) == LooseBraces(StripComments(orig)) - 1
    requires Settles(rule, Ins(orig, q), open, close + 1, rest)
    ensures Settles(rule, orig, open, close, [q] + rest)
  {
    hide Ins, EditsAt;
    StripOfInsert(orig, Code, q);
    InsertFirst(orig, q, rest);
    InsertFirst(StripComments(orig), q, rest);
    FitsFirst(orig, q, rest);
  }

  lemma {:induction false} PassSettles(rule: Rule, orig: Text, open: nat, close: nat)
    requires RuleOk(rule)
    requires open <= close <= |orig|
    ensures Settles(rule, orig, open, close, PassEdits(rule, StripComments(orig), open, close))
    decreases |PassEdits(rule, StripComments(orig), open, close)|
  {
    hide EditAt, Ins;
    var code := StripComments(orig);
    if |PassEdits(rule, code, open, close)| > 0 {
      var q := FirstInsertion(rule, code, open, close);
      StripOfInsert(orig, Code, q);
      PassSettles(rule, Ins(orig, q), open, close + 1);
      SettlesFirst(rule, orig, open, close, q, PassEdits(rule, Ins(code, q), open, close + 1));
    }
  }

  lemma FitsFirst(t: Text, q: nat, ps: seq<nat>)
    requires q <= |t| && Fits(Ins(t, q), ps)
    ensures Fits(t, [q] + ps)
  {
    var qs := [q] + ps;
    forall i | 0 <= i < |qs| ensures qs[i] <= |t| + i {
      if i > 0 {
        assert ps[i - 1] <= |Ins(t, q)| + (i - 1);
      }
    }
  }

  lemma BreaksHere(code: Text, from: nat, close: nat)
    requires from <= close <= |code|
    ensures var j := from + Blanks(code[from..close], false);
            Breaks(code[from..close]) <==> j + 1 < close && code[j] == '\n' && code[j + 1] != '\n'
  {
  }

  lemma AsksHere(word: char -> bool, code: Text, from: nat, close: nat)
    requires from <= close <= |code| && Breaks(code[from..close])
    ensures var j := from + Blanks(code[from..close], false) + 1;
            j <= close && Asks(word, code[from..close]) == NextLineAsks(word, code[j..close])
  {
    var j := from + Blanks(code[from..close], false) + 1;
    assert code[from..close][j - from..] == code[j..close];
  }

  lemma NextLineHere(word: char -> bool, code: Text, j: nat, close: nat)
    requires j <= close <= |code|
    ensures var p := j + Blanks(code[j..close], true);
            NextLineAsks(word, code[j..close]) <==>
              p < close && code[p] != '}' && code[p] != '#' && !Continues(word, code[p..close])
  {
    var p := Blanks(code[j..close], true);
    assert code[j..close][p..] == code[j + p..close];
  }

  predicate Here(t: Text) { true }

  /** The rule is that of blank_pass, to be looked up where a proof says so. */
  ghost predicate Follows(rule: Rule, word: char -> bool) {
    && (forall s: Text {:trigger Here(s)} :: Here(s) ==> (rule.ends(s) <==> EndsTopBlock(Scanned(s))))
    && (forall r: Text {:trigger Here(r)} :: Here(r) ==> (rule.asks(r) <==> Asks(word, r)))
  }

  /** The tests on the next line, once a brace's line ends before `j`. */
  method TestNextLine(word: char -> bool, code: Text, from: nat, j: nat, close: nat) returns (asks: bool)
    requires from <= close <= |code| && Breaks(code[from..close]) && j == from + Blanks(code[from..close], false) + 1
    ensures asks == Asks(word, code[from..close])
  {
    hide Blanks;
    AsksHere(word, code, from, close);
    NextLineHere(word, code, j, close);
    var p := Skip(code, j, close, true);
    asks := p < close && code[p] != '}' && code[p] != '#' && !Continues(word, code[p..close]);
  }

  /** The tests after a closing brace at `i`: where a line break is wanted, or 0. */
  method Wanted(word: char -> bool, ghost rule: Rule, code: Text, i: nat, close: nat) returns (pos: nat)
    requires Follows(rule, word) && i < close <= |code|
    ensures pos == if rule.asks(code[i + 1..close]) then i + 1 + Blanks(code[i + 1..close], false) + 1 else 0
  {
    hide IsBlank, Breaks;
    assert Here(code[i + 1..close]);
    BreaksHere(code, i + 1, close);
    var j := Skip(code, i + 1, close, false);
    pos := 0;
    if j < close && code[j] == '\n' && j + 1 < close && code[j + 1] != '\n' {
      var asks := TestNextLine(word, code, i + 1, j + 1, close);
      if asks {
        pos := j + 1;
      }
    }
  }

  method Skip(code: Text, from: nat, close: nat, cr: bool) returns (j: nat)
    requires from <= close <= |code|
    ensures j == from + Blanks(code[from..close], cr) <= close
  {
    j := from;
    while j < close && (code[j] == ' ' || code[j] == '\t' || (cr && code[j] == '\r'))
      invariant from <= j <= close
      invariant forall k :: from <= k < j ==> IsBlank(code[k], cr)
    {
      j := j + 1;
    }
    CountBlanks(code[from..close], j - from, cr);
  }

  lemma {:induction false} CountBlanks(r: Text, n: nat, cr: bool)
    requires n <= |r| && (forall i :: 0 <= i < n ==> IsBlank(r[i], cr)) && (n < |r| ==> !IsBlank(r[n], cr))
    ensures Blanks(r, cr) == n
  {
    if n > 0 {
      CountBlanks(r[1..], n - 1, cr);
    }
  }

  /** The position the `k`th character of a body asks for, or 0. */
  function Mark(rule: Rule, code: Text, open: nat, close: nat, k: nat): nat {
    var i := open + k;
    if i < close <= |code| && code[i] == '}' && rule.ends(code[open..i]) && rule.asks(code[i + 1..close])
    then i + 1 + Blanks(code[i + 1..close], false) + 1 else 0
  }

  function Marks(rule: Rule, code: Text, open: nat, close: nat): nat -> nat {
    (k: nat) => Mark(rule, code, open, close, k)
  }

  /** The braces' part of a turn of the scan. */
  method NextState(c: char, st: Scan) returns (st': Scan, ends: bool)
    ensures st' == Next(st, c)
    ensures ends <==> c == '}' && EndsTopBlock(st)
  {
    var depth, stack, last := st.depth, st.inits, st.last;
    ends := false;
    if c == '{' {
      depth := depth + 1;
      stack := stack + [last == '=' || last == ',' || last == '{'];
    } else if c == '}' {
      depth := depth - 1;
      var init := false;
      if |stack| > 0 {
        init, stack := stack[|stack| - 1], stack[..|stack| - 1];
      }
      ends := depth == 1 && !init;
    }
    if !IsWhite(c) {
      last := c;
    }
    st' := Scan(depth, stack, last);
  }

  lemma ScannedTo(code: Text, open: nat, i: nat)
    requires open <= i < |code|
    ensures Scanned(code[open..i + 1]) == Next(Scanned(code[open..i]), code[i])
  {
    ScannedSnoc(code[open..i], code[i]);
    assert code[open..i + 1] == code[open..i] + [code[i]];
  }

  /** One turn of the scan. */
  method ReadNext(word: char -> bool, ghost rule: Rule, code: Text, open: nat, i: nat, close: nat, st: Scan, edits: seq<nat>)
    returns (st': Scan, edits': seq<nat>)
    requires Follows(rule, word)
    requires open <= i < close <= |code| && st == Scanned(code[open..i])
    ensures st' == Scanned(code[open..i + 1])
    ensures var m := Mark(rule, code, open, close, i - open); edits' == edits + if m > 0 then [m] else []
  {
    hide Scanned;
    assert Here(code[open..i]);
    ScannedTo(code, open, i);
    var ends;
    st', ends := NextState(code[i], st);
    edits' := edits;
    if ends {
      var wanted := Wanted(word, rule, code, i, close);
      if wanted > 0 {
        edits' := edits + [wanted];
      }
    }
  }

  lemma CollectNext(at: nat -> nat, k: nat)
    ensures Collect(at, k + 1) == Collect(at, k) + if at(k) > 0 then [at(k)] else []
  {
  }

  /** The scan of blank_pass over the body. */
  method FindEdits(word: char -> bool, ghost rule: Rule, code: Text, open: nat, close: nat) returns (edits: seq<nat>)
    requires Follows(rule, word)
    requires open <= close <= |code|
    ensures edits == Collect(Marks(rule, code, open, close), close - open)
  {
    hide Mark;
    edits := [];
    var st := Scan(0, [], ' ');
    var i := open;
    while i < close
      invariant open <= i <= close && st == Scanned(code[open..i])
      invariant edits == Collect(Marks(rule, code, open, close), i - open)
    {
      CollectNext(Marks(rule, code, open, close), i - open);
      st, edits := ReadNext(word, rule, code, open, i, close, st, edits);
      i := i + 1;
    }
  }

  lemma MarkIsEdit(rule: Rule, code: Text, open: nat, close: nat, k: nat)
    requires open <= close <= |code| && k < close - open
    ensures var at := EditAt(rule, code[open..close])(k);
            Mark(rule, code, open, close, k) == if at > 0 then at + open else 0
  {
    var i := open + k;
    assert code[i + 1..close] == code[open..close][k + 1..];
    assert code[open..i] == code[open..close][..k];
  }

  lemma {:induction false} CollectShifted(at: nat -> nat, bt: nat -> nat, open: nat, n: nat)
    requires forall k :: 0 <= k < n ==> bt(k) == if at(k) > 0 then at(k) + open else 0
    ensures Collect(bt, n) == Shifted(Collect(at, n), open)
  {
    if n > 0 {
      CollectShifted(at, bt, open, n - 1);
    }
  }

  lemma MarksAreEdits(rule: Rule, code: Text, open: nat, close: nat)
    requires open <= close <= |code|
    ensures Collect(Marks(rule, code, open, close), close - open) == Shifted(Edits(rule, code[open..close]), open)
  {
    hide Collect;
    var at, bt := EditAt(rule, code[open..close]), Marks(rule, code, open, close);
    forall k | 0 <= k < close - open ensures bt(k) == if at(k) > 0 then at(k) + open else 0 {
      MarkIsEdit(rule, code, open, close, k);
    }
    CollectShifted(at, bt, open, close - open);
  }

  lemma InsertNext(t: Text, ps: seq<nat>, k: nat)
    requires Fits(t, ps) && k < |ps|
    ensures ps[k] <= |InsertSeq(t, ps[..k])|
    ensures InsertSeq(t, ps[..k + 1]) == Ins(InsertSeq(t, ps[..k]), ps[k])
  {
    InsertSeqLength(t, ps[..k]);
    assert ps[..k + 1][..k] == ps[..k];
  }

  /** The insertions of blank_pass, from the last edit to the first. */
  method InsertAll(orig: Text, edits: seq<nat>) returns (out: Text)
    requires Fits(orig, Reversed(edits))
    ensures out == InsertSeq(orig, Reversed(edits))
  {
    ghost var ps := Reversed(edits);
    out := orig;
    var n := |edits|;
    while n > 0
      invariant 0 <= n <= |edits| && out == InsertSeq(orig, ps[..|edits| - n])
    {
      InsertNext(orig, ps, |edits| - n);
      var pos := edits[n - 1];
      assert ps[|edits| - n] == pos;
      out := out[..pos] + ['\n'] + out[pos..];
      n := n - 1;
    }
    assert ps[..|edits|] == ps;
  }

  /** blank_pass.  Its edits come out in increasing order (EditsIncrease), so sorting
      them and dropping repeats, as the program does, leaves them as they are. */
  method BlankPassOver(word: char -> bool, ghost rule: Rule, orig: Text, code: Text, open: nat, close: nat)
    returns (out: Text)
    requires Follows(rule, word) && RuleOk(rule)
    requires code == StripComments(orig) && open <= close <= |code|
    ensures out == InsertSeq(orig, PassEdits(rule, code, open, close))
    ensures Settles(rule, orig, open, close, PassEdits(rule, code, open, close))
  {
    var edits := FindEdits(word, rule, code, open, close);
    MarksAreEdits(rule, code, open, close);
    PassSettles(rule, orig, open, close);
    out := InsertAll(orig, edits);
  }

  // ----- to a fixpoint -----

  type Finder = Text -> seq<(nat, nat)>

  predicate InText(code: Text, spans: seq<(nat, nat)>) {
    forall k :: 0 <= k < |spans| ==> spans[k].0 <= spans[k].1 <= |code|
  }

  /** The finder's bodies lie inside the text. */
  ghost predicate FinderOk(find: Finder) {
    forall code: Text :: InText(code, find(code))
  }

  ghost predicate NothingLeft(rule: Rule, code: Text, open: nat, close: nat)
    requires open <= close <= |code|
  {
    |PassEdits(rule, code, open, close)| == 0
  }

  /** No body from the `n`th on has anything left to insert. */
  ghost predicate SettledFrom(rule: Rule, code: Text, spans: seq<(nat, nat)>, n: nat)
    requires InText(code, spans)
    decreases |spans| - n
  {
    n >= |spans| || (NothingLeft(rule, code, spans[n].0, spans[n].1) && SettledFrom(rule, code, spans, n + 1))
  }

  lemma {:induction false} SettledMeans(rule: Rule, code: Text, spans: seq<(nat, nat)>, n: nat, k: nat)
    requires InText(code, spans) && SettledFrom(rule, code, spans, n) && n <= k < |spans|
    ensures NothingLeft(rule, code, spans[k].0, spans[k].1)
    decreases |spans| - n
  {
    if n < k {
      SettledMeans(rule, code, spans, n + 1, k);
    }
  }

  lemma {:induction false} InsertBoth(t: Text, ps: seq<nat>, qs: seq<nat>)
    requires Fits(t, ps) && Fits(InsertSeq(t, ps), qs)
    ensures Fits(t, ps + qs) && InsertSeq(t, ps + qs) == InsertSeq(InsertSeq(t, ps), qs)
  {
    InsertSeqLength(t, ps);
    forall i | 0 <= i < |ps + qs| ensures (ps + qs)[i] <= |t| + i {
      if i >= |ps| {
        assert qs[i - |ps|] <= |InsertSeq(t, ps)| + (i - |ps|);
      }
    }
    if |qs| == 0 {
      assert ps + qs == ps;
    } else {
      assert (ps + qs)[..|ps + qs| - 1] == ps + qs[..|qs| - 1];
      InsertBoth(t, ps, qs[..|qs| - 1]);
    }
  }

  /** The text with line breaks put in: they go into its skeleton too, and each is one
      loose brace less. */
  ghost predicate Padded(orig: Text, out: Text, ps: seq<nat>) {
    && Fits(orig, ps) && out == InsertSeq(orig, ps)
    && StripComments(out) == InsertSeq(StripComments(orig), ps)
    && LooseBraces(StripComments(out)) + |ps| == LooseBraces(StripComments(orig))
  }

  lemma PaddedTwice(orig: Text, mid: Text, out: Text, ps: seq<nat>, qs: seq<nat>)
    requires Padded(orig, mid, ps) && Padded(mid, out, qs)
    ensures Padded(orig, out, ps + qs)
  {
    InsertBoth(orig, ps, qs);
    InsertBoth(StripComments(orig), ps, qs);
  }

  lemma NotPadded(orig: Text)
    ensures Padded(orig, orig, [])
  {
  }

  /** The second loop of transform_file: whatever functions are found in each round, it
      ends, having inserted line breaks only, at most one a loose brace, and with
      nothing left to insert. */
  method SettleBlankLines(word: char -> bool, find: Finder, orig: Text)
    returns (out: Text, ghost ps: seq<nat>, ghost texts: seq<Text>)
    requires FinderOk(find)
    ensures InText(StripComments(out), find(StripComments(out)))
    ensures SettledFrom(BlankRule(word), StripComments(out), find(StripComments(out)), 0)
    ensures Padded(orig, out, ps)
    ensures |texts| > 0 && texts[0] == orig && texts[|texts| - 1] == out && Rounds(BlankRule(word), find, texts)
  {
    BlankRuleOk(word);
    BlankRuleFollows(word);
    out, ps, texts := SettleBy(word, BlankRule(word), find, orig);
  }

  lemma BlankRuleFollows(word: char -> bool)
    ensures Follows(BlankRule(word), word)
  {
  }

  method SettleBy(word: char -> bool, ghost rule: Rule, find: Finder, orig: Text)
    returns (out: Text, ghost ps: seq<nat>, ghost texts: seq<Text>)
    requires FinderOk(find) && Follows(rule, word) && RuleOk(rule)
    ensures InText(StripComments(out), find(StripComments(out)))
    ensures SettledFrom(rule, StripComments(out), find(StripComments(out)), 0)
    ensures Padded(orig, out, ps)
    ensures |texts| > 0 && texts[0] == orig && texts[|texts| - 1] == out && Rounds(rule, find, texts)
  {
    hide PassOf, Padded;
    out, ps, texts := orig, [], [orig];
    NotPadded(orig);
    while true
      invariant Padded(orig, out, ps)
      invariant |texts| > 0 && texts[0] == orig && texts[|texts| - 1] == out && Rounds(rule, find, texts)
      decreases LooseBraces(StripComments(out))
    {
      var code := StripComments(out);
      var funcs := find(code);
      assert InText(code, funcs);
      var did, next, more := OneRound(word, rule, funcs, out, code);
      if !did {
        return;
      }
      PaddedLowers(out, next, more);
      PaddedTwice(orig, out, next, ps, more);
      OneMoreRound(rule, find, texts, next);
      out, ps, texts := next, ps + more, texts + [next];
    }
  }

  lemma PaddedLowers(orig: Text, out: Text, ps: seq<nat>)
    requires Padded(orig, out, ps) && |ps| > 0
    ensures LooseBraces(StripComments(out)) < LooseBraces(StripComments(orig))
  {
  }

  /** `out` is the pass over function `n` of `orig`, the last that needs one. */
  ghost predicate PassOf(rule: Rule, funcs: seq<(nat, nat)>, orig: Text, out: Text, n: nat) {
    var code := StripComments(orig);
    && InText(code, funcs) && n < |funcs| && SettledFrom(rule, code, funcs, n + 1)
    && |PassEdits(rule, code, funcs[n].0, funcs[n].1)| > 0
    && out == InsertSeq(orig, PassEdits(rule, code, funcs[n].0, funcs[n].1))
  }

  ghost predicate RoundOf(rule: Rule, funcs: seq<(nat, nat)>, orig: Text, out: Text) {
    exists n: nat :: PassOf(rule, funcs, orig, out, n)
  }

  /** Each text is a round on from the one before. */
  ghost predicate Rounds(rule: Rule, find: Finder, texts: seq<Text>) {
    forall i :: 0 <= i < |texts| - 1 ==> RoundOf(rule, find(StripComments(texts[i])), texts[i], texts[i + 1])
  }

  lemma OneMoreRound(rule: Rule, find: Finder, texts: seq<Text>, out: Text)
    requires |texts| > 0 && Rounds(rule, find, texts)
    requires RoundOf(rule, find(StripComments(texts[|texts| - 1])), texts[|texts| - 1], out)
    ensures Rounds(rule, find, texts + [out])
  {
    hide RoundOf;
  }

  /** One round: the functions from the last to the first, until one is changed. */
  method OneRound(word: char -> bool, ghost rule: Rule, funcs: seq<(nat, nat)>, orig: Text, code: Text)
    returns (did: bool, out: Text, ghost ps: seq<nat>)
    requires Follows(rule, word) && RuleOk(rule)
    requires code == StripComments(orig) && InText(code, funcs)
    ensures !did ==> SettledFrom(rule, code, funcs, 0)
    ensures did ==> |ps| > 0 && Padded(orig, out, ps) && RoundOf(rule, funcs, orig, out)
  {
    hide PassEdits;
    did, out, ps := false, orig, [];
    var n := |funcs|;
    while n > 0 && !did
      invariant 0 <= n <= |funcs|
      invariant !did ==> SettledFrom(rule, code, funcs, n)
      invariant did ==> |ps| > 0 && Padded(orig, out, ps) && RoundOf(rule, funcs, orig, out)
      decreases n
    {
      n := n - 1;
      did, out, ps := PassChanges(word, rule, orig, code, funcs[n].0, funcs[n].1);
      assert did ==> PassOf(rule, funcs, orig, out, n);
    }
  }

  method PassChanges(word: char -> bool, ghost rule: Rule, orig: Text, code: Text, open: nat, close: nat)
    returns (did: bool, out: Text, ghost ps: seq<nat>)
    requires Follows(rule, word) && RuleOk(rule)
    requires code == StripComments(orig) && open <= close <= |code|
    ensures !did ==> NothingLeft(rule, code, open, close)
    ensures did ==> |ps| > 0 && Padded(orig, out, ps)
    ensures did ==> ps == PassEdits(rule, code, open, close) && out == InsertSeq(orig, ps)
  {
    out := BlankPassOver(word, rule, orig, code, open, close);
    ps := PassEdits(rule, code, open, close);
    InsertSeqLength(orig, ps);
    did := out != orig;
  }
}
