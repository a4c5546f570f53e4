/**
 The ranking of src/cognition/attention.c: the in-place insertion sort by score and the
 selection of the best candidates.

 What a candidate scores is a parameter; scores are real numbers, so none is undefined.
 */
module Attention {

  datatype Result = Result(index: nat, score: real)

  /** Ranks before: a higher score, or the same score and a lower index. */
  predicate Before(a: Result, b: Result) {
    a.score > b.score || (a.score == b.score && a.index < b.index)
  }

  predicate Ranked(s: seq<Result>) {
    forall i, j :: 0 <= i < j < |s| ==> Before(s[i], s[j])
  }

  predicate IndicesDistinct(s: seq<Result>) {
    forall i, j :: 0 <= i < j < |s| ==> s[i].index != s[j].index
  }

  /** What stable insertion of `x` into a ranked list gives: past all that do not score
      lower. */
  function Inserted(s: seq<Result>, x: Result): (r: seq<Result>)
    ensures |r| == |s| + 1
  {
    if |s| > 0 && s[|s| - 1].score < x.score then Inserted(s[..|s| - 1], x) + [s[|s| - 1]] else s + [x]
  }

  function Sorted(s: seq<Result>): (r: seq<Result>)
    ensures |r| == |s|
  {
    if |s| == 0 then [] else Inserted(Sorted(s[..|s| - 1]), s[|s| - 1])
  }

  // ----- the sort is a ranking of the same results -----

  lemma {:induction false} InsertedHas(s: seq<Result>, x: Result)
    ensures multiset(Inserted(s, x)) == multiset(s) + multiset{x}
  {
    if |s| > 0 && s[|s| - 1].score < x.score {
      InsertedHas(s[..|s| - 1], x);
      assert s == s[..|s| - 1] + [s[|s| - 1]];
    }
  }

  lemma {:induction false} SortedHas(s: seq<Result>)
    ensures multiset(Sorted(s)) == multiset(s)
  {
    hide Inserted;
    if |s| > 0 {
      SortedHas(s[..|s| - 1]);
      InsertedHas(Sorted(s[..|s| - 1]), s[|s| - 1]);
      assert s == s[..|s| - 1] + [s[|s| - 1]];
    }
  }

  /** Inserting a result that comes after all of the list in the input. */
  lemma {:induction false} InsertedIsRanked(s: seq<Result>, x: Result)
    requires Ranked(s) && forall i :: 0 <= i < |s| ==> s[i].index < x.index
    ensures Ranked(Inserted(s, x))
  {
    if |s| > 0 && s[|s| - 1].score < x.score {
      var init, last := s[..|s| - 1], s[|s| - 1];
      InsertedIsRanked(init, x);
      InsertedHas(init, x);
      var r := Inserted(init, x);
      forall i | 0 <= i < |r| ensures Before(r[i], last) {
        assert r[i] in multiset(init) + multiset{x};
        if r[i] != x {
          var k :| 0 <= k < |init| && init[k] == r[i];
          assert s[k] == r[i];
        }
      }
    } else if |s| > 0 {
      forall i | 0 <= i < |s| ensures Before(s[i], x) {
        assert i < |s| - 1 ==> Before(s[i], s[|s| - 1]);
      }
    }
  }

  predicate InOrder(s: seq<Result>) {
    forall i :: 0 <= i < |s| ==> s[i].index == i
  }

  lemma {:induction false} SortedIsRanked(s: seq<Result>)
    requires InOrder(s)
    ensures Ranked(Sorted(s))
  {
    if |s| > 0 {
      var init := s[..|s| - 1];
      SortedIsRanked(init);
      SortedHas(init);
      var r := Sorted(init);
      forall i | 0 <= i < |r| ensures r[i].index < s[|s| - 1].index {
        assert r[i] in multiset(init);
      }
      InsertedIsRanked(r, s[|s| - 1]);
    }
  }

  // ----- the sort in place -----

  /** sort_results. */
  method SortResults(r: array<Result>)
    modifies r
    ensures r[..] == Sorted(old(r[..]))
  {
    ghost var was := r[..];
    var i := 1;
    if r.Length == 0 {
      return;
    }
    assert r[..1] == Sorted(was[..1]);
    while i < r.Length
      invariant 1 <= i <= r.Length
      invariant r[..i] == Sorted(was[..i]) && r[i..] == was[i..]
    {
      assert was[..i + 1][..i] == was[..i];
      assert r[i] == was[i];
      InsertLast(r, i);
      assert r[i + 1..] == was[i..][1..];
      i := i + 1;
    }
    assert was[..i] == was && r[..i] == r[..];
  }

  /** One round of the sort: shift what scores lower, and put the key down. */
  method InsertLast(r: array<Result>, i: nat)
    requires i < r.Length
    modifies r
    ensures r[..i + 1] == Inserted(old(r[..i]), old(r[i]))
    ensures r[i + 1..] == old(r[i + 1..])
  {
    hide Inserted;
    ghost var was := r[..i];
    var key := r[i];
    var p := ShiftLower(r, i, key);
    r[p] := key;
    InsertedAt(was, key, p);
    Placed(r[..i + 1], was, key, p);
  }

  /** The inner loop: the entries with a lower score move up by one. */
  method ShiftLower(r: array<Result>, i: nat, key: Result) returns (p: nat)
    requires i < r.Length
    modifies r
    ensures p <= i && (p > 0 ==> old(r[p - 1]).score >= key.score)
    ensures forall m :: 0 <= m < p ==> r[m] == old(r[m])
    ensures forall m :: p <= m < i ==> r[m + 1] == old(r[m]) && old(r[m]).score < key.score
    ensures forall m :: i < m < r.Length ==> r[m] == old(r[m])
  {
    var j := i - 1;
    while j >= 0 && r[j].score < key.score
      invariant -1 <= j < i
      invariant forall m :: 0 <= m <= j ==> r[m] == old(r[m])
      invariant forall m :: j + 1 <= m < i ==> r[m + 1] == old(r[m]) && old(r[m]).score < key.score
      invariant forall m :: i < m < r.Length ==> r[m] == old(r[m])
    {
      r[j + 1] := r[j];
      j := j - 1;
    }
    return j + 1;
  }

  lemma Placed(r: seq<Result>, was: seq<Result>, key: Result, p: nat)
    requires p <= |was| && |r| == |was| + 1 && r[p] == key
    requires forall m :: 0 <= m < p ==> r[m] == was[m]
    requires forall m :: p <= m < |was| ==> r[m + 1] == was[m]
    ensures r == was[..p] + [key] + was[p..]
  {
    forall m | p < m < |r| ensures r[m] == was[m - 1] {
      assert r[(m - 1) + 1] == was[m - 1];
    }
  }

  lemma {:induction false} InsertedAt(s: seq<Result>, x: Result, p: nat)
    requires p <= |s| && (p > 0 ==> s[p - 1].score >= x.score)
    requires forall m :: p <= m < |s| ==> s[m].score < x.score
    ensures Inserted(s, x) == s[..p] + [x] + s[p..]
  {
    if p < |s| {
      InsertedAt(s[..|s| - 1], x, p);
    }
  }

  // ----- the selection -----

  /** The candidates with their scores, in their order. */
  function Scored(scores: seq<real>): (s: seq<Result>)
    ensures |s| == |scores|
  {
    seq(|scores|, i requires 0 <= i < |scores| => Result(i, scores[i]))
  }

  function Least(a: nat, b: nat): nat {
    if a < b then a else b
  }

  /** attention_select: the first of the ranking.  Without memory for the scores nothing
      is selected. */
  method Select(scores: seq<real>, topk: nat, memory: bool) returns (out: seq<Result>)
    ensures out == if memory then Sorted(Scored(scores))[..Least(topk, |scores|)] else []
  {
    hide Sorted;
    var n := |scores|;
    var k := if topk < n then topk else n;
    if n == 0 || topk == 0 || !memory {
      return [];
    }
    var tmp := new Result[n];
    var i := 0;
    while i < n
      invariant i <= n && tmp[..i] == Scored(scores)[..i]
    {
      tmp[i] := Result(i, scores[i]);
      i := i + 1;
    }
    assert tmp[..] == Scored(scores);
    SortResults(tmp);
    out := [];
    i := 0;
    while i < k
      invariant i <= k && out == tmp[..i]
    {
      out := out + [tmp[i]];
      i := i + 1;
    }
  }

  /** The selection is ranked, holds distinct candidates each with its score, and every
      candidate left out ranks after every one selected. */
  lemma SelectionIsBest(scores: seq<real>, topk: nat)
    ensures var out := Sorted(Scored(scores))[..Least(topk, |scores|)];
            && |out| == Least(topk, |scores|)
            && Ranked(out) && IndicesDistinct(out)
            && (forall r :: r in out ==> r.index < |scores| && r.score == scores[r.index])
            && (forall r, c :: r in out && 0 <= c < |scores| && Result(c, scores[c]) !in out ==> Before(r, Result(c, scores[c])))
  {
    hide Sorted, Before;
    var s := Scored(scores);
    var all := Sorted(s);
    var k := Least(topk, |scores|);
    SortedIsRanked(s);
    SortedHas(s);
    var out := all[..k];
    forall i, j | 0 <= i < j < |out| ensures out[i].index != out[j].index {
      RankedIndices(s, all, i, j);
    }
    forall r | r in out ensures r.index < |scores| && r.score == scores[r.index] {
      assert r in multiset(s);
    }
    forall r, c | r in out && 0 <= c < |scores| && Result(c, scores[c]) !in out ensures Before(r, Result(c, scores[c])) {
      assert s[c] in multiset(all);
      var i :| 0 <= i < k && all[i] == r;
      var j :| 0 <= j < |all| && all[j] == s[c];
      assert forall m :: 0 <= m < k ==> all[m] in out;
    }
  }

  /** A ranking of results with distinct indices still has distinct indices. */
  lemma RankedIndices(s: seq<Result>, all: seq<Result>, i: nat, j: nat)
    requires InOrder(s) && Ranked(all) && multiset(all) == multiset(s) && i < j < |all|
    ensures all[i].index != all[j].index
  {
    assert all[i] in multiset(s) && all[j] in multiset(s);
    assert Before(all[i], all[j]);
    var a :| 0 <= a < |s| && s[a] == all[i];
    var b :| 0 <= b < |s| && s[b] == all[j];
  }
}
