/**
 Line breaks inserted into a text of tools/var_hoist.py: erasing them, and what they do
 to its skeleton.
 */
module Insertions {
  import opened Texts
  import opened Skeleton

  function Ins(t: Text, p: nat): Text {
    if p <= |t| then t[..p] + ['\n'] + t[p..] else t
  }

  /** Line breaks inserted one after the other. */
  function InsertSeq(t: Text, ps: seq<nat>): Text {
    if |ps| == 0 then t else Ins(InsertSeq(t, ps[..|ps| - 1]), ps[|ps| - 1])
  }

  function Remove(t: Text, p: nat): Text {
    if p < |t| then t[..p] + t[p + 1..] else t
  }

  function RemoveSeq(t: Text, ps: seq<nat>): Text {
    if |ps| == 0 then t else RemoveSeq(Remove(t, ps[|ps| - 1]), ps[..|ps| - 1])
  }

  /** Every position is inside the text it is inserted into. */
  ghost predicate Fits(t: Text, ps: seq<nat>) {
    forall i :: 0 <= i < |ps| ==> ps[i] <= |t| + i
  }

  lemma {:induction false} InsertSeqLength(t: Text, ps: seq<nat>)
    requires Fits(t, ps)
    ensures |InsertSeq(t, ps)| == |t| + |ps|
  {
    if |ps| > 0 {
      InsertSeqLength(t, ps[..|ps| - 1]);
    }
  }

  /** Erasing the inserted line breaks gives the text back. */
  lemma {:induction false} RemoveInserted(t: Text, ps: seq<nat>)
    requires Fits(t, ps)
    ensures RemoveSeq(InsertSeq(t, ps), ps) == t
  {
    if |ps| > 0 {
      var n := |ps| - 1;
      var s, p := InsertSeq(t, ps[..n]), ps[n];
      InsertSeqLength(t, ps[..n]);
      RemoveInserted(t, ps[..n]);
      assert Remove(Ins(s, p), p) == s;
    }
  }

  // ----- inserting and stripping -----

  lemma {:induction false} StripOfInsert(t: Text, m: Mode, p: nat)
    requires 0 < p <= |t| && Strip(t, m)[p - 1] == '\n'
    ensures Strip(Ins(t, p), m) == Ins(Strip(t, m), p)
  {
    if StartsPair(t, m) {
      PairBeforeBreak(t, m, p);
      StripOfInsert(t[2..], AfterPair(t[1], m), p - 2);
      InsertAfterPair(t, m, p);
    } else if p == 1 {
      NewlineOnItsOwn(t, m);
    } else {
      CharBeforeBreak(t, m, p);
      StripOfInsert(t[1..], AfterChar(t[0], m), p - 1);
      InsertAfterChar(t, m, p);
    }
  }

  lemma PairBeforeBreak(t: Text, m: Mode, p: nat)
    requires 0 < p <= |t| && Strip(t, m)[p - 1] == '\n' && StartsPair(t, m)
    ensures p > 2 && Strip(t[2..], AfterPair(t[1], m))[p - 3] == '\n'
    ensures Strip(t, m)[..2] == [' ', ' '] && Strip(t, m)[2..] == Strip(t[2..], AfterPair(t[1], m))
  {
  }

  lemma CharBeforeBreak(t: Text, m: Mode, p: nat)
    requires 1 < p <= |t| && Strip(t, m)[p - 1] == '\n' && !StartsPair(t, m)
    ensures Strip(t[1..], AfterChar(t[0], m))[p - 2] == '\n'
    ensures Strip(t, m)[..1] == [Kept(t[0], m)] && Strip(t, m)[1..] == Strip(t[1..], AfterChar(t[0], m))
  {
  }

  lemma InsertAfterPair(t: Text, m: Mode, p: nat)
    requires 2 < p <= |t| && StartsPair(t, m) && Strip(t, m)[p - 1] == '\n'
    requires Strip(Ins(t[2..], p - 2), AfterPair(t[1], m)) == Ins(Strip(t[2..], AfterPair(t[1], m)), p - 2)
    ensures Strip(Ins(t, p), m) == Ins(Strip(t, m), p)
  {
    PairBeforeBreak(t, m, p);
    InsLater(t, p, 2);
    InsLater(Strip(t, m), p, 2);
    ReadsPair(Ins(t, p), t, m);
  }

  lemma InsertAfterChar(t: Text, m: Mode, p: nat)
    requires 1 < p <= |t| && !StartsPair(t, m) && Strip(t, m)[p - 1] == '\n'
    requires Strip(Ins(t[1..], p - 1), AfterChar(t[0], m)) == Ins(Strip(t[1..], AfterChar(t[0], m)), p - 1)
    ensures Strip(Ins(t, p), m) == Ins(Strip(t, m), p)
  {
    CharBeforeBreak(t, m, p);
    InsLater(t, p, 1);
    InsLater(Strip(t, m), p, 1);
    ReadsChar(Ins(t, p), t, m);
  }

  lemma InsLater(t: Text, p: nat, k: nat)
    requires k <= p <= |t|
    ensures Ins(t, p) == t[..k] + Ins(t[k..], p - k)
    ensures Ins(t, p)[k..] == Ins(t[k..], p - k) && Ins(t, p)[..k] == t[..k]
  {
    assert t[..p] == t[..k] + t[k..][..p - k];
    assert t[p..] == t[k..][p - k..];
  }

  lemma ReadsPair(u: Text, t: Text, m: Mode)
    requires |t| > 1 && |u| > 1 && u[..2] == t[..2] && StartsPair(t, m)
    ensures Strip(u, m) == [' ', ' '] + Strip(u[2..], AfterPair(t[1], m))
  {
    assert u[0] == t[0] by { assert u[..2][0] == t[..2][0]; }
    assert u[1] == t[1] by { assert u[..2][1] == t[..2][1]; }
  }

  lemma ReadsChar(u: Text, t: Text, m: Mode)
    requires |t| > 1 && |u| > 1 && u[0] == t[0] && u[1] == t[1] && !StartsPair(t, m)
    ensures Strip(u, m) == [Kept(t[0], m)] + Strip(u[1..], AfterChar(t[0], m))
  {
  }

  lemma NewlineOnItsOwn(t: Text, m: Mode)
    requires |t| > 0 && !StartsPair(t, m) && Kept(t[0], m) == '\n'
    ensures Strip(Ins(t, 1), m) == Ins(Strip(t, m), 1)
  {
    var m' := AfterChar('\n', m);
    var u := Ins(t, 1);
    var v := ['\n'] + t[1..];
    assert u[1..] == v && v[1..] == t[1..];
    NewlineStays(m);
    assert Strip(u, m) == ['\n'] + Strip(v, m');
    assert Strip(v, m') == ['\n'] + Strip(t[1..], m');
    assert Strip(t, m)[1..] == Strip(t[1..], m');
  }

  lemma NewlineStays(m: Mode)
    ensures var m' := AfterChar('\n', m); AfterChar('\n', m') == m' && Kept('\n', m') == '\n' && m' != Line
    ensures forall c :: Kept(c, m) == '\n' ==> c == '\n'
  {
  }
}
