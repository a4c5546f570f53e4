/**
 The table size and hash of tools/cov_rt.c, and its two routines run without
 interference, as they are on a single thread.
 */
module CovHash {
  import opened CovRecorder

  const HSZ: nat := 0x4_0000
  const WORDS: nat := 0x1_0000_0000_0000_0000

  function Hash64(x0: bv64): bv64 {
    var x1 := x0 ^ (x0 >> 33);
    var x2 := x1 * 0xff51_afd7_ed55_8ccd;
    var x3 := x2 ^ (x2 >> 33);
    var x4 := x3 * 0xc4ce_b9fe_1a85_ec53;
    x4 ^ (x4 >> 33)
  }

  /** The finalizer of MurmurHash3, at two addresses. */
  lemma HashValues()
    ensures Hash64(1) == 0xb456bcfc34c2cb2c && Hash64(0x1_4000_1000) == 0x18b1f0096bf30de
  {
  }

  /** The slot a hash selects. */
  function Slot(x: bv64): (h: nat)
    ensures h < HSZ
  {
    var low: bv18 := (x & 0x3_ffff) as bv18;
    low as nat
  }

  function Home(k: Key): (h: nat)
    ensures h < HSZ
  {
    Slot(Hash64((k % WORDS) as bv64))
  }

  /** Masking the successor of a slot is wrapping around the table. */
  lemma MaskWraps(x: bv64)
    requires x <= 0x3_ffff
    ensures (x + 1) & 0x3_ffff == if x == 0x3_ffff then 0 else x + 1
  {
  }

  function Table(): Shape {
    Shape(HSZ, (k: Key) => Home(k))
  }

  lemma TableShapeOk()
    ensures ShapeOk(Table()) && Table().size == 262144
  {
    forall k: Key ensures Table().home(k) < HSZ {
      assert Home(k) < HSZ;
    }
  }

  /** __cyg_profile_func_enter on its own: the address ends up in the table, in the
      first empty slot on its way if it was not there, or the table is full.  The address
      0, which marks an empty slot, leaves no trace. */
  method ProfileEnter(p: Shape, htab: array<Key>, recording: bool, k: Key) returns (how: Result)
    requires ShapeOk(p) && TableOk(p, htab[..])
    modifies htab
    ensures TableOk(p, htab[..])
    ensures !recording <==> how == Ignored
    ensures how == Stored ==> k in htab[..]
    ensures how == Stored && k in old(htab[..]) ==> htab[..] == old(htab[..])
    ensures how == Stored && k !in old(htab[..]) ==>
      exists d :: 0 <= d < p.size && WayTaken(p, old(htab[..]), k, d) && old(htab[..])[At(p, p.home(k), d)] == 0
               && htab[..] == old(htab[..])[At(p, p.home(k), d) := k]
    ensures how == Full ==> k !in htab[..] && 0 !in htab[..]
    ensures how != Stored ==> htab[..] == old(htab[..])
  {
    if !recording {
      return Ignored;
    }
    ghost var t := htab[..];
    var h := p.home(k);
    var probes := 0;
    while probes < p.size
      invariant probes <= p.size && htab[..] == t
      invariant probes < p.size ==> h == At(p, p.home(k), probes)
      invariant WayTaken(p, t, k, probes)
    {
      if htab[h] == 0 {
        if k != 0 {
          KeyIsNewAtEmptySlot(p, t, k, probes);
          StoreKeepsTableOk(p, t, k, probes);
        }
        htab[h] := k;
        assert htab[..] == t[h := k];
        return Stored;
      }
      if htab[h] == k {
        return Stored;
      }
      h := if h + 1 < p.size then h + 1 else 0;
      probes := probes + 1;
    }
    forall j | 0 <= j < |t| ensures t[j] != k && t[j] != 0 {
      assert t[At(p, p.home(k), Dist(p, p.home(k), j))] != 0;
    }
    return Full;
  }

  /** The occupied slots, in slot order. */
  function NonZero(t: seq<Key>): seq<Key> {
    if t == [] then []
    else NonZero(t[..|t| - 1]) + if t[|t| - 1] != 0 then [t[|t| - 1]] else []
  }

  /** The loop of cov_dump. */
  method CovDump(htab: array<Key>) returns (out: seq<Key>)
    ensures out == NonZero(htab[..])
  {
    out := [];
    var i := 0;
    while i < htab.Length
      invariant i <= htab.Length && out == NonZero(htab[..i])
    {
      assert htab[..i + 1][..i] == htab[..i];
      var pc := htab[i];
      if pc != 0 {
        out := out + [pc];
      }
      i := i + 1;
    }
    assert htab[..i] == htab[..];
  }

  /** On a quiescent table the dump lists each stored address once and nothing else. */
  lemma {:induction false} NonZeroListsTable(t: seq<Key>)
    requires forall i, j :: 0 <= i < j < |t| && t[i] != 0 ==> t[i] != t[j]
    ensures forall k :: k in NonZero(t) <==> k in t && k != 0
    ensures forall a, b :: 0 <= a < b < |NonZero(t)| ==> NonZero(t)[a] != NonZero(t)[b]
  {
    if t != [] {
      var n := |t| - 1;
      var rest := NonZero(t[..n]);
      NonZeroListsTable(t[..n]);
      assert t == t[..n] + [t[n]];
      forall a | 0 <= a < |rest| && t[n] != 0 ensures rest[a] != t[n] {
        assert rest[a] in t[..n];
        var j :| 0 <= j < n && t[..n][j] == rest[a];
        assert t[j] == rest[a];
      }
    }
  }
}
