/**
 fs_files_equal of src/os/fs_compare.c, which compares two files in slices while they may
 be changing.

 A file is what is found under its name at each moment; the function looks at it once a
 moment, at the moments named below.
 */
module FsCompare {

  const SLICE: nat := 65536

  /** What is under a name; `stamp` is what fs_file_version gives. */
  datatype Entry = Missing | Directory | File(bytes: seq<nat>, stamp: nat)

  type History = nat -> Entry

  function Size(e: Entry): int {
    if e.File? then |e.bytes| else if e.Directory? then 0 else -1
  }

  function Version(e: Entry): int {
    if e.File? then e.stamp else -1
  }

  /** fs_read_file_slice; what is past the end of the file is not read. */
  function Slice(e: Entry, off: nat, count: nat): seq<nat> {
    if e.File? && off <= |e.bytes| then
      if off + count <= |e.bytes| then e.bytes[off..off + count] else e.bytes[off..]
    else []
  }

  // The moments: sizes, then stamps, then the slices in turn, then the stamps again.

  const LEFT_SIZE: nat := 0
  const RIGHT_SIZE: nat := 1
  const LEFT_STAMP: nat := 2
  const RIGHT_STAMP: nat := 3

  function LeftRead(k: nat): nat { 4 + 2 * k }
  function RightRead(k: nat): nat { 5 + 2 * k }

  function Count(size: nat, k: nat): nat
    requires k * SLICE <= size
  {
    if size - k * SLICE > SLICE then SLICE else size - k * SLICE
  }

  /** Slice `k` of both files was read in full and agreed. */
  predicate SliceAgrees(l: History, r: History, size: nat, k: nat)
    requires k * SLICE <= size
  {
    var a := Slice(l(LeftRead(k)), k * SLICE, Count(size, k));
    a == Slice(r(RightRead(k)), k * SLICE, Count(size, k)) && |a| == Count(size, k)
  }

  /** Slice `k` of both files was read in full and differed. */
  predicate SliceDiffers(l: History, r: History, size: nat, k: nat)
    requires k * SLICE <= size
  {
    var a, b := Slice(l(LeftRead(k)), k * SLICE, Count(size, k)), Slice(r(RightRead(k)), k * SLICE, Count(size, k));
    |a| == |b| == Count(size, k) && a != b
  }

  /** How many slices there are. */
  function Slices(size: nat): nat {
    (size + SLICE - 1) / SLICE
  }

  predicate Comparable(l: History, r: History) {
    l(LEFT_SIZE).File? && r(RIGHT_SIZE).File?
  }

  /** All slices agree, and both stamps are what they were before the first was read. */
  ghost predicate FoundEqual(l: History, r: History, size: nat, maxBytes: nat, memory: nat -> bool) {
    var n := Slices(size);
    && size <= maxBytes
    && (forall k :: 0 <= k < n ==> k * SLICE <= size && memory(k) && SliceAgrees(l, r, size, k))
    && Version(l(LEFT_STAMP)) == Version(l(LeftRead(n))) && Version(r(RIGHT_STAMP)) == Version(r(RightRead(n)))
  }

  /** The slice loop and its bounds: 1 when all slices agree, 0 when one differs before
      any is cut short, and -1 when one is cut short first; `memory` is whether a slice's
      buffers can be had. */
  method FilesEqual(l: History, r: History, maxBytes: nat, memory: nat -> bool) returns (result: int)
    ensures result == 1 || result == 0 || result == -1
    ensures !Comparable(l, r) ==> result == -1
    ensures Comparable(l, r) <==> l(0).File? && r(1).File?
    ensures Comparable(l, r) && Size(l(LEFT_SIZE)) != Size(r(RIGHT_SIZE)) ==> result == 0
    ensures Comparable(l, r) && Size(l(LEFT_SIZE)) == Size(r(RIGHT_SIZE)) ==>
      var size := Size(l(LEFT_SIZE)); var n := Slices(size);
      && (size > maxBytes ==> result == -1)
      && (result == 1 <==> FoundEqual(l, r, size, maxBytes, memory))
      && (result == 0 <==>
            size <= maxBytes
            && exists k :: 0 <= k < n && k * SLICE <= size && memory(k) && SliceDiffers(l, r, size, k)
                        && forall j :: 0 <= j < k ==> j * SLICE <= size && memory(j) && SliceAgrees(l, r, size, j))
  {
    hide Slice;
    var a, b := Size(l(LEFT_SIZE)), Size(r(RIGHT_SIZE));
    if a < 0 || b < 0 || l(LEFT_SIZE).Directory? || r(RIGHT_SIZE).Directory? {
      return -1;
    }
    if a != b {
      return 0;
    }
    if a > maxBytes {
      return -1;
    }
    var av, bv := Version(l(LEFT_STAMP)), Version(r(RIGHT_STAMP));
    var off, k := 0, 0;
    while off < a
      invariant k <= Slices(a) && off == (if k * SLICE <= a then k * SLICE else a)
      invariant off < a ==> k < Slices(a)
      invariant off == a ==> k == Slices(a)
      invariant forall j :: 0 <= j < k ==> j * SLICE <= a && memory(j) && SliceAgrees(l, r, a, j)
      decreases a - off
    {
      var count := if a - off > SLICE then SLICE else a - off;
      var ap, bp := Slice(l(LeftRead(k)), off, count), Slice(r(RightRead(k)), off, count);
      if !memory(k) || |ap| != count || |bp| != count {
        return -1;
      }
      if ap != bp {
        assert SliceDiffers(l, r, a, k);
        return 0;
      }
      assert SliceAgrees(l, r, a, k);
      off, k := off + count, k + 1;
    }
    result := if av == Version(l(LeftRead(k))) && bv == Version(r(RightRead(k))) then 1 else -1;
  }

  // ----- what a verdict says about the files -----

  /** A stamp that has not changed means that nothing has. */
  ghost predicate Stamped(h: History) {
    forall s: nat, m: nat, t: nat :: s <= m <= t && Version(h(s)) == Version(h(t)) ==> h(m) == h(s)
  }

  /** A byte is in the slice its place says. */
  lemma ByteInSlice(e: Entry, size: nat, i: nat)
    requires i < size
    ensures var k := i / SLICE;
            && k < Slices(size) && k * SLICE <= i && i - k * SLICE < Count(size, k)
            && (|Slice(e, k * SLICE, Count(size, k))| == Count(size, k) ==>
                  e.File? && i < |e.bytes| && Slice(e, k * SLICE, Count(size, k))[i - k * SLICE] == e.bytes[i])
  {
  }

  /** Found equal, the files as they were from the first stamp to the last had the same
      first bytes, as many as the sizes said. */
  lemma EqualVerdictIsTrue(l: History, r: History, size: nat, maxBytes: nat, memory: nat -> bool, i: nat)
    requires FoundEqual(l, r, size, maxBytes, memory) && Stamped(l) && Stamped(r) && i < size
    ensures var a, b := l(LEFT_STAMP), r(RIGHT_STAMP);
            a.File? && b.File? && i < |a.bytes| && i < |b.bytes| && a.bytes[i] == b.bytes[i]
  {
    var k, n := i / SLICE, Slices(size);
    ByteInSlice(l(LeftRead(k)), size, i);
    ByteInSlice(r(RightRead(k)), size, i);
    assert SliceAgrees(l, r, size, k);
    assert LEFT_STAMP <= LeftRead(k) <= LeftRead(n) && RIGHT_STAMP <= RightRead(k) <= RightRead(n);
    assert l(LeftRead(k)) == l(LEFT_STAMP) && r(RightRead(k)) == r(RIGHT_STAMP);
  }

  /** The files at the first stamps were equal, if found equal, exactly when what lies past
      the size that was looked at is equal too. */
  lemma EqualAtStampsExactly(l: History, r: History, size: nat, maxBytes: nat, memory: nat -> bool)
    requires FoundEqual(l, r, size, maxBytes, memory) && Stamped(l) && Stamped(r)
    requires l(LEFT_STAMP).File? && r(RIGHT_STAMP).File?
    ensures var a, b := l(LEFT_STAMP).bytes, r(RIGHT_STAMP).bytes;
            size <= |a| && size <= |b| && (a == b <==> a[size..] == b[size..])
  {
    var a, b := l(LEFT_STAMP).bytes, r(RIGHT_STAMP).bytes;
    forall i | 0 <= i < size ensures i < |a| && i < |b| && a[i] == b[i] {
      EqualVerdictIsTrue(l, r, size, maxBytes, memory, i);
    }
    if size > 0 {
      EqualVerdictIsTrue(l, r, size, maxBytes, memory, size - 1);
    }
    assert a[..size] == b[..size];
    assert a == a[..size] + a[size..] && b == b[..size] + b[size..];
  }

  /** What a caller can see to: if each file had the same size when its stamp was taken as
      when its size was, the verdict means equality. */
  lemma SameSizeMeansEqual(l: History, r: History, maxBytes: nat, memory: nat -> bool)
    requires Comparable(l, r) && Size(l(LEFT_SIZE)) == Size(r(RIGHT_SIZE)) && Stamped(l) && Stamped(r)
    requires FoundEqual(l, r, Size(l(LEFT_SIZE)), maxBytes, memory)
    requires l(LEFT_STAMP).File? && Size(l(LEFT_STAMP)) == Size(l(LEFT_SIZE))
    requires r(RIGHT_STAMP).File? && Size(r(RIGHT_STAMP)) == Size(r(RIGHT_SIZE))
    ensures l(LEFT_STAMP).bytes == r(RIGHT_STAMP).bytes
  {
    EqualAtStampsExactly(l, r, Size(l(LEFT_SIZE)), maxBytes, memory);
  }

  /** Nothing changes from the look at the sizes to that at the last stamps. */
  ghost predicate StillWhileCompared(l: History, r: History, a: Entry, b: Entry, size: nat) {
    && (forall t :: LEFT_SIZE <= t <= LeftRead(Slices(size)) ==> l(t) == a)
    && (forall t :: RIGHT_SIZE <= t <= RightRead(Slices(size)) ==> r(t) == b)
  }

  /** Files that nobody touches while they are compared are found equal exactly when
      they are. */
  lemma StillFilesAreCompared(l: History, r: History, a: Entry, b: Entry, maxBytes: nat, memory: nat -> bool)
    requires a.File? && b.File? && |a.bytes| == |b.bytes| <= maxBytes
    requires StillWhileCompared(l, r, a, b, |a.bytes|) && forall k :: 0 <= k < Slices(|a.bytes|) ==> memory(k)
    ensures FoundEqual(l, r, |a.bytes|, maxBytes, memory) <==> a.bytes == b.bytes
  {
    var size := |a.bytes|;
    forall k | 0 <= k <= Slices(size) ensures l(LeftRead(k)) == a && r(RightRead(k)) == b {
      assert LEFT_SIZE <= LeftRead(k) <= LeftRead(Slices(size)) && RIGHT_SIZE <= RightRead(k) <= RightRead(Slices(size));
    }
    if a.bytes == b.bytes {
      forall k | 0 <= k < Slices(size) ensures k * SLICE <= size && SliceAgrees(l, r, size, k) {
      }
    }
    if FoundEqual(l, r, size, maxBytes, memory) {
      forall i | 0 <= i < size ensures a.bytes[i] == b.bytes[i] {
        var k := i / SLICE;
        ByteInSlice(a, size, i);
        ByteInSlice(b, size, i);
        assert SliceAgrees(l, r, size, k);
      }
    }
  }

  /** Without that condition: a file that grows between the look at its size and the look
      at its stamp is found equal to one that is shorter. */
  lemma GrowthIsMissed(memory: nat -> bool)
    ensures exists l: History, r: History ::
              Size(l(LEFT_SIZE)) == Size(r(RIGHT_SIZE)) == 0 && FoundEqual(l, r, 0, 0, memory)
              && Stamped(l) && Stamped(r) && Size(l(LEFT_STAMP)) != Size(r(RIGHT_STAMP))
  {
    var l: History := t => if t == 0 then File([], 0) else File([7], 1);
    var r: History := t => File([], 0);
    assert Size(l(LEFT_SIZE)) == Size(r(RIGHT_SIZE)) == 0 && FoundEqual(l, r, 0, 0, memory);
    assert Size(l(LEFT_STAMP)) != Size(r(RIGHT_STAMP));
  }
}
