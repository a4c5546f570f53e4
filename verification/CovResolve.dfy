/**
 tools/cov_resolve.c: matching recorded entry addresses against the symbols of an
 executable, and the per-file report.  Enumerating the symbols and printing are not
 part of this model; the two hits files are read as parsed lines.
 */
module CovResolve {
  import opened CovRecorder
  import opened CovHash

  datatype Sym = Sym(addr: nat, name: string, file: string, hit: bool)

  /** A line of the hits file: "BASE x", a hexadecimal address, or neither. */
  datatype Line = BaseLine(base: nat) | PcLine(pc: nat) | OtherLine

  /** The project root of the command line, if given. */
  datatype Root = NoRoot | Below(dir: string)

  datatype Row = Row(file: string, total: nat, covered: nat)

  // ----- the order of the symbols -----

  predicate Sorted(s: seq<Sym>) {
    forall i, j :: 0 <= i < j < |s| ==> s[i].addr <= s[j].addr
  }

  function Insert(x: Sym, s: seq<Sym>): seq<Sym> {
    if s == [] || x.addr <= s[0].addr then [x] + s else [s[0]] + Insert(x, s[1..])
  }

  lemma {:induction false} InsertHas(x: Sym, s: seq<Sym>)
    ensures multiset(Insert(x, s)) == multiset(s) + multiset{x}
  {
    if s != [] && x.addr > s[0].addr {
      InsertHas(x, s[1..]);
      assert s == [s[0]] + s[1..];
    }
  }

  lemma {:induction false} InsertSorts(x: Sym, s: seq<Sym>)
    requires Sorted(s)
    ensures Sorted(Insert(x, s))
  {
    if s != [] && x.addr > s[0].addr {
      InsertSorts(x, s[1..]);
      InsertHas(x, s[1..]);
      var r := Insert(x, s[1..]);
      forall i | 0 <= i < |r| ensures s[0].addr <= r[i].addr {
        assert r[i] in multiset(s[1..]) + multiset{x};
      }
    }
  }

  /** Every list has a sorted rearrangement; which one qsort picks is left open. */
  lemma {:induction false} SomeSortedOrder(s: seq<Sym>) returns (r: seq<Sym>)
    ensures Sorted(r) && multiset(r) == multiset(s)
  {
    if s == [] {
      r := [];
    } else {
      var t := SomeSortedOrder(s[1..]);
      assert s == [s[0]] + s[1..];
      InsertHas(s[0], t);
      InsertSorts(s[0], t);
      r := Insert(s[0], t);
    }
  }

  /** find_sym: the first symbol at exactly this address. */
  method FindSym(syms: array<Sym>, target: nat) returns (i: int)
    requires Sorted(syms[..])
    ensures i < 0 ==> forall j :: 0 <= j < syms.Length ==> syms[j].addr != target
    ensures i >= 0 ==> i < syms.Length && syms[i].addr == target && forall j :: 0 <= j < i ==> syms[j].addr < target
  {
    var lo, hi := 0, syms.Length - 1;
    while lo <= hi
      invariant 0 <= lo <= hi + 1 <= syms.Length
      invariant forall j :: 0 <= j < lo ==> syms[..][j].addr < target
      invariant forall j :: hi < j < syms.Length ==> target < syms[..][j].addr
    {
      var mid := (lo + hi) / 2;
      assert forall j :: 0 <= j < mid ==> syms[..][j].addr <= syms[..][mid].addr;
      assert forall j :: mid < j < syms.Length ==> syms[..][mid].addr <= syms[..][j].addr;
      if syms[mid].addr == target {
        while mid > 0 && syms[mid - 1].addr == target
          invariant 0 <= mid < syms.Length && syms[mid].addr == target
        {
          mid := mid - 1;
        }
        assert forall j :: 0 <= j < mid - 1 ==> syms[..][j].addr <= syms[..][mid - 1].addr;
        assert mid > 0 ==> syms[..][mid - 1].addr <= syms[..][mid].addr;
        assert forall j :: 0 <= j < mid ==> syms[..][j].addr < target;
        return mid;
      }
      if syms[mid].addr < target {
        lo := mid + 1;
      } else {
        hi := mid - 1;
      }
    }
    assert forall j :: 0 <= j < syms.Length ==> syms[..][j].addr != target;
    return -1;
  }

  // ----- marking -----

  /** From the recording process's address to the resolver's, in 64 bits. */
  function Relocate(modBase: nat, base: nat, pc: nat): nat {
    (modBase + (pc - base) % WORDS) % WORDS
  }

  /** What lies `offset` past the base recorded lies `offset` past the base loaded. */
  lemma OffsetIsKept(modBase: nat, base: nat, offset: nat)
    ensures Relocate(modBase, base, (base + offset) % WORDS) == (modBase + offset) % WORDS
  {
  }

  /** What "%llx" makes of a line; of "BASE ..." it reads the leading BA. */
  function LinePc(l: Line): int {
    match l
    case PcLine(pc) => pc
    case BaseLine(_) => 0xBA
    case OtherLine => -1
  }

  /** The symbols' hit marks after the addresses of a set have been marked. */
  function Marked(s: seq<Sym>, addrs: set<nat>): (r: seq<Sym>)
    ensures |r| == |s|
  {
    seq(|s|, i requires 0 <= i < |s| => s[i].(hit := s[i].hit || s[i].addr in addrs))
  }

  function Relocated(modBase: nat, base: nat, lines: seq<Line>): set<nat> {
    if lines == [] then {}
    else
      var pc := LinePc(lines[|lines| - 1]);
      Relocated(modBase, base, lines[..|lines| - 1]) + if pc < 0 then {} else {Relocate(modBase, base, pc)}
  }

  lemma {:induction false} RelocatedHas(modBase: nat, base: nat, lines: seq<Line>, a: nat)
    ensures a in Relocated(modBase, base, lines) <==>
            exists j :: 0 <= j < |lines| && LinePc(lines[j]) >= 0 && Relocate(modBase, base, LinePc(lines[j])) == a
  {
    if lines != [] {
      var n := |lines| - 1;
      RelocatedHas(modBase, base, lines[..n], a);
      if a in Relocated(modBase, base, lines[..n]) {
        var j :| 0 <= j < n && LinePc(lines[..n][j]) >= 0 && Relocate(modBase, base, LinePc(lines[..n][j])) == a;
        assert LinePc(lines[j]) >= 0 && Relocate(modBase, base, LinePc(lines[j])) == a;
      } else {
        assert forall j :: 0 <= j < n ==> lines[j] == lines[..n][j];
      }
    }
  }

  /** The count of resolved lines is the number of lines whose address, relocated, is that of
      a symbol. */
  lemma {:induction false} ResolvedIs(s: seq<Sym>, modBase: nat, base: nat, lines: seq<Line>)
    ensures Resolved(s, modBase, base, lines)
         == |set j | 0 <= j < |lines| && LinePc(lines[j]) >= 0 && Known(s, Relocate(modBase, base, LinePc(lines[j])))|
  {
    hide Known;
    var hits := set j | 0 <= j < |lines| && LinePc(lines[j]) >= 0 && Known(s, Relocate(modBase, base, LinePc(lines[j])));
    if lines == [] {
      assert hits == {};
    } else {
      var n := |lines| - 1;
      ResolvedIs(s, modBase, base, lines[..n]);
      var before := set j | 0 <= j < n && LinePc(lines[..n][j]) >= 0 && Known(s, Relocate(modBase, base, LinePc(lines[..n][j])));
      assert hits == before + if n in hits then {n} else {};
    }
  }

  predicate Known(s: seq<Sym>, a: nat) {
    exists i :: 0 <= i < |s| && s[i].addr == a
  }

  /** The lines that name a symbol's entry. */
  function Resolved(s: seq<Sym>, modBase: nat, base: nat, lines: seq<Line>): nat {
    if lines == [] then 0
    else
      var pc := LinePc(lines[|lines| - 1]);
      Resolved(s, modBase, base, lines[..|lines| - 1])
        + if pc >= 0 && Known(s, Relocate(modBase, base, pc)) then 1 else 0
  }

  /** One line's worth of marking: all the symbols at the address, aliases included. */
  method MarkAt(syms: array<Sym>, a: nat) returns (found: bool)
    requires Sorted(syms[..])
    modifies syms
    ensures syms[..] == Marked(old(syms[..]), {a})
    ensures found == Known(old(syms[..]), a)
  {
    ghost var was := syms[..];
    var first := FindSym(syms, a);
    if first < 0 {
      assert forall j :: 0 <= j < |was| ==> was[j].addr != a;
      return false;
    }
    assert was[first].addr == a;
    var i := first;
    while i < syms.Length && syms[i].addr == a
      invariant first <= i <= syms.Length
      invariant forall j :: first <= j < i ==> was[j].addr == a && syms[j] == was[j].(hit := true)
      invariant forall j :: 0 <= j < first || i <= j < syms.Length ==> syms[j] == was[j]
    {
      syms[i] := syms[i].(hit := true);
      i := i + 1;
    }
    forall j | i <= j < |was| ensures was[j].addr != a {
      assert was[first].addr <= was[i].addr <= was[j].addr;
    }
    return true;
  }

  lemma MarkedTwice(s: seq<Sym>, a: set<nat>, b: set<nat>)
    ensures Marked(Marked(s, a), b) == Marked(s, a + b)
    ensures Sorted(s) ==> Sorted(Marked(s, a))
  {
  }

  lemma KnownWhenMarked(s: seq<Sym>, addrs: set<nat>, a: nat)
    ensures Known(Marked(s, addrs), a) == Known(s, a)
  {
    var m := Marked(s, addrs);
    assert forall i :: 0 <= i < |s| ==> m[i].addr == s[i].addr;
    if i :| 0 <= i < |s| && s[i].addr == a {
      assert m[i].addr == a;
    }
  }

  /** The loop over the hits file, whose first line gives the recorded base. */
  method MarkHits(syms: array<Sym>, modBase: nat, lines: seq<Line>) returns (nHit: nat)
    requires Sorted(syms[..])
    modifies syms
    ensures syms[..] == Marked(old(syms[..]), Relocated(modBase, RecordedBase(lines), Body(lines)))
    ensures nHit == Resolved(old(syms[..]), modBase, RecordedBase(lines), Body(lines))
  {
    hide Known;
    ghost var was := syms[..];
    var base := 0;
    if |lines| > 0 && lines[0].BaseLine? {
      base := lines[0].base;
    }
    nHit := 0;
    var rest := Body(lines);
    var i := 0;
    assert syms[..] == Marked(was, {});
    while i < |rest|
      invariant i <= |rest|
      invariant Sorted(syms[..]) && syms[..] == Marked(was, Relocated(modBase, base, rest[..i]))
      invariant nHit == Resolved(was, modBase, base, rest[..i])
    {
      assert rest[..i + 1][..i] == rest[..i];
      ghost var so := Relocated(modBase, base, rest[..i]);
      var pc := LinePc(rest[i]);
      if pc >= 0 {
        var a := Relocate(modBase, base, pc);
        KnownWhenMarked(was, so, a);
        MarkedTwice(was, so, {a});
        MarkedTwice(was, so + {a}, {});
        var found := MarkAt(syms, a);
        if found {
          nHit := nHit + 1;
        }
      }
      i := i + 1;
    }
    assert rest[..i] == rest;
  }

  function RecordedBase(lines: seq<Line>): nat {
    if |lines| > 0 && lines[0].BaseLine? then lines[0].base else 0
  }

  function Body(lines: seq<Line>): seq<Line> {
    if |lines| > 0 then lines[1..] else []
  }

  // ----- the names of the rows -----

  predicate IsSep(c: char) { c == '/' || c == '\\' }

  /** Where what follows the last separator begins. */
  function BaseAt(p: string): (b: nat)
    ensures b <= |p|
  {
    if |p| == 0 || IsSep(p[|p| - 1]) then |p| else BaseAt(p[..|p| - 1])
  }

  function BaseName(p: string): string {
    p[BaseAt(p)..]
  }

  function Stripped(p: string): string {
    if |p| > 0 && IsSep(p[0]) then Stripped(p[1..]) else p
  }

  method BaseOf(p: string) returns (b: nat)
    ensures b == BaseAt(p)
  {
    b := 0;
    var q := 0;
    while q < |p|
      invariant q <= |p| && b == BaseAt(p[..q])
    {
      assert p[..q + 1][..q] == p[..q];
      if IsSep(p[q]) {
        b := q + 1;
      }
      q := q + 1;
    }
    assert p[..q] == p;
  }

  method SkipSeps(p: string) returns (r: string)
    ensures r == Stripped(p)
  {
    r := p;
    while |r| > 0 && IsSep(r[0])
      invariant Stripped(r) == Stripped(p)
      decreases |r|
    {
      r := r[1..];
    }
  }

  predicate Listed(root: Root, s: Sym) {
    root.NoRoot? || root.dir <= s.file
  }

  function RowName(root: Root, s: Sym): string
    requires Listed(root, s)
  {
    match root
    case NoRoot => Stripped(BaseName(s.file))
    case Below(dir) => Stripped(s.file[|dir|..])
  }

  /** Without a root the rows are named by file names without any directory. */
  lemma {:induction false} BaseNameIsLastPart(p: string)
    ensures forall i :: BaseAt(p) <= i < |p| ==> !IsSep(p[i])
    ensures BaseAt(p) > 0 ==> IsSep(p[BaseAt(p) - 1])
    ensures Stripped(BaseName(p)) == BaseName(p)
  {
    if |p| > 0 && !IsSep(p[|p| - 1]) {
      BaseNameIsLastPart(p[..|p| - 1]);
    }
  }

  // ----- counting -----

  function Count(s: seq<Sym>, p: Sym -> bool): nat {
    if s == [] then 0 else Count(s[..|s| - 1], p) + if p(s[|s| - 1]) then 1 else 0
  }

  lemma {:induction false} CountOfConcat(s: seq<Sym>, t: seq<Sym>, p: Sym -> bool)
    ensures Count(s + t, p) == Count(s, p) + Count(t, p)
  {
    if t == [] {
      assert s + t == s;
    } else {
      assert (s + t)[..|s + t| - 1] == s + t[..|t| - 1];
      CountOfConcat(s, t[..|t| - 1], p);
    }
  }

  lemma CountWithout(l: seq<Sym>, x: Sym, r: seq<Sym>, p: Sym -> bool)
    ensures Count(l + [x] + r, p) == Count(l + r, p) + if p(x) then 1 else 0
  {
    CountOfConcat(l + [x], r, p);
    CountSnoc(l, x, p);
    CountOfConcat(l, r, p);
  }

  lemma PartsAround(t: seq<Sym>, x: Sym) returns (l: seq<Sym>, r: seq<Sym>)
    requires x in t
    ensures t == l + [x] + r
    ensures multiset(t) == multiset(l + r) + multiset{x}
  {
    var j :| 0 <= j < |t| && t[j] == x;
    l, r := t[..j], t[j + 1..];
    assert t == l + [x] + r;
  }

  /** Counting does not depend on the order. */
  lemma {:induction false} CountOfPermutation(s: seq<Sym>, t: seq<Sym>, p: Sym -> bool)
    requires multiset(s) == multiset(t)
    ensures Count(s, p) == Count(t, p)
  {
    if s == [] {
      assert t == [] by { assert |multiset(t)| == |t|; }
    } else {
      var init, x := s[..|s| - 1], s[|s| - 1];
      assert s == init + [x];
      assert x in multiset(t);
      var l, r := PartsAround(t, x);
      CountWithout(l, x, r, p);
      assert multiset(s) == multiset(init) + multiset{x};
      SameWithout(multiset(init), multiset(l + r), x);
      CountOfPermutation(init, l + r, p);
    }
  }

  lemma SameWithout(a: multiset<Sym>, b: multiset<Sym>, x: Sym)
    requires a + multiset{x} == b + multiset{x}
    ensures a == b
  {
    assert a == (a + multiset{x}) - multiset{x};
    assert b == (b + multiset{x}) - multiset{x};
  }

  lemma {:induction false} CountsAgree(s: seq<Sym>, t: seq<Sym>, p: Sym -> bool, q: Sym -> bool)
    requires |s| == |t| && forall i :: 0 <= i < |s| ==> p(s[i]) == q(t[i])
    ensures Count(s, p) == Count(t, q)
  {
    if s != [] {
      CountsAgree(s[..|s| - 1], t[..|t| - 1], p, q);
    }
  }

  function AllListed(root: Root): Sym -> bool {
    s => Listed(root, s)
  }

  function AllHit(root: Root): Sym -> bool {
    s => Listed(root, s) && s.hit
  }

  function InRow(root: Root, file: string): Sym -> bool {
    s => Listed(root, s) && RowName(root, s) == file
  }

  function HitInRow(root: Root, file: string): Sym -> bool {
    s => Listed(root, s) && RowName(root, s) == file && s.hit
  }

  // ----- the rows -----

  function Totals(rows: seq<Row>): nat {
    if rows == [] then 0 else Totals(rows[..|rows| - 1]) + rows[|rows| - 1].total
  }

  function Covereds(rows: seq<Row>): nat {
    if rows == [] then 0 else Covereds(rows[..|rows| - 1]) + rows[|rows| - 1].covered
  }

  lemma {:induction false} SumsAfterUpdate(rows: seq<Row>, j: nat, r: Row)
    requires j < |rows|
    ensures Totals(rows[j := r]) == Totals(rows) - rows[j].total + r.total
    ensures Covereds(rows[j := r]) == Covereds(rows) - rows[j].covered + r.covered
  {
    var n := |rows| - 1;
    if j < n {
      SumsAfterUpdate(rows[..n], j, r);
      assert rows[j := r][..n] == rows[..n][j := r];
    } else {
      assert rows[j := r][..n] == rows[..n];
    }
  }

  predicate RowsDistinct(rows: seq<Row>) {
    forall i, j :: 0 <= i < j < |rows| ==> rows[i].file != rows[j].file
  }

  ghost predicate RowsCount(rows: seq<Row>, s: seq<Sym>, root: Root) {
    forall r :: 0 <= r < |rows| ==>
      rows[r].total == Count(s, InRow(root, rows[r].file)) && rows[r].covered == Count(s, HitInRow(root, rows[r].file))
  }

  predicate HasRow(rows: seq<Row>, file: string) {
    exists r :: 0 <= r < |rows| && rows[r].file == file
  }

  predicate RowsCover(rows: seq<Row>, s: seq<Sym>, root: Root) {
    forall i :: 0 <= i < |s| && Listed(root, s[i]) ==> HasRow(rows, RowName(root, s[i]))
  }

  /** A file that no symbol has a row for is counted zero times. */
  lemma {:induction false} NoRowNoCount(rows: seq<Row>, s: seq<Sym>, root: Root, file: string)
    requires RowsCover(rows, s, root) && !HasRow(rows, file)
    ensures Count(s, InRow(root, file)) == 0 && Count(s, HitInRow(root, file)) == 0
  {
    if s != [] {
      var n := |s| - 1;
      NoRowNoCount(rows, s[..n], root, file);
      assert Listed(root, s[n]) ==> HasRow(rows, RowName(root, s[n]));
    }
  }

  lemma CountSnoc(s: seq<Sym>, x: Sym, p: Sym -> bool)
    ensures Count(s + [x], p) == Count(s, p) + if p(x) then 1 else 0
  {
    assert (s + [x])[..|s|] == s;
  }

  /** Counting one more listed symbol into its row keeps the rows right. */
  lemma TallyKeepsRows(rows: seq<Row>, s: seq<Sym>, root: Root, x: Sym, j: nat)
    requires Listed(root, x) && RowsDistinct(rows) && j < |rows| && rows[j].file == RowName(root, x)
    requires RowsCount(rows, s, root) && RowsCover(rows, s, root)
    ensures var rows' := rows[j := Row(rows[j].file, rows[j].total + 1, rows[j].covered + if x.hit then 1 else 0)];
            RowsDistinct(rows') && RowsCount(rows', s + [x], root) && RowsCover(rows', s + [x], root)
  {
    hide Count;
    var rows' := rows[j := Row(rows[j].file, rows[j].total + 1, rows[j].covered + if x.hit then 1 else 0)];
    forall r | 0 <= r < |rows'|
      ensures rows'[r].file == rows[r].file
      ensures rows'[r].total == Count(s + [x], InRow(root, rows'[r].file))
      ensures rows'[r].covered == Count(s + [x], HitInRow(root, rows'[r].file))
    {
      CountSnoc(s, x, InRow(root, rows'[r].file));
      CountSnoc(s, x, HitInRow(root, rows'[r].file));
    }
    forall i | 0 <= i < |s + [x]| && Listed(root, (s + [x])[i]) ensures HasRow(rows', RowName(root, (s + [x])[i])) {
      var file := RowName(root, (s + [x])[i]);
      if i < |s| {
        var r :| 0 <= r < |rows| && rows[r].file == file;
        assert rows'[r].file == file;
      } else {
        assert rows'[j].file == file;
      }
    }
  }

  /** Skipping a symbol outside the root. */
  lemma SkipKeepsRows(rows: seq<Row>, s: seq<Sym>, root: Root, x: Sym)
    requires !Listed(root, x) && RowsCount(rows, s, root) && RowsCover(rows, s, root)
    ensures RowsCount(rows, s + [x], root) && RowsCover(rows, s + [x], root)
  {
    forall r | 0 <= r < |rows|
      ensures rows[r].total == Count(s + [x], InRow(root, rows[r].file))
      ensures rows[r].covered == Count(s + [x], HitInRow(root, rows[r].file))
    {
      CountSnoc(s, x, InRow(root, rows[r].file));
      CountSnoc(s, x, HitInRow(root, rows[r].file));
    }
    assert forall i :: 0 <= i < |s + [x]| && Listed(root, (s + [x])[i]) ==> i < |s| && (s + [x])[i] == s[i];
  }

  lemma NewRowKeepsRows(rows: seq<Row>, s: seq<Sym>, root: Root, file: string)
    requires !HasRow(rows, file) && RowsDistinct(rows) && RowsCount(rows, s, root) && RowsCover(rows, s, root)
    ensures RowsDistinct(rows + [Row(file, 0, 0)]) && RowsCount(rows + [Row(file, 0, 0)], s, root)
    ensures RowsCover(rows + [Row(file, 0, 0)], s, root)
    ensures Totals(rows + [Row(file, 0, 0)]) == Totals(rows) && Covereds(rows + [Row(file, 0, 0)]) == Covereds(rows)
  {
    var rows' := rows + [Row(file, 0, 0)];
    NoRowNoCount(rows, s, root, file);
    assert rows'[..|rows|] == rows;
    forall i | 0 <= i < |s| && Listed(root, s[i]) ensures HasRow(rows', RowName(root, s[i])) {
      var r :| 0 <= r < |rows| && rows[r].file == RowName(root, s[i]);
      assert rows'[r].file == RowName(root, s[i]);
    }
  }

  /** The aggregation: one row a file, counting its symbols and those hit, and the
      rows together count every listed symbol exactly once. */
  method Aggregate(syms: array<Sym>, root: Root) returns (rows: seq<Row>)
    ensures RowsDistinct(rows) && RowsCount(rows, syms[..], root) && RowsCover(rows, syms[..], root)
    ensures forall r :: 0 <= r < |rows| ==> rows[r].total > 0
    ensures Totals(rows) == Count(syms[..], AllListed(root)) && Covereds(rows) == Count(syms[..], AllHit(root))
  {
    rows := [];
    var i := 0;
    while i < syms.Length
      invariant i <= syms.Length
      invariant RowsDistinct(rows) && RowsCount(rows, syms[..i], root) && RowsCover(rows, syms[..i], root)
      invariant forall r :: 0 <= r < |rows| ==> rows[r].total > 0
      invariant Totals(rows) == Count(syms[..i], AllListed(root)) && Covereds(rows) == Count(syms[..i], AllHit(root))
    {
      var s := syms[i];
      assert syms[..i + 1] == syms[..i] + [s];
      CountSnoc(syms[..i], s, AllListed(root));
      CountSnoc(syms[..i], s, AllHit(root));
      i := i + 1;
      if root.Below? && !(root.dir <= s.file) {
        SkipKeepsRows(rows, syms[..i - 1], root, s);
        continue;
      }
      var name := NameRow(s, root);
      rows := Tally(rows, s, name, syms[..i - 1], root);
    }
    assert syms[..i] == syms[..];
  }

  /** Whether `name` is what is left of `file`: with a root, past the root and all separators
      after it; without one, past the last separator. */
  predicate IsLeft(root: Root, file: string, name: string) {
    && |name| <= |file| && file[|file| - |name|..] == name
    && match root
       case Below(dir) =>
         && dir <= file && |dir| + |name| <= |file|
         && (forall k :: |dir| <= k < |file| - |name| ==> IsSep(file[k])) && (name != "" ==> !IsSep(name[0]))
       case NoRoot =>
         (forall k :: 0 <= k < |name| ==> !IsSep(name[k])) && (|name| < |file| ==> IsSep(file[|file| - |name| - 1]))
  }

  lemma {:induction false} StrippedIs(p: string)
    ensures var r := Stripped(p);
            && |r| <= |p| && p[|p| - |r|..] == r && (r != "" ==> !IsSep(r[0]))
            && forall k :: 0 <= k < |p| - |r| ==> IsSep(p[k])
  {
    if |p| > 0 && IsSep(p[0]) {
      StrippedIs(p[1..]);
      var r := Stripped(p);
      forall k | 0 <= k < |p| - |r| ensures IsSep(p[k]) {
        assert k > 0 ==> p[k] == p[1..][k - 1];
      }
    }
  }

  /** A row is called what is left of the file. */
  lemma RowNameIsLeft(root: Root, s: Sym)
    requires Listed(root, s)
    ensures IsLeft(root, s.file, RowName(root, s))
  {
    match root
    case NoRoot => BaseNameIsLastPart(s.file);
    case Below(dir) =>
      StrippedIs(s.file[|dir|..]);
      var n := |s.file| - |RowName(root, s)|;
      forall k | |dir| <= k < n ensures IsSep(s.file[k]) {
        assert s.file[k] == s.file[|dir|..][k - |dir|];
      }
  }

  lemma {:induction false} StrippedOf(seps: string, rest: string)
    requires AllSeps(seps) && (rest != "" ==> !IsSep(rest[0]))
    ensures Stripped(seps + rest) == rest
  {
    if seps == "" {
      assert seps + rest == rest;
    } else {
      assert (seps + rest)[1..] == seps[1..] + rest;
      StrippedOf(seps[1..], rest);
    }
  }

  lemma {:induction false} BaseAtOf(dirs: string, name: string)
    requires (forall k :: 0 <= k < |name| ==> !IsSep(name[k])) && (dirs != "" ==> IsSep(dirs[|dirs| - 1]))
    ensures BaseAt(dirs + name) == |dirs|
  {
    if name == "" {
      assert dirs + name == dirs;
    } else {
      var n := |name| - 1;
      assert (dirs + name)[..|dirs + name| - 1] == dirs + name[..n];
      BaseAtOf(dirs, name[..n]);
    }
  }

  lemma LeftIsRowName(root: Root, s: Sym, name: string)
    requires IsLeft(root, s.file, name)
    ensures Listed(root, s) && RowName(root, s) == name
  {
    var n := |s.file| - |name|;
    match root
    case NoRoot =>
      assert s.file == s.file[..n] + name;
      BaseAtOf(s.file[..n], name);
      assert BaseName(s.file) == name;
    case Below(dir) =>
      assert s.file[|dir|..] == s.file[|dir|..n] + name;
      StrippedOf(s.file[|dir|..n], name);
  }

  /** Below a root, a listed file is the root, separators, and its row's name; so two share
      a row if and only if they agree past these. */
  lemma RowsBelowRoot(dir: string, x: Sym, y: Sym, a: string, b: string, m: string, n: string)
    requires AllSeps(a) && AllSeps(b) && x.file == dir + a + m && y.file == dir + b + n
    requires (m != "" ==> !IsSep(m[0])) && (n != "" ==> !IsSep(n[0]))
    ensures Listed(Below(dir), x) && RowName(Below(dir), x) == m && Listed(Below(dir), y) && RowName(Below(dir), y) == n
    ensures RowName(Below(dir), x) == RowName(Below(dir), y) <==> m == n
  {
    NamedBelow(dir, x, a, m);
    NamedBelow(dir, y, b, n);
  }

  predicate AllSeps(s: string) {
    forall k :: 0 <= k < |s| ==> IsSep(s[k])
  }

  lemma NamedBelow(dir: string, x: Sym, a: string, m: string)
    requires AllSeps(a) && x.file == dir + a + m && (m != "" ==> !IsSep(m[0]))
    ensures Listed(Below(dir), x) && RowName(Below(dir), x) == m
  {
    var root := Below(dir);
    assert dir <= x.file;
    forall k | |dir| <= k < |x.file| - |m| ensures IsSep(x.file[k]) {
      assert x.file[k] == a[k - |dir|];
    }
    assert IsLeft(root, x.file, m);
    LeftIsRowName(root, x, m);
  }

  /** The symbols of which `name` is left. */
  function LeftIs(root: Root, name: string): Sym -> bool {
    (s: Sym) => IsLeft(root, s.file, name)
  }

  function LeftIsMarked(root: Root, name: string, addrs: set<nat>): Sym -> bool {
    (s: Sym) => IsLeft(root, s.file, name) && (s.hit || s.addr in addrs)
  }

  /** The report in terms of the files' texts: every listed symbol has a row named by what
      is left of its file, every row has a symbol, and its counts are those of the symbols
      of which its name is left. */
  ghost predicate RowsNamed(rows: seq<Row>, found: seq<Sym>, root: Root, addrs: set<nat>) {
    && (forall i :: 0 <= i < |found| && Listed(root, found[i]) ==>
          exists r :: 0 <= r < |rows| && IsLeft(root, found[i].file, rows[r].file))
    && (forall r :: 0 <= r < |rows| ==>
          && rows[r].total == Count(found, LeftIs(root, rows[r].file)) > 0
          && rows[r].covered == Count(found, LeftIsMarked(root, rows[r].file, addrs)))
  }

  lemma LeftIsInRow(root: Root, name: string, addrs: set<nat>, s: Sym)
    ensures InRow(root, name)(s) == LeftIs(root, name)(s)
    ensures MarkedInRow(root, name, addrs)(s) == LeftIsMarked(root, name, addrs)(s)
  {
    if Listed(root, s) {
      RowNameIsLeft(root, s);
    }
    if IsLeft(root, s.file, name) {
      LeftIsRowName(root, s, name);
    }
  }

  lemma CountsAreNamed(rows: seq<Row>, found: seq<Sym>, root: Root, addrs: set<nat>)
    requires ReportCounts(rows, found, root, addrs) && forall r :: 0 <= r < |rows| ==> rows[r].total > 0
    ensures RowsNamed(rows, found, root, addrs)
  {
    hide Count, IsLeft, InRow, MarkedInRow, LeftIs, LeftIsMarked, RowName;
    forall r | 0 <= r < |rows|
      ensures rows[r].total == Count(found, LeftIs(root, rows[r].file))
      ensures rows[r].covered == Count(found, LeftIsMarked(root, rows[r].file, addrs))
    {
      var name := rows[r].file;
      forall i | 0 <= i < |found|
        ensures InRow(root, name)(found[i]) == LeftIs(root, name)(found[i])
        ensures MarkedInRow(root, name, addrs)(found[i]) == LeftIsMarked(root, name, addrs)(found[i])
      {
        LeftIsInRow(root, name, addrs, found[i]);
      }
      CountsAgree(found, found, InRow(root, name), LeftIs(root, name));
      CountsAgree(found, found, MarkedInRow(root, name, addrs), LeftIsMarked(root, name, addrs));
    }
    forall i | 0 <= i < |found| && Listed(root, found[i])
      ensures exists r :: 0 <= r < |rows| && IsLeft(root, found[i].file, rows[r].file)
    {
      RowNameIsLeft(root, found[i]);
      var r :| 0 <= r < |rows| && rows[r].file == RowName(root, found[i]);
    }
  }

  method NameRow(s: Sym, root: Root) returns (name: string)
    requires Listed(root, s)
    ensures name == RowName(root, s)
  {
    var rest := s.file;
    if root.Below? {
      rest := s.file[|root.dir|..];
    } else {
      var b := BaseOf(s.file);
      rest := s.file[b..];
    }
    name := SkipSeps(rest);
  }

  /** Count a symbol into its row, which is appended if there is none yet. */
  method Tally(rows: seq<Row>, s: Sym, name: string, ghost before: seq<Sym>, root: Root) returns (out: seq<Row>)
    requires Listed(root, s) && name == RowName(root, s)
    requires RowsDistinct(rows) && RowsCount(rows, before, root) && RowsCover(rows, before, root)
    ensures RowsDistinct(out) && RowsCount(out, before + [s], root) && RowsCover(out, before + [s], root)
    ensures (forall r :: 0 <= r < |rows| ==> rows[r].total > 0) ==> forall r :: 0 <= r < |out| ==> out[r].total > 0
    ensures Totals(out) == Totals(rows) + 1 && Covereds(out) == Covereds(rows) + if s.hit then 1 else 0
  {
    hide Totals, RowsDistinct, Covereds, Count;
    out := rows;
    var j := RowOf(out, name);
    if j == |out| {
      NewRowKeepsRows(out, before, root, name);
      out := out + [Row(name, 0, 0)];
    }
    TallyKeepsRows(out, before, root, s, j);
    SumsAfterUpdate(out, j, Row(out[j].file, out[j].total + 1, out[j].covered + if s.hit then 1 else 0));
    out := out[j := Row(out[j].file, out[j].total + 1, out[j].covered + if s.hit then 1 else 0)];
  }

  method RowOf(rows: seq<Row>, name: string) returns (j: nat)
    ensures j <= |rows| && (j < |rows| ==> rows[j].file == name)
    ensures j == |rows| <==> !HasRow(rows, name)
  {
    j := 0;
    while j < |rows|
      invariant j <= |rows| && forall k :: 0 <= k < j ==> rows[k].file != name
    {
      if rows[j].file == name {
        return;
      }
      j := j + 1;
    }
  }

  // ----- the whole tool -----

  function ReachedInRow(root: Root, file: string, addrs: set<nat>): Sym -> bool {
    s => Listed(root, s) && RowName(root, s) == file && s.addr in addrs
  }

  function Reached(root: Root, addrs: set<nat>): Sym -> bool {
    s => Listed(root, s) && s.addr in addrs
  }

  /** Reached, or marked before the marking began: the field is never initialized. */
  function MarkedInRow(root: Root, file: string, addrs: set<nat>): Sym -> bool {
    s => Listed(root, s) && RowName(root, s) == file && (s.hit || s.addr in addrs)
  }

  function MarkedAll(root: Root, addrs: set<nat>): Sym -> bool {
    s => Listed(root, s) && (s.hit || s.addr in addrs)
  }

  /** What the report says, in terms of the symbols as enumerated: a row a file, with the
      number of its functions and of those with a mark in the end. */
  ghost predicate ReportCounts(rows: seq<Row>, found: seq<Sym>, root: Root, addrs: set<nat>) {
    && RowsDistinct(rows)
    && (forall r :: 0 <= r < |rows| ==>
          && rows[r].total == Count(found, InRow(root, rows[r].file))
          && rows[r].covered == Count(found, MarkedInRow(root, rows[r].file, addrs)))
    && RowsCover(rows, found, root)
    && Totals(rows) == Count(found, AllListed(root))
    && Covereds(rows) == Count(found, MarkedAll(root, addrs))
  }

  /** What it ought to say: a row a file, with the number of its functions and of those
      whose entry was recorded. */
  ghost predicate ReportOk(rows: seq<Row>, found: seq<Sym>, root: Root, addrs: set<nat>) {
    && RowsDistinct(rows)
    && (forall r :: 0 <= r < |rows| ==>
          && rows[r].total == Count(found, InRow(root, rows[r].file))
          && rows[r].covered == Count(found, ReachedInRow(root, rows[r].file, addrs)))
    && RowsCover(rows, found, root)
    && Totals(rows) == Count(found, AllListed(root))
    && Covereds(rows) == Count(found, Reached(root, addrs))
  }

  /** No listed symbol off the recorded addresses starts with a mark. */
  predicate NoStaleMark(found: seq<Sym>, root: Root, addrs: set<nat>) {
    forall i :: 0 <= i < |found| && Listed(root, found[i]) && found[i].hit ==> found[i].addr in addrs
  }

  lemma {:induction false} CountAtMost(s: seq<Sym>, t: seq<Sym>, p: Sym -> bool, q: Sym -> bool)
    requires |s| == |t| && forall i :: 0 <= i < |s| && p(s[i]) ==> q(t[i])
    ensures Count(s, p) <= Count(t, q)
  {
    if s != [] {
      CountAtMost(s[..|s| - 1], t[..|t| - 1], p, q);
    }
  }

  lemma {:induction false} CountLess(s: seq<Sym>, p: Sym -> bool, q: Sym -> bool, k: nat)
    requires k < |s| && q(s[k]) && !p(s[k]) && forall i :: 0 <= i < |s| && p(s[i]) ==> q(s[i])
    ensures Count(s, p) < Count(s, q)
  {
    var n := |s| - 1;
    if k == n {
      CountAtMost(s[..n], s[..n], p, q);
    } else {
      CountLess(s[..n], p, q, k);
    }
  }

  /** The report is right in every row and total if and only if no listed symbol off the
      recorded addresses started with a mark. */
  lemma ReportIsRightExactly(rows: seq<Row>, found: seq<Sym>, root: Root, addrs: set<nat>)
    requires ReportCounts(rows, found, root, addrs)
    ensures ReportOk(rows, found, root, addrs) <==> NoStaleMark(found, root, addrs)
  {
    if NoStaleMark(found, root, addrs) {
      forall r | 0 <= r < |rows| ensures rows[r].covered == Count(found, ReachedInRow(root, rows[r].file, addrs)) {
        CountsAgree(found, found, MarkedInRow(root, rows[r].file, addrs), ReachedInRow(root, rows[r].file, addrs));
      }
      CountsAgree(found, found, MarkedAll(root, addrs), Reached(root, addrs));
    } else {
      var k :| 0 <= k < |found| && Listed(root, found[k]) && found[k].hit && found[k].addr !in addrs;
      CountLess(found, Reached(root, addrs), MarkedAll(root, addrs), k);
    }
  }

  /** A symbol that starts with a mark is counted as covered though nothing was recorded. */
  lemma AStaleMarkIsCounted(rows: seq<Row>)
    requires ReportCounts(rows, [Sym(4096, "f", "a.c", true)], NoRoot, {})
    ensures Covereds(rows) == 1 && !ReportOk(rows, [Sym(4096, "f", "a.c", true)], NoRoot, {})
  {
    var found := [Sym(4096, "f", "a.c", true)];
    assert found[..0] == [];
    ReportIsRightExactly(rows, found, NoRoot, {});
    assert Listed(NoRoot, found[0]) && found[0].hit;
  }

  lemma CountsOfMarked(found: seq<Sym>, sorted: seq<Sym>, addrs: set<nat>, p: Sym -> bool, q: Sym -> bool)
    requires multiset(found) == multiset(sorted)
    requires forall s: Sym <- sorted :: p(s.(hit := s.hit || s.addr in addrs)) == q(s)
    ensures Count(Marked(sorted, addrs), p) == Count(found, q)
  {
    CountsAgree(Marked(sorted, addrs), sorted, p, q);
    CountOfPermutation(sorted, found, q);
  }

  lemma ReportOfMarked(rows: seq<Row>, found: seq<Sym>, sorted: seq<Sym>, root: Root, addrs: set<nat>)
    requires multiset(found) == multiset(sorted)
    requires RowsDistinct(rows) && RowsCount(rows, Marked(sorted, addrs), root) && RowsCover(rows, Marked(sorted, addrs), root)
    requires Totals(rows) == Count(Marked(sorted, addrs), AllListed(root))
    requires Covereds(rows) == Count(Marked(sorted, addrs), AllHit(root))
    ensures ReportCounts(rows, found, root, addrs)
  {
    hide Count;
    forall r | 0 <= r < |rows|
      ensures rows[r].total == Count(found, InRow(root, rows[r].file))
      ensures rows[r].covered == Count(found, MarkedInRow(root, rows[r].file, addrs))
    {
      var file := rows[r].file;
      CountsOfMarked(found, sorted, addrs, InRow(root, file), InRow(root, file));
      CountsOfMarked(found, sorted, addrs, HitInRow(root, file), MarkedInRow(root, file, addrs));
    }
    CountsOfMarked(found, sorted, addrs, AllListed(root), AllListed(root));
    CountsOfMarked(found, sorted, addrs, AllHit(root), MarkedAll(root, addrs));
    forall i | 0 <= i < |found| && Listed(root, found[i]) ensures HasRow(rows, RowName(root, found[i])) {
      assert found[i] in multiset(sorted);
      var k :| 0 <= k < |sorted| && sorted[k] == found[i];
      assert Marked(sorted, addrs)[k].file == found[i].file;
    }
  }

  /** qsort, of which only this much is used: some sorted rearrangement. */
  method SortSyms(found: seq<Sym>) returns (syms: array<Sym>)
    ensures fresh(syms) && Sorted(syms[..]) && multiset(syms[..]) == multiset(found)
  {
    ghost var some := SomeSortedOrder(found);
    var sorted: seq<Sym> :| Sorted(sorted) && multiset(sorted) == multiset(found);
    syms := new Sym[|sorted|](i requires 0 <= i < |sorted| => sorted[i]);
    assert syms[..] == sorted;
  }

  /** main: sort, mark, aggregate. */
  method Report(found: seq<Sym>, modBase: nat, lines: seq<Line>, root: Root)
    returns (rows: seq<Row>, nHit: nat, syms: array<Sym>)
    ensures var addrs := Relocated(modBase, RecordedBase(lines), Body(lines));
            && ReportCounts(rows, found, root, addrs) && RowsNamed(rows, found, root, addrs)
            && nHit == Resolved(found, modBase, RecordedBase(lines), Body(lines))
            && multiset(syms[..]) == multiset(Marked(found, addrs))
  {
    syms := SortSyms(found);
    ghost var sorted := syms[..];
    ghost var addrs := Relocated(modBase, RecordedBase(lines), Body(lines));
    nHit := MarkHits(syms, modBase, lines);
    ResolvedOfPermutation(sorted, found, modBase, RecordedBase(lines), Body(lines));
    rows := Aggregate(syms, root);
    ReportOfMarked(rows, found, sorted, root, addrs);
    CountsAreNamed(rows, found, root, addrs);
    MarkedOfPermutation(sorted, found, addrs);
  }

  lemma {:induction false} MarkedOfPermutation(s: seq<Sym>, t: seq<Sym>, addrs: set<nat>)
    requires multiset(s) == multiset(t)
    ensures multiset(Marked(s, addrs)) == multiset(Marked(t, addrs))
  {
    if s == [] {
      assert t == [] by { assert |multiset(t)| == |t|; }
    } else {
      var init, x := s[..|s| - 1], s[|s| - 1];
      assert s == init + [x];
      assert x in multiset(t);
      var l, r := PartsAround(t, x);
      assert multiset(s) == multiset(init) + multiset{x};
      SameWithout(multiset(init), multiset(l + r), x);
      MarkedOfPermutation(init, l + r, addrs);
      MarkedParts(init, [x], addrs);
      MarkedParts(l, r, addrs);
      MarkedParts(l + [x], r, addrs);
      MarkedParts(l, [x], addrs);
    }
  }

  lemma MarkedParts(s: seq<Sym>, t: seq<Sym>, addrs: set<nat>)
    ensures Marked(s + t, addrs) == Marked(s, addrs) + Marked(t, addrs)
  {
  }

  lemma {:induction false} ResolvedOfPermutation(s: seq<Sym>, t: seq<Sym>, modBase: nat, base: nat, lines: seq<Line>)
    requires multiset(s) == multiset(t)
    ensures Resolved(s, modBase, base, lines) == Resolved(t, modBase, base, lines)
  {
    if lines != [] {
      ResolvedOfPermutation(s, t, modBase, base, lines[..|lines| - 1]);
      forall a: nat ensures Known(s, a) == Known(t, a) {
        if i :| 0 <= i < |s| && s[i].addr == a {
          assert s[i] in multiset(t);
        }
        if i :| 0 <= i < |t| && t[i].addr == a {
          assert t[i] in multiset(s);
        }
      }
    }
  }

  // ----- composed with the recorder -----

  /** The file cov_dump writes. */
  function DumpLines(base: nat, out: seq<Key>): (r: seq<Line>)
    ensures |r| == |out| + 1
  {
    [BaseLine(base)] + seq(|out|, i requires 0 <= i < |out| => PcLine(out[i]))
  }

  /** Where a symbol's entry was in the recording process. */
  function EntryAt(modBase: nat, base: nat, addr: nat): nat {
    (base + (addr - modBase) % WORDS) % WORDS
  }

  lemma RelocateInverse(modBase: nat, base: nat, pc: nat, addr: nat)
    requires pc < WORDS && addr < WORDS
    ensures Relocate(modBase, base, pc) == addr <==> pc == EntryAt(modBase, base, addr)
  {
  }

  lemma DumpedAddresses(modBase: nat, base: nat, out: seq<Key>, a: nat)
    ensures RecordedBase(DumpLines(base, out)) == base
    ensures a in Relocated(modBase, base, Body(DumpLines(base, out))) <==>
            exists j :: 0 <= j < |out| && Relocate(modBase, base, out[j]) == a
  {
    var lines := Body(DumpLines(base, out));
    RelocatedHas(modBase, base, lines, a);
    assert |lines| == |out| && forall j :: 0 <= j < |out| ==> LinePc(lines[j]) == out[j];
  }

  /** Over every interleaving of the recorder: an address of the resolver is a recorded
      one only if some call entered there, and it is one if some call had stored it and
      returned before recording stopped. */
  lemma RecordedMeansEntered(p: Shape, s: State, acts: seq<Act>, modBase: nat, base: nat, addr: nat)
    requires ShapeOk(p) && Initial(p, s) && Behaviour(p, s, acts) && Final(p, s, acts).dump.Written?
    requires forall c :: c in Final(p, s, acts).calls ==> Final(p, s, acts).calls[c].k < WORDS
    requires addr < WORDS
    ensures var f := Final(p, s, acts);
            var hit := addr in Relocated(modBase, base, Body(DumpLines(base, f.dump.out)));
            var pc := EntryAt(modBase, base, addr);
            && (hit ==> pc in Entered(f))
            && (pc in f.settled && pc != 0 ==> hit)
  {
    DumpIsExact(p, s, acts);
    var f := Final(p, s, acts);
    var out := f.dump.out;
    var pc := EntryAt(modBase, base, addr);
    DumpedAddresses(modBase, base, out, addr);
    if j :| 0 <= j < |out| && Relocate(modBase, base, out[j]) == addr {
      assert out[j] in out;
      RelocateInverse(modBase, base, out[j], addr);
    }
    if pc in f.settled && pc != 0 {
      RelocateInverse(modBase, base, pc, addr);
      var j :| 0 <= j < |out| && out[j] == pc;
      assert Relocate(modBase, base, out[j]) == addr;
    }
  }

  /** The addresses that were entered. */
  function Entered(f: State): set<Key> {
    set c | c in f.calls :: f.calls[c].k
  }

  /** The symbols of a row whose entry, in the recording process, is among these keys. */
  function EnteredInRow(root: Root, file: string, modBase: nat, base: nat, keys: set<Key>): Sym -> bool {
    s => Listed(root, s) && RowName(root, s) == file && EntryAt(modBase, base, s.addr) in keys
  }

  predicate Addressable(found: seq<Sym>) {
    forall i :: 0 <= i < |found| ==> found[i].addr < WORDS
  }

  /** End to end, over every interleaving of the recorder and for the report made of its
      dump: a symbol has a mark only if it started with one or a call entered at its
      address, and has one if a call had stored its address before recording stopped; and
      each row's number lies between those two counts. */
  method ReportRun(found: seq<Sym>, modBase: nat, base: nat, root: Root, out: seq<Key>,
                   ghost p: Shape, ghost s: State, ghost acts: seq<Act>)
    returns (rows: seq<Row>, nHit: nat, syms: array<Sym>)
    requires ShapeOk(p) && Initial(p, s) && Behaviour(p, s, acts) && Final(p, s, acts).dump == Written(out)
    requires forall c :: c in Final(p, s, acts).calls ==> Final(p, s, acts).calls[c].k < WORDS
    requires Addressable(found)
    ensures var f := Final(p, s, acts);
            && (exists addrs :: multiset(syms[..]) == multiset(Marked(found, addrs)) && MarksOk(f, found, addrs, modBase, base))
            && (forall r :: 0 <= r < |rows| ==> RowOk(f, found, root, modBase, base, rows[r]))
  {
    var lines := DumpLines(base, out);
    rows, nHit, syms := Report(found, modBase, lines, root);
    ghost var f := Final(p, s, acts);
    ghost var addrs := Relocated(modBase, base, Body(lines));
    MarksMeanEntered(p, s, acts, found, modBase, base);
    forall r | 0 <= r < |rows| ensures RowOk(f, found, root, modBase, base, rows[r]) {
      RowMeansEntered(f, found, root, addrs, modBase, base, rows[r]);
    }
  }

  /** The final marks, against the recorder's run. */
  ghost predicate MarksOk(f: State, found: seq<Sym>, addrs: set<nat>, modBase: nat, base: nat) {
    forall i :: 0 <= i < |found| ==>
      var m := Marked(found, addrs)[i]; var pc := EntryAt(modBase, base, found[i].addr);
      && (m.hit ==> found[i].hit || pc in Entered(f))
      && (found[i].addr in addrs ==> pc in Entered(f))
      && (pc in f.settled && pc != 0 ==> m.hit)
  }

  /** A row's number, against the recorder's run. */
  ghost predicate RowOk(f: State, found: seq<Sym>, root: Root, modBase: nat, base: nat, row: Row) {
    && Count(found, EnteredInRow(root, row.file, modBase, base, f.settled - {0})) <= row.covered
    && ((forall i :: 0 <= i < |found| ==> !found[i].hit) ==>
          row.covered <= Count(found, EnteredInRow(root, row.file, modBase, base, Entered(f))))
  }

  lemma MarksMeanEntered(p: Shape, s: State, acts: seq<Act>, found: seq<Sym>, modBase: nat, base: nat)
    requires ShapeOk(p) && Initial(p, s) && Behaviour(p, s, acts) && Final(p, s, acts).dump.Written?
    requires forall c :: c in Final(p, s, acts).calls ==> Final(p, s, acts).calls[c].k < WORDS
    requires Addressable(found)
    ensures var f := Final(p, s, acts);
            MarksOk(f, found, Relocated(modBase, base, Body(DumpLines(base, f.dump.out))), modBase, base)
    ensures RecordedBase(DumpLines(base, Final(p, s, acts).dump.out)) == base
  {
    var f := Final(p, s, acts);
    DumpedAddresses(modBase, base, f.dump.out, 0);
    forall i | 0 <= i < |found|
      ensures var hit := found[i].addr in Relocated(modBase, base, Body(DumpLines(base, f.dump.out)));
              var pc := EntryAt(modBase, base, found[i].addr);
              (hit ==> pc in Entered(f)) && (pc in f.settled && pc != 0 ==> hit)
    {
      RecordedMeansEntered(p, s, acts, modBase, base, found[i].addr);
    }
  }

  lemma RowMeansEntered(f: State, found: seq<Sym>, root: Root, addrs: set<nat>, modBase: nat, base: nat, row: Row)
    requires MarksOk(f, found, addrs, modBase, base)
    requires row.covered == Count(found, MarkedInRow(root, row.file, addrs))
    ensures RowOk(f, found, root, modBase, base, row)
  {
    forall i | 0 <= i < |found| ensures Marked(found, addrs)[i].hit == (found[i].hit || found[i].addr in addrs) {
    }
    CountAtMost(found, found, EnteredInRow(root, row.file, modBase, base, f.settled - {0}), MarkedInRow(root, row.file, addrs));
    if forall i :: 0 <= i < |found| ==> !found[i].hit {
      CountAtMost(found, found, MarkedInRow(root, row.file, addrs), EnteredInRow(root, row.file, modBase, base, Entered(f)));
    }
  }
}
