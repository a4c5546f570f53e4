/**
 The lock-free set of entry addresses of tools/cov_rt.c: any number of calls of
 `__cyg_profile_func_enter` probing the table by compare-and-swap, and the dump at
 exit, in any interleaving of their atomic steps.

 A key is a 64-bit address; 0 marks an empty slot.  The proofs hold for every table
 size and every hash; CovHash supplies the ones the code uses.
 */
module CovRecorder {

  type Key = nat
  type CallId = nat

  /** The size of the table and the slot each key hashes to. */
  datatype Shape = Shape(size: nat, home: Key -> nat)

  ghost predicate ShapeOk(p: Shape) {
    p.size > 0 && forall k: Key :: p.home(k) < p.size
  }

  /** The slot `d` places after `h`, wrapping around. */
  function At(p: Shape, h: nat, d: nat): nat
    requires h < p.size && d < p.size
  {
    if h + d < p.size then h + d else h + d - p.size
  }

  /** How far slot `j` lies after slot `h`. */
  function Dist(p: Shape, h: nat, j: nat): (d: nat)
    requires h < p.size && j < p.size
    ensures d < p.size && At(p, h, d) == j
  {
    if h <= j then j - h else j + p.size - h
  }

  /** How a call came back: recording was off, its key is in the table, or it has
      looked at every slot. */
  datatype Result = Ignored | Stored | Full

  datatype Pc = Entering(k: Key) | Probing(k: Key, h: nat, probes: nat) | Returned(k: Key, how: Result)

  datatype Dump = NotBegun | Scanning(i: nat, out: seq<Key>) | Written(out: seq<Key>)

  datatype State = State(
    table: seq<Key>,
    recording: bool,
    calls: map<CallId, Pc>,
    dump: Dump,
    settled: set<Key>)      // the keys stored for calls that had returned when recording stopped

  datatype Act = Begin(c: CallId, k: Key) | Step(c: CallId) | Stop | Read

  predicate Enabled(p: Shape, s: State, a: Act) {
    match a
    case Begin(c, k) => c !in s.calls
    case Step(c) => c in s.calls && !s.calls[c].Returned?
    case Stop => s.dump.NotBegun?
    case Read => s.dump.Scanning? && s.dump.i < |s.table|
  }

  /** One compare-and-swap of the probe loop. */
  function Probe(p: Shape, s: State, c: CallId, k: Key, h: nat, probes: nat): State
    requires h < |s.table|
  {
    if s.table[h] == 0 then s.(table := s.table[h := k], calls := s.calls[c := Returned(k, Stored)])
    else if s.table[h] == k then s.(calls := s.calls[c := Returned(k, Stored)])
    else if probes + 1 < p.size then s.(calls := s.calls[c := Probing(k, if h + 1 < p.size then h + 1 else 0, probes + 1)])
    else s.(calls := s.calls[c := Returned(k, Full)])
  }

  function Next(p: Shape, s: State, a: Act): State
    requires Enabled(p, s, a)
  {
    match a
    case Begin(c, k) => s.(calls := s.calls[c := Entering(k)])
    case Step(c) =>
      (match s.calls[c]
       case Entering(k) =>
         s.(calls := s.calls[c := if s.recording then Probing(k, p.home(k), 0) else Returned(k, Ignored)])
       case Probing(k, h, probes) => if h < |s.table| then Probe(p, s, c, k, h, probes) else s
       case Returned(_, _) => s)
    case Stop =>
      s.(recording := false, dump := Scanning(0, []),
         settled := StoredKeys(s))
    case Read =>
      var i, out := s.dump.i, s.dump.out;
      var more := if s.table[i] != 0 then out + [s.table[i]] else out;
      s.(dump := if i + 1 < |s.table| then Scanning(i + 1, more) else Written(more))
  }

  predicate Initial(p: Shape, s: State) {
    && |s.table| == p.size && (forall i :: 0 <= i < |s.table| ==> s.table[i] == 0)
    && s.recording && s.calls == map[] && s.dump.NotBegun? && s.settled == {}
  }

  function Final(p: Shape, s: State, acts: seq<Act>): State {
    if acts == [] then s
    else
      var m := Final(p, s, acts[..|acts| - 1]);
      if Enabled(p, m, acts[|acts| - 1]) then Next(p, m, acts[|acts| - 1]) else m
  }

  predicate Behaviour(p: Shape, s: State, acts: seq<Act>) {
    acts == [] ||
    (Behaviour(p, s, acts[..|acts| - 1]) && Enabled(p, Final(p, s, acts[..|acts| - 1]), acts[|acts| - 1]))
  }

  // ----- the invariant -----

  /** A key is in at most one slot, and the way to it from its hash is occupied. */
  ghost predicate TableOk(p: Shape, t: seq<Key>)
    requires ShapeOk(p)
  {
    && |t| == p.size
    && (forall i, j :: 0 <= i < j < |t| && t[i] != 0 ==> t[i] != t[j])
    && (forall j :: 0 <= j < |t| && t[j] != 0 ==> WayOccupied(p, t, t[j], Dist(p, p.home(t[j]), j)))
  }

  /** The first `d` slots from the key's hash on are occupied. */
  ghost predicate WayOccupied(p: Shape, t: seq<Key>, k: Key, d: nat)
    requires ShapeOk(p) && |t| == p.size && d <= p.size
  {
    forall e :: 0 <= e < d ==> t[At(p, p.home(k), e)] != 0
  }

  /** The first `d` slots from the key's hash on hold other keys. */
  ghost predicate WayTaken(p: Shape, t: seq<Key>, k: Key, d: nat)
    requires ShapeOk(p) && |t| == p.size && d <= p.size
  {
    forall e :: 0 <= e < d ==> t[At(p, p.home(k), e)] != 0 && t[At(p, p.home(k), e)] != k
  }

  ghost predicate CallOk(p: Shape, t: seq<Key>, pc: Pc)
    requires ShapeOk(p) && |t| == p.size
  {
    match pc
    case Entering(_) => true
    case Probing(k, h, probes) => probes < p.size && h == At(p, p.home(k), probes) && WayTaken(p, t, k, probes)
    case Returned(k, Stored) => k == 0 || k in t
    case Returned(k, Full) => WayTaken(p, t, k, p.size)
    case Returned(k, Ignored) => true
  }

  ghost predicate DumpOk(s: State) {
    match s.dump
    case NotBegun => true
    case Scanning(i, out) => i < |s.table| && OutOk(s, i, out)
    case Written(out) => OutOk(s, |s.table|, out)
  }

  /** What has been read of the first `i` slots. */
  ghost predicate OutOk(s: State, i: nat, out: seq<Key>)
    requires i <= |s.table|
  {
    && (forall a, b :: 0 <= a < b < |out| ==> out[a] != out[b])
    && (forall a :: 0 <= a < |out| ==> out[a] != 0 && out[a] in s.table[..i])
    && (forall k :: k in s.settled && k != 0 && k in s.table[..i] ==> k in out)
    && (forall k :: k in s.settled && k != 0 ==> k in s.table)
  }

  ghost predicate Inv(p: Shape, s: State)
    requires ShapeOk(p)
  {
    && TableOk(p, s.table)
    && (forall c :: c in s.calls ==> CallOk(p, s.table, s.calls[c]))
    && DumpOk(s)
    && (forall i :: 0 <= i < |s.table| && s.table[i] != 0 ==> exists c :: c in s.calls && s.calls[c].k == s.table[i])
  }

  // ----- preservation -----

  /** Slots are written once: nothing but an empty slot is ever overwritten. */
  ghost predicate Grows(t: seq<Key>, t': seq<Key>) {
    |t| == |t'| && forall i :: 0 <= i < |t| && t[i] != 0 ==> t'[i] == t[i]
  }

  lemma WayToStored(p: Shape, t: seq<Key>, j: nat)
    requires ShapeOk(p) && TableOk(p, t) && j < |t|
    ensures t[j] != 0 ==> WayOccupied(p, t, t[j], Dist(p, p.home(t[j]), j))
  {
  }

  /** A probing call has seen every slot before its own, so its key is nowhere yet
      when it finds that slot empty. */
  lemma KeyIsNewAtEmptySlot(p: Shape, t: seq<Key>, k: Key, d: nat)
    requires ShapeOk(p) && TableOk(p, t) && k != 0 && d < p.size
    requires WayTaken(p, t, k, d) && t[At(p, p.home(k), d)] == 0
    ensures k !in t
  {
    forall j | 0 <= j < |t| ensures t[j] != k {
      var e := Dist(p, p.home(k), j);
      WayToStored(p, t, j);
      assert e < d ==> t[At(p, p.home(k), e)] != k;
    }
  }

  lemma StoreKeepsTableOk(p: Shape, t: seq<Key>, k: Key, d: nat)
    requires ShapeOk(p) && TableOk(p, t) && d < p.size
    requires WayTaken(p, t, k, d) && t[At(p, p.home(k), d)] == 0
    ensures TableOk(p, t[At(p, p.home(k), d) := k])
    ensures Grows(t, t[At(p, p.home(k), d) := k])
  {
    var h := At(p, p.home(k), d);
    if k != 0 {
      KeyIsNewAtEmptySlot(p, t, k, d);
      var t' := t[h := k];
      AtIsInjective(p, p.home(k), Dist(p, p.home(k), h), d);
      forall j | 0 <= j < |t'| && t'[j] != 0 ensures WayOccupied(p, t', t'[j], Dist(p, p.home(t'[j]), j)) {
        if j != h {
          assert WayOccupied(p, t, t[j], Dist(p, p.home(t[j]), j));
        }
      }
    } else {
      assert t[h := k] == t;
    }
  }

  lemma AtIsInjective(p: Shape, h: nat, d: nat, e: nat)
    requires h < p.size && d < p.size && e < p.size && At(p, h, d) == At(p, h, e)
    ensures d == e
  {
  }

  /** A slot passed for another key stays so: it is never emptied or overwritten. */
  lemma CallStaysOk(p: Shape, t: seq<Key>, t': seq<Key>, pc: Pc)
    requires ShapeOk(p) && |t| == p.size && Grows(t, t') && CallOk(p, t, pc)
    ensures CallOk(p, t', pc)
  {
  }

  lemma ProbeStep(p: Shape, s: State, c: CallId)
    requires ShapeOk(p) && Inv(p, s) && c in s.calls && s.calls[c].Probing?
    ensures var s' := Next(p, s, Step(c));
            && TableOk(p, s'.table) && Grows(s.table, s'.table)
            && c in s'.calls && s'.calls == s.calls[c := s'.calls[c]] && CallOk(p, s'.table, s'.calls[c])
            && s'.calls[c].k == s.calls[c].k
            && (forall i :: 0 <= i < |s.table| ==> s'.table[i] == s.table[i] || s'.table[i] == s.calls[c].k)
  {
    var k, h, n := s.calls[c].k, s.calls[c].h, s.calls[c].probes;
    assert CallOk(p, s.table, s.calls[c]);
    if s.table[h] == 0 {
      StoreKeepsTableOk(p, s.table, k, n);
      assert s.table[h := k][h] == k;
    } else if s.table[h] != k {
      WayGoesOn(p, s.table, k, n);
    }
  }

  /** A slot that holds another key lengthens the way passed. */
  lemma WayGoesOn(p: Shape, t: seq<Key>, k: Key, d: nat)
    requires ShapeOk(p) && |t| == p.size && d < p.size && WayTaken(p, t, k, d)
    requires t[At(p, p.home(k), d)] != 0 && t[At(p, p.home(k), d)] != k
    ensures WayTaken(p, t, k, d + 1)
    ensures d + 1 < p.size ==>
      At(p, p.home(k), d + 1) == if At(p, p.home(k), d) + 1 < p.size then At(p, p.home(k), d) + 1 else 0
  {
  }

  /** The dump keeps what it has read while slots go on filling up. */
  lemma OutStaysOk(s: State, t': seq<Key>, i: nat, out: seq<Key>)
    requires Grows(s.table, t') && i <= |s.table| && OutOk(s, i, out)
    requires forall a, b :: 0 <= a < b < |t'| && t'[a] != 0 ==> t'[a] != t'[b]
    ensures OutOk(s.(table := t'), i, out)
  {
    forall a | 0 <= a < |out| ensures out[a] in t'[..i] {
      var j :| 0 <= j < i && s.table[..i][j] == out[a];
      assert t'[..i][j] == out[a];
    }
    forall k | k in s.settled && k != 0 ensures k in t' && (k in t'[..i] ==> k in out) {
      var j :| 0 <= j < |s.table| && s.table[j] == k;
      assert t'[j] == k;
      if k in t'[..i] {
        var j' :| 0 <= j' < i && t'[..i][j'] == k;
        assert t'[j'] == k && j' == j;
        assert s.table[..i][j] == k;
      }
    }
  }

  lemma ReadStep(p: Shape, s: State)
    requires ShapeOk(p) && Inv(p, s) && s.dump.Scanning?
    ensures DumpOk(Next(p, s, Read))
  {
    ReadMore(s, s.dump.i, s.dump.out);
  }

  /** Reading one more slot: an occupied one holds a key not read before. */
  lemma ReadMore(s: State, i: nat, out: seq<Key>)
    requires i < |s.table| && OutOk(s, i, out)
    requires forall a, b :: 0 <= a < b < |s.table| && s.table[a] != 0 ==> s.table[a] != s.table[b]
    ensures OutOk(s, i + 1, if s.table[i] != 0 then out + [s.table[i]] else out)
  {
    var v := s.table[i];
    assert s.table[..i + 1] == s.table[..i] + [v];
    forall a | 0 <= a < |out| ensures out[a] != v {
      var j :| 0 <= j < i && s.table[..i][j] == out[a];
      assert s.table[j] == out[a];
    }
  }

  /** When recording stops, the key of every call that had stored one is in the table. */
  lemma StopStep(p: Shape, s: State)
    requires ShapeOk(p) && Inv(p, s) && s.dump.NotBegun?
    ensures DumpOk(Next(p, s, Stop))
  {
    var s' := Next(p, s, Stop);
    forall k | k in s'.settled && k != 0 ensures k in s'.table {
      var c :| c in s.calls && s.calls[c].Returned? && s.calls[c].how == Stored && s.calls[c].k == k;
      assert CallOk(p, s.table, s.calls[c]);
    }
  }

  ghost predicate KeysCalled(s: State) {
    forall i :: 0 <= i < |s.table| && s.table[i] != 0 ==> exists c :: c in s.calls && s.calls[c].k == s.table[i]
  }

  lemma KeysStayCalled(s: State, s': State)
    requires KeysCalled(s) && |s'.table| == |s.table|
    requires forall c :: c in s.calls ==> c in s'.calls && s'.calls[c].k == s.calls[c].k
    requires forall i :: 0 <= i < |s.table| && s'.table[i] != s.table[i] ==> exists c :: c in s'.calls && s'.calls[c].k == s'.table[i]
    ensures KeysCalled(s')
  {
    forall i | 0 <= i < |s'.table| && s'.table[i] != 0 ensures exists c :: c in s'.calls && s'.calls[c].k == s'.table[i] {
      if s'.table[i] == s.table[i] {
        var c :| c in s.calls && s.calls[c].k == s.table[i];
        assert c in s'.calls && s'.calls[c].k == s'.table[i];
      }
    }
  }

  lemma ProbeKeepsInv(p: Shape, s: State, c: CallId)
    requires ShapeOk(p) && Inv(p, s) && c in s.calls && s.calls[c].Probing?
    ensures Inv(p, Next(p, s, Step(c)))
  {
    hide TableOk, CallOk, DumpOk, KeysCalled, Grows;
    var s' := Next(p, s, Step(c));
    ProbeStep(p, s, c);
    forall d | d in s'.calls ensures CallOk(p, s'.table, s'.calls[d]) {
      if d != c {
        GrowthKeepsCall(p, s.table, s'.table, s.calls[d]);
      }
    }
    GrowthKeepsDump(p, s, s');
    ProbeKeepsKeys(s, s', c);
  }

  lemma GrowthKeepsCall(p: Shape, t: seq<Key>, t': seq<Key>, pc: Pc)
    requires ShapeOk(p) && TableOk(p, t) && Grows(t, t') && CallOk(p, t, pc)
    ensures CallOk(p, t', pc)
  {
    CallStaysOk(p, t, t', pc);
  }

  lemma GrowthKeepsDump(p: Shape, s: State, s': State)
    requires ShapeOk(p) && TableOk(p, s'.table) && Grows(s.table, s'.table) && DumpOk(s)
    requires s'.dump == s.dump && s'.settled == s.settled
    ensures DumpOk(s')
  {
    match s.dump {
      case NotBegun =>
      case Scanning(i, out) => OutStaysOk(s, s'.table, i, out);
      case Written(out) => OutStaysOk(s, s'.table, |s.table|, out);
    }
  }

  lemma ProbeKeepsKeys(s: State, s': State, c: CallId)
    requires KeysCalled(s) && c in s.calls && c in s'.calls && s'.calls == s.calls[c := s'.calls[c]]
    requires s'.calls[c].k == s.calls[c].k && |s'.table| == |s.table|
    requires forall i :: 0 <= i < |s.table| ==> s'.table[i] == s.table[i] || s'.table[i] == s.calls[c].k
    ensures KeysCalled(s')
  {
    KeysStayCalled(s, s');
  }

  lemma OtherStepKeepsInv(p: Shape, s: State, a: Act)
    requires ShapeOk(p) && Inv(p, s) && Enabled(p, s, a) && !(a.Step? && s.calls[a.c].Probing?)
    ensures Inv(p, Next(p, s, a))
  {
    var s' := Next(p, s, a);
    KeysStayCalled(s, s');
    match a
    case Stop => StopStep(p, s);
    case Read => ReadStep(p, s);
    case Begin(c, k) =>
    case Step(c) => assert CallOk(p, s'.table, s'.calls[c]);
  }

  lemma {:induction false} EveryStateOk(p: Shape, s: State, acts: seq<Act>)
    requires ShapeOk(p) && Initial(p, s) && Behaviour(p, s, acts)
    ensures Inv(p, Final(p, s, acts))
  {
    if acts != [] {
      EveryStateOk(p, s, acts[..|acts| - 1]);
      var m, a := Final(p, s, acts[..|acts| - 1]), acts[|acts| - 1];
      if a.Step? && m.calls[a.c].Probing? {
        ProbeKeepsInv(p, m, a.c);
      } else {
        OtherStepKeepsInv(p, m, a);
      }
    }
  }

  // ----- what follows -----

  /** The table is a set reached by linear probing: no key twice, and no empty slot
      between a key's hash and the key. */
  lemma NoKeyTwice(p: Shape, s: State, acts: seq<Act>, i: nat, j: nat)
    requires ShapeOk(p) && Initial(p, s) && Behaviour(p, s, acts)
    requires i < p.size && j < p.size && |Final(p, s, acts).table| == p.size
    requires Final(p, s, acts).table[i] == Final(p, s, acts).table[j] != 0
    ensures i == j
    ensures WayOccupied(p, Final(p, s, acts).table, Final(p, s, acts).table[j], Dist(p, p.home(Final(p, s, acts).table[j]), j))
  {
    EveryStateOk(p, s, acts);
  }

  /** A call that looked while recording and has returned has its key in the table,
      unless every slot is taken by other keys. */
  lemma ReturnedKeyIsPresent(p: Shape, s: State, acts: seq<Act>, c: CallId)
    requires ShapeOk(p) && Initial(p, s) && Behaviour(p, s, acts)
    requires c in Final(p, s, acts).calls && Final(p, s, acts).calls[c].Returned? && !Final(p, s, acts).calls[c].how.Ignored?
    ensures var t := Final(p, s, acts).table; var pc := Final(p, s, acts).calls[c];
            if pc.how == Stored then pc.k == 0 || pc.k in t
            else pc.k !in t && forall j :: 0 <= j < |t| ==> t[j] != 0
  {
    EveryStateOk(p, s, acts);
    var t, pc := Final(p, s, acts).table, Final(p, s, acts).calls[c];
    assert CallOk(p, t, pc);
    if pc.how == Full {
      forall j | 0 <= j < |t| ensures t[j] != 0 && t[j] != pc.k {
        var d := Dist(p, p.home(pc.k), j);
        assert t[At(p, p.home(pc.k), d)] != 0;
      }
    }
  }

  /** A call is ignored only once recording has stopped. */
  lemma IgnoredOnlyAfterStop(p: Shape, s: State, acts: seq<Act>, c: CallId)
    requires Initial(p, s) && Behaviour(p, s, acts) && Stop !in acts && c in Final(p, s, acts).calls
    ensures Final(p, s, acts).calls[c].Returned? ==> !Final(p, s, acts).calls[c].how.Ignored?
  {
    NothingIgnored(p, s, acts);
  }

  lemma {:induction false} NothingIgnored(p: Shape, s: State, acts: seq<Act>)
    requires Initial(p, s) && Behaviour(p, s, acts) && Stop !in acts
    ensures var f := Final(p, s, acts);
            && f.recording && f.dump.NotBegun?
            && forall c :: c in f.calls && f.calls[c].Returned? ==> !f.calls[c].how.Ignored?
  {
    if acts != [] {
      NothingIgnored(p, s, acts[..|acts| - 1]);
    }
  }

  /** A call that is new can begin and, undisturbed, run to its return; while recording it
      is not ignored. */
  lemma ACallCanRun(p: Shape, s: State, c: CallId, k: Key) returns (acts: seq<Act>)
    requires ShapeOk(p) && Inv(p, s) && c !in s.calls
    ensures Behaviour(p, s, acts) && c in Final(p, s, acts).calls
    ensures var pc := Final(p, s, acts).calls[c]; pc.Returned? && pc.k == k && (pc.how == Ignored <==> !s.recording)
  {
    var t := Next(p, s, Begin(c, k));
    var u := Next(p, t, Step(c));
    OtherStepKeepsInv(p, s, Begin(c, k));
    OtherStepKeepsInv(p, t, Step(c));
    var rest := RunProbes(p, u, c);
    FirstThen(p, t, Step(c), rest);
    FirstThen(p, s, Begin(c, k), [Step(c)] + rest);
    acts := [Begin(c, k)] + ([Step(c)] + rest);
  }

  lemma {:induction false} RunProbes(p: Shape, s: State, c: CallId) returns (acts: seq<Act>)
    requires ShapeOk(p) && Inv(p, s) && c in s.calls && !s.calls[c].Entering?
    ensures Behaviour(p, s, acts) && c in Final(p, s, acts).calls
    ensures var pc := Final(p, s, acts).calls[c];
            pc.Returned? && pc.k == s.calls[c].k && (pc.how == Ignored <==> s.calls[c].Returned? && s.calls[c].how == Ignored)
    decreases StepsLeft(p, s.calls[c])
  {
    if s.calls[c].Returned? {
      acts := [];
    } else {
      assert CallOk(p, s.table, s.calls[c]);
      var t := Next(p, s, Step(c));
      ProbeKeepsInv(p, s, c);
      var rest := RunProbes(p, t, c);
      FirstThen(p, s, Step(c), rest);
      acts := [Step(c)] + rest;
    }
  }

  /** A dump under way can always be read to its end. */
  lemma {:induction false} ADumpCanFinish(p: Shape, s: State) returns (acts: seq<Act>)
    requires s.dump.Scanning? && s.dump.i < |s.table|
    ensures Behaviour(p, s, acts) && Final(p, s, acts).dump.Written? && forall k :: 0 <= k < |acts| ==> acts[k] == Read
    decreases |s.table| - s.dump.i
  {
    var t := Next(p, s, Read);
    if t.dump.Written? {
      acts := [Read];
    } else {
      var rest := ADumpCanFinish(p, t);
      FirstThen(p, s, Read, rest);
      acts := [Read] + rest;
    }
  }

  lemma {:induction false} FirstThen(p: Shape, s: State, a: Act, rest: seq<Act>)
    requires Enabled(p, s, a) && Behaviour(p, Next(p, s, a), rest)
    ensures Behaviour(p, s, [a] + rest) && Final(p, s, [a] + rest) == Final(p, Next(p, s, a), rest)
  {
    if rest == [] {
      assert [a] + rest == [a] && [a][..0] == [];
    } else {
      var n := |rest| - 1;
      FirstThen(p, s, a, rest[..n]);
      assert ([a] + rest)[..n + 1] == [a] + rest[..n];
    }
  }

  /** The steps a call has left at most. */
  function StepsLeft(p: Shape, pc: Pc): nat {
    match pc
    case Entering(_) => p.size + 1
    case Probing(_, _, probes) => if probes < p.size then p.size - probes else 0
    case Returned(_, _) => 0
  }

  /** Wait-freedom: a call that has not returned can always take its next step, each
      of its own steps brings it closer to returning, and no other step sets it back. */
  lemma EveryCallTerminates(p: Shape, s: State, acts: seq<Act>, c: CallId, a: Act)
    requires ShapeOk(p) && Initial(p, s) && Behaviour(p, s, acts)
    requires c in Final(p, s, acts).calls && Enabled(p, Final(p, s, acts), a)
    ensures var m := Final(p, s, acts); var m' := Next(p, m, a);
            && (!m.calls[c].Returned? ==> Enabled(p, m, Step(c)))
            && c in m'.calls
            && (if a == Step(c) then StepsLeft(p, m'.calls[c]) < StepsLeft(p, m.calls[c]) else m'.calls[c] == m.calls[c])
  {
    EveryStateOk(p, s, acts);
    assert CallOk(p, Final(p, s, acts).table, Final(p, s, acts).calls[c]);
  }

  /** The dump names no address twice, names only addresses that were entered, and
      names every address whose call had stored it when recording stopped. */
  lemma DumpIsExact(p: Shape, s: State, acts: seq<Act>)
    requires ShapeOk(p) && Initial(p, s) && Behaviour(p, s, acts) && Final(p, s, acts).dump.Written?
    ensures var f := Final(p, s, acts); var out := f.dump.out;
            && (forall a, b :: 0 <= a < b < |out| ==> out[a] != out[b])
            && (forall k :: k in out ==> k != 0 && exists c :: c in f.calls && f.calls[c].k == k)
            && (forall k :: k in f.settled && k != 0 ==> k in out)
  {
    EveryStateOk(p, s, acts);
    var f := Final(p, s, acts);
    assert f.table[..|f.table|] == f.table;
    forall k | k in f.dump.out ensures k != 0 && exists c :: c in f.calls && f.calls[c].k == k {
      var i :| 0 <= i < |f.table| && f.table[i] == k;
    }
  }

  function StoredKeys(s: State): set<Key> {
    set c | c in s.calls && s.calls[c].Returned? && s.calls[c].how == Stored :: s.calls[c].k
  }

  /** Recording stops once, and `settled` keeps what was stored at that moment. */
  lemma {:induction false} SettledSinceStop(p: Shape, s: State, acts: seq<Act>, at: nat)
    requires Behaviour(p, s, acts) && at < |acts| && acts[at] == Stop
    ensures Final(p, s, acts).settled == StoredKeys(Final(p, s, acts[..at]))
    ensures !Final(p, s, acts).dump.NotBegun?
  {
    hide Next, StoredKeys;
    var n := |acts| - 1;
    SettlesAtStop(p, Final(p, s, acts[..n]), acts[n]);
    if at < n {
      assert acts[..n][..at] == acts[..at];
      SettledSinceStop(p, s, acts[..n], at);
    }
  }

  lemma SettlesAtStop(p: Shape, s: State, a: Act)
    requires Enabled(p, s, a)
    ensures a == Stop || !s.dump.NotBegun? ==> !Next(p, s, a).dump.NotBegun?
    ensures Next(p, s, a).settled == if a == Stop then StoredKeys(s) else s.settled
  {
    hide StoredKeys;
  }

  /** An address whose call had returned, having stored it, before recording stopped
      is in the dump. */
  lemma FinishedBeforeStopIsDumped(p: Shape, s: State, acts: seq<Act>, at: nat, c: CallId)
    requires ShapeOk(p) && Initial(p, s) && Behaviour(p, s, acts) && Final(p, s, acts).dump.Written?
    requires at < |acts| && acts[at] == Stop
    requires var m := Final(p, s, acts[..at]); c in m.calls && m.calls[c].Returned? && m.calls[c].how == Stored && m.calls[c].k != 0
    ensures Final(p, s, acts[..at]).calls[c].k in Final(p, s, acts).dump.out
  {
    SettledSinceStop(p, s, acts, at);
    DumpIsExact(p, s, acts);
  }
}
