/**
 Why LlmSwap asks that no `set_llm` create its LLM while another is on its way to
 publish: exactly then the swaps can go on, without any further creation, to a run
 that uses a destroyed LLM or to an LLM that is destroyed twice.
 */
module LlmSwapOverlap {
  import opened Options
  import opened LaneProtocol
  import opened LaneSafety
  import opened LlmSwap
  import opened LaneProgress

  // ----- going on without a creation -----

  ghost predicate CanReach(s: State, t: State) {
    exists acts :: Behaviour(s, acts) && NoCreation(acts) && Final(s, acts) == t
  }

  lemma Stay(s: State)
    ensures CanReach(s, s)
  {
    assert Behaviour(s, []) && NoCreation([]) && Final(s, []) == s;
  }

  lemma Step(s: State, a: Act, t: State)
    requires Enabled(s, a) && Next(s, a) == t && !(a.Advance? && a.op.NewLlm?)
    ensures CanReach(s, t)
  {
    One(s, a);
    assert NoCreation([a]);
  }

  lemma Via(s: State, t: State, u: State)
    requires CanReach(s, t) && CanReach(t, u)
    ensures CanReach(s, u)
  {
    var a :| Behaviour(s, a) && NoCreation(a) && Final(s, a) == t;
    var b :| Behaviour(t, b) && NoCreation(b) && Final(t, b) == u;
    Compose(s, a, b);
    assert NoCreation(a + b);
  }

  /** Without a creation nobody begins to switch, and everything stays in order. */
  lemma {:induction false} QuietKeepsLlmOk(s: State, acts: seq<Act>)
    requires Safe(s) && LlmOk(s) && Behaviour(s, acts) && NoCreation(acts)
    ensures Safe(Final(s, acts)) && LlmOk(Final(s, acts))
    ensures forall q :: q in Final(s, acts).procs && Switching(Final(s, acts).procs[q]) ==>
              q in s.procs && Switching(s.procs[q])
  {
    if acts != [] {
      var before, a := acts[..|acts| - 1], acts[|acts| - 1];
      var m := Final(s, before);
      assert NoCreation(before) && !(a.Advance? && a.op.NewLlm?);
      QuietKeepsLlmOk(s, before);
      StepKeepsSafe(m, a);
      StepKeepsLlmOk(m, a);
      NobodyBegins(m, a);
    }
  }

  lemma NobodyBegins(s: State, a: Act)
    requires Enabled(s, a) && !(a.Advance? && a.op.NewLlm?)
    ensures forall q :: q in Next(s, a).procs && Switching(Next(s, a).procs[q]) ==> q in s.procs && Switching(s.procs[q])
  {
    if a.Advance? && !Switching(s.procs[a.p]) {
      if s.procs[a.p].SwapDestroy? {
        DestroyMove(s, a.p, a.op, a.pc');
      } else {
        OnlySwapsTouchLlms(s, a.p, a.op, a.pc');
      }
    }
  }

  // ----- what goes wrong -----

  /** A run holds an LLM that has been destroyed. */
  ghost predicate HasStrandedRun(s: State) {
    exists p :: p in s.procs && UsedBy(s.procs[p]).Some? && UsedBy(s.procs[p]).value.1 !in s.live
  }

  /** An LLM that has been destroyed is about to be destroyed again. */
  ghost predicate DestroysTwice(s: State) {
    exists p :: p in s.procs && s.procs[p].SwapDestroy? && s.procs[p].retired !in s.live
  }

  ghost predicate Harmed(s: State) {
    HasStrandedRun(s) || DestroysTwice(s)
  }

  lemma InOrderIsUnharmed(s: State)
    requires LlmOk(s)
    ensures !Harmed(s)
  {
    LanesReferToLive(s);
  }

  function Created(s: State, p: Proc, x: Llm): State {
    Next(s, Advance(p, NewLlm(x), SwapLock(0, x)))
  }

  /** Process `p`, which is about to create its LLM, does so, nobody else does, and `t`
      is reached. */
  ghost predicate ReachesBy(s: State, p: Proc, m: State, x: Llm, t: State) {
    CanReach(s, m) && p in m.procs && m.procs[p] == SwapCreate && x !in m.live && CanReach(Created(m, p, x), t)
  }

  ghost predicate CanHarm(s: State, p: Proc) {
    exists m, x, t :: ReachesBy(s, p, m, x, t) && Harmed(t)
  }

  ghost predicate CanStrand(s: State, p: Proc) {
    exists m, x, t :: ReachesBy(s, p, m, x, t) && HasStrandedRun(t)
  }

  /** A creation that is apart does no harm. */
  lemma ApartIsHarmless(s: State, p: Proc)
    requires Safe(s) && LlmOk(s) && p in s.procs && s.procs[p] == SwapCreate && NoneSwitching(s)
    ensures !CanHarm(s, p)
  {
    forall m, x, t | ReachesBy(s, p, m, x, t) ensures !Harmed(t) {
      var a :| Behaviour(s, a) && NoCreation(a) && Final(s, a) == m;
      QuietKeepsLlmOk(s, a);
      assert NoneSwitching(m);
      var c := Advance(p, NewLlm(x), SwapLock(0, x));
      StepKeepsSafe(m, c);
      StepKeepsLlmOk(m, c);
      var b :| Behaviour(Created(m, p, x), b) && NoCreation(b) && Final(Created(m, p, x), b) == t;
      QuietKeepsLlmOk(Created(m, p, x), b);
      InOrderIsUnharmed(t);
    }
  }

  // ----- a swap on its own -----

  function AfterLane(i: nat, x: Llm): Pc {
    if i + 1 < LANES then SwapLock(i + 1, x) else SwapRead(x)
  }

  /** One turn of the loop of set_llm, undisturbed. */
  lemma SwitchLane(s: State, p: Proc, i: nat, x: Llm)
    requires p in s.procs && s.procs[p] == SwapLock(i, x) && s.locks == map[] && i < |s.lanes|
    ensures CanReach(s, s.(lanes := s.lanes[i := x], procs := s.procs[p := AfterLane(i, x)]))
  {
    hide CanReach;
    var s1 := s.(locks := map[Lane(i) := p], procs := s.procs[p := SwapSet(i, x)]);
    var s2 := s1.(lanes := s.lanes[i := x], procs := s.procs[p := SwapUnlock(i, x)]);
    var s3 := s2.(locks := map[], procs := s.procs[p := AfterLane(i, x)]);
    TakeOne(s, p, i, x, s1);
    SetOne(s1, p, i, x, s2);
    Unlock(s2, p, i, x, s3);
    Via(s, s1, s2);
    Via(s, s2, s3);
  }

  lemma TakeOne(s: State, p: Proc, i: nat, x: Llm, t: State)
    requires p in s.procs && s.procs[p] == SwapLock(i, x) && s.locks == map[]
    requires t == s.(locks := map[Lane(i) := p], procs := s.procs[p := SwapSet(i, x)])
    ensures CanReach(s, t)
  {
    Step(s, Advance(p, Take(Lane(i)), SwapSet(i, x)), t);
  }

  lemma SetOne(s: State, p: Proc, i: nat, x: Llm, t: State)
    requires p in s.procs && s.procs[p] == SwapSet(i, x) && i < |s.lanes|
    requires t == s.(lanes := s.lanes[i := x], procs := s.procs[p := SwapUnlock(i, x)])
    ensures CanReach(s, t)
  {
    Step(s, Advance(p, SetLane(i, x), SwapUnlock(i, x)), t);
  }

  lemma Unlock(s: State, p: Proc, i: nat, x: Llm, t: State)
    requires p in s.procs && s.procs[p] == SwapUnlock(i, x)
    requires t == s.(locks := s.locks - {Lane(i)}, procs := s.procs[p := AfterLane(i, x)])
    ensures CanReach(s, t)
  {
    Step(s, Advance(p, Drop(Lane(i)), AfterLane(i, x)), t);
  }

  /** The loop of set_llm from lane `i` on, undisturbed. */
  lemma {:induction false} SwitchFrom(s: State, p: Proc, i: nat, x: Llm, t: State)
    requires p in s.procs && s.procs[p] == SwapLock(i, x) && s.locks == map[] && i < LANES == |s.lanes|
    requires |t.lanes| == LANES
    requires forall j :: 0 <= j < LANES ==> t.lanes[j] == if j < i then s.lanes[j] else x
    requires t == s.(lanes := t.lanes, procs := s.procs[p := SwapRead(x)])
    ensures CanReach(s, t)
    decreases LANES - i
  {
    SwitchLane(s, p, i, x);
    var m := s.(lanes := s.lanes[i := x], procs := s.procs[p := AfterLane(i, x)]);
    if i + 1 < LANES {
      assert m.procs[p := SwapRead(x)] == s.procs[p := SwapRead(x)];
      SwitchFrom(m, p, i + 1, x, t);
      Via(s, m, t);
    } else {
      assert m.lanes == t.lanes;
    }
  }

  /** `old = ctx->llm; ctx->llm = nl` and the destruction of the old one. */
  lemma Finish(s: State, p: Proc, x: Llm, t: State)
    requires p in s.procs && s.procs[p] == SwapRead(x)
    requires t == s.(ctxLlm := x, live := s.live - {s.ctxLlm}, procs := s.procs[p := Done])
    ensures CanReach(s, t)
  {
    hide CanReach;
    var m := s.(procs := s.procs[p := SwapPublish(x, s.ctxLlm)]);
    var n := s.(ctxLlm := x, procs := s.procs[p := SwapDestroy(s.ctxLlm)]);
    ReadOld(s, p, x, m);
    PublishOver(m, p, x, s.ctxLlm, n);
    DestroyOld(n, p, s.ctxLlm, t);
    Via(s, m, n);
    Via(s, n, t);
  }

  lemma ReadOld(s: State, p: Proc, x: Llm, t: State)
    requires p in s.procs && s.procs[p] == SwapRead(x)
    requires t == s.(procs := s.procs[p := SwapPublish(x, s.ctxLlm)])
    ensures CanReach(s, t)
  {
    Step(s, Advance(p, Nop, SwapPublish(x, s.ctxLlm)), t);
  }

  lemma PublishOver(s: State, p: Proc, x: Llm, retired: Llm, t: State)
    requires p in s.procs && s.procs[p] == SwapPublish(x, retired)
    requires t == s.(ctxLlm := x, procs := t.procs) && t.procs == s.procs[p := SwapDestroy(retired)]
    ensures CanReach(s, t)
  {
    Step(s, Advance(p, Publish(x), SwapDestroy(retired)), t);
  }

  lemma DestroyOld(s: State, p: Proc, x: Llm, t: State)
    requires p in s.procs && s.procs[p] == SwapDestroy(x)
    requires t == s.(live := s.live - {x}, procs := t.procs) && t.procs == s.procs[p := Done]
    ensures CanReach(s, t)
  {
    Step(s, Advance(p, Destroy(x), Done), t);
  }

  // ----- making room for the two swaps -----

  /** A swap that holds a lane lock can let go of it. */
  lemma LetGo(s: State, q: Proc) returns (t: State)
    requires LanesOk(s) && q in s.procs && Switching(s.procs[q])
    ensures CanReach(s, t) && q in t.procs && t.procs == s.procs[q := t.procs[q]]
    ensures Switching(t.procs[q]) && (t.procs[q].SwapPublish? <==> s.procs[q].SwapPublish?)
    ensures forall l :: !Holds(t.procs[q], l)
  {
    hide CanReach;
    var pc := s.procs[q];
    if pc.SwapSet? {
      t := LetGoOfSet(s, q, pc.i, pc.llm);
    } else if pc.SwapUnlock? {
      t := s.(locks := s.locks - {Lane(pc.i)}, procs := s.procs[q := AfterLane(pc.i, pc.llm)]);
      Unlock(s, q, pc.i, pc.llm, t);
    } else {
      t := s;
      Stay(s);
    }
  }

  lemma LetGoOfSet(s: State, q: Proc, i: nat, x: Llm) returns (t: State)
    requires q in s.procs && s.procs[q] == SwapSet(i, x) && i < |s.lanes|
    ensures CanReach(s, t) && t.procs == s.procs[q := AfterLane(i, x)]
  {
    hide CanReach;
    var m := s.(lanes := s.lanes[i := x], procs := s.procs[q := SwapUnlock(i, x)]);
    t := m.(locks := m.locks - {Lane(i)}, procs := m.procs[q := AfterLane(i, x)]);
    SetOne(s, q, i, x, m);
    Unlock(m, q, i, x, t);
    Via(s, m, t);
  }

  lemma ReachKeeps(s: State, t: State)
    requires Safe(s) && LanesOk(s) && CanReach(s, t)
    ensures Safe(t) && LanesOk(t)
  {
    var acts :| Behaviour(s, acts) && NoCreation(acts) && Final(s, acts) == t;
    BehaviourKeepsInvariants(s, acts);
  }

  lemma ReachKeepsLlmOk(s: State, t: State)
    requires Safe(s) && LlmOk(s) && CanReach(s, t)
    ensures Safe(t) && LlmOk(t)
  {
    var acts :| Behaviour(s, acts) && NoCreation(acts) && Final(s, acts) == t;
    QuietKeepsLlmOk(s, acts);
  }

  lemma NobodyHoldsNothing(s: State)
    requires LocksOk(s) && forall p :: p in s.procs ==> forall l :: !Holds(s.procs[p], l)
    ensures s.locks == map[]
  {
    forall l ensures l !in s.locks {
    }
  }

  /** All others can return, which leaves the two swaps and no lock held. */
  lemma LeaveTwo(s: State, p: Proc, q: Proc) returns (t: State)
    requires Safe(s) && LanesOk(s) && Idle(s, {p, q})
    ensures CanReach(s, t) && Safe(t) && LanesOk(t) && t.locks == map[]
    ensures p in t.procs && q in t.procs && t.procs[p] == s.procs[p] && t.procs[q] == s.procs[q]
  {
    var acts := DrainBut(s, {p, q}, false);
    t := Final(s, acts);
    OnlyTwoLeft(s.procs, t.procs, p, q);
    NobodyHoldsNothing(t);
  }

  lemma OnlyTwoLeft(procs: map<Proc, Pc>, t: map<Proc, Pc>, p: Proc, q: Proc)
    requires Drained(procs, t, {p, q}) && p in procs && q in procs
    requires forall l :: !Holds(procs[p], l) && !Holds(procs[q], l)
    ensures p in t && q in t && t[p] == procs[p] && t[q] == procs[q]
    ensures forall r :: r in t ==> forall l :: !Holds(t[r], l)
  {
    assert p in {p, q} && q in {p, q};
  }

  /** The other swap holds nothing, and nobody else is left. */
  lemma ClearTheWay(s: State, p: Proc, q: Proc) returns (t: State)
    requires Safe(s) && LanesOk(s) && p in s.procs && q in s.procs && s.procs[p] == SwapCreate && Switching(s.procs[q])
    ensures CanReach(s, t) && Safe(t) && LanesOk(t) && t.locks == map[] && p in t.procs && q in t.procs
    ensures t.procs[p] == SwapCreate && Switching(t.procs[q])
    ensures t.procs[q].SwapPublish? <==> s.procs[q].SwapPublish?
    ensures t.procs[q].SwapLock? || t.procs[q].SwapRead? || t.procs[q].SwapPublish?
  {
    hide CanReach, Safe, LanesOk;
    var a := LetGo(s, q);
    ReachKeeps(s, a);
    t := LeaveTwo(a, p, q);
    Via(s, a, t);
    HoldsNoLane(t.procs[q]);
  }

  lemma HoldsNoLane(pc: Pc)
    requires Switching(pc) && forall l :: !Holds(pc, l)
    ensures pc.SwapLock? || pc.SwapRead? || pc.SwapPublish?
  {
    if pc.SwapSet? || pc.SwapUnlock? {
      assert Holds(pc, Lane(pc.i));
    }
  }

  /** The other swap is brought to where it has switched its lanes and holds nothing. */
  lemma BringToRead(s: State, p: Proc, q: Proc) returns (t: State)
    requires Safe(s) && LanesOk(s) && p in s.procs && q in s.procs && s.procs[p] == SwapCreate && Switching(s.procs[q])
    ensures CanReach(s, t) && Safe(t) && LanesOk(t) && t.locks == map[] && p in t.procs && q in t.procs
    ensures t.procs[p] == SwapCreate
    ensures if s.procs[q].SwapPublish? then t.procs[q].SwapPublish? else t.procs[q].SwapRead?
  {
    hide CanReach, Safe, LanesOk;
    var b := ClearTheWay(s, p, q);
    if b.procs[q].SwapLock? {
      t := SwitchAll(b, q);
      ReachKeeps(b, t);
      Via(s, b, t);
    } else {
      t := b;
    }
  }

  lemma SwitchAll(s: State, q: Proc) returns (t: State)
    requires LanesOk(s) && q in s.procs && s.procs[q].SwapLock? && s.locks == map[]
    ensures CanReach(s, t) && t.locks == map[] && t.live == s.live && t.ctxLlm == s.ctxLlm
    ensures t.procs == s.procs[q := SwapRead(s.procs[q].llm)] && |t.lanes| == LANES
    ensures s.procs[q].i == 0 ==> forall j :: 0 <= j < LANES ==> t.lanes[j] == s.procs[q].llm
  {
    hide CanReach;
    var i, x := s.procs[q].i, s.procs[q].llm;
    var lanes := seq(LANES, j requires 0 <= j < LANES => if j < i && j < |s.lanes| then s.lanes[j] else x);
    t := s.(lanes := lanes, procs := s.procs[q := SwapRead(x)]);
    SwitchFrom(s, q, i, x, t);
  }

  // ----- the overtaking swap -----

  /** The second swap creates, switches every lane, publishes and destroys the LLM that
      was current, while the first waits. */
  lemma Overtake(m: State, p: Proc, q: Proc) returns (x: Llm, t: State)
    requires LanesOk(m) && m.locks == map[] && p in m.procs && q in m.procs && p != q && m.procs[p] == SwapCreate
    ensures x !in m.live && CanReach(Created(m, p, x), t)
    ensures t.locks == map[] && t.ctxLlm == x && t.live == m.live + {x} - {m.ctxLlm}
    ensures t.procs == m.procs[p := Done] && |t.lanes| == LANES && forall j :: 0 <= j < LANES ==> t.lanes[j] == x
  {
    hide CanReach, LanesOk, Created;
    x := Unused(m.live);
    var c := Created(m, p, x);
    CreationKeepsLanesOk(m, p, x);
    var b := SwitchAll(c, p);
    t := b.(ctxLlm := x, live := b.live - {b.ctxLlm}, procs := b.procs[p := Done]);
    Finish(b, p, x, t);
    Via(c, b, t);
    assert t.procs == m.procs[p := Done];
  }

  lemma CreationKeepsLanesOk(m: State, p: Proc, x: Llm)
    requires LanesOk(m) && p in m.procs && m.procs[p] == SwapCreate && x !in m.live
    ensures LanesOk(Created(m, p, x)) && Created(m, p, x) == m.(live := m.live + {x}, procs := m.procs[p := SwapLock(0, x)])
  {
    StepKeepsLanesOk(m, Advance(p, NewLlm(x), SwapLock(0, x)));
  }

  /** The first swap reads the overtaking one's LLM as the old one, publishes its own and
      destroys the one that all lanes refer to. */
  lemma DestroysTheLanes(s: State, q: Proc, x: Llm) returns (t: State)
    requires s.locks == map[] && q in s.procs && s.procs[q].SwapRead? && s.ctxLlm == x
    ensures CanReach(s, t) && t.locks == map[] && t.lanes == s.lanes && x !in t.live
  {
    hide CanReach;
    var y := s.procs[q].llm;
    t := s.(ctxLlm := y, live := s.live - {s.ctxLlm}, procs := s.procs[q := Done]);
    Finish(s, q, y, t);
  }

  /** A run that starts now uses it. */
  lemma RunIsStranded(s: State) returns (t: State)
    requires s.locks == map[] && 0 < |s.lanes| && s.lanes[0] !in s.live
    ensures CanReach(s, t) && HasStrandedRun(t)
  {
    hide CanReach, HasStrandedRun;
    var r := Unused(s.procs.Keys);
    var a := s.(procs := s.procs[r := SoloLock]);
    var b := s.(locks := map[Lane(0) := r], procs := s.procs[r := SoloHeld]);
    t := s.(locks := map[Lane(0) := r], procs := s.procs[r := SoloRunning(s.lanes[0])]);
    SoloArrives(s, r, a);
    SoloTakes(a, r, b);
    SoloStarts(b, r, t);
    Via(s, a, b);
    Via(s, b, t);
    StrandedBy(t, r, s.lanes[0]);
  }

  lemma StrandedBy(t: State, r: Proc, x: Llm)
    requires r in t.procs && t.procs[r] == SoloRunning(x) && x !in t.live
    ensures HasStrandedRun(t)
  {
    assert UsedBy(t.procs[r]) == Some((0, x));
  }

  lemma SoloArrives(s: State, r: Proc, t: State)
    requires r !in s.procs && t == s.(procs := s.procs[r := SoloLock])
    ensures CanReach(s, t)
  {
    Step(s, Arrive(r, SoloLock), t);
  }

  lemma SoloTakes(s: State, r: Proc, t: State)
    requires r in s.procs && s.procs[r] == SoloLock && s.locks == map[]
    requires t == s.(locks := map[Lane(0) := r], procs := t.procs) && t.procs == s.procs[r := SoloHeld]
    ensures CanReach(s, t)
  {
    Step(s, Advance(r, Take(Lane(0)), SoloHeld), t);
  }

  lemma SoloStarts(s: State, r: Proc, t: State)
    requires r in s.procs && s.procs[r] == SoloHeld && 0 < |s.lanes|
    requires t == s.(procs := t.procs) && t.procs == s.procs[r := SoloRunning(s.lanes[0])]
    ensures CanReach(s, t)
  {
    Step(s, Advance(r, Nop, SoloRunning(s.lanes[0])), t);
  }

  /** An overlap up to the reading of the old LLM can end in a stranded run. */
  lemma OverlappingSwapsStrandARun(s: State, p: Proc, q: Proc)
    requires Safe(s) && LanesOk(s) && p in s.procs && q in s.procs && s.procs[p] == SwapCreate
    requires Switching(s.procs[q]) && !s.procs[q].SwapPublish?
    ensures CanStrand(s, p)
  {
    var m := BringToRead(s, p, q);
    var x, a := Overtake(m, p, q);
    var b := DestroysTheLanes(a, q, x);
    var t := RunIsStranded(b);
    Via(Created(m, p, x), a, b);
    Via(Created(m, p, x), b, t);
    assert ReachesBy(s, p, m, x, t);
  }

  /** An overlap after that reading can end in an LLM destroyed twice. */
  lemma OverlappingSwapsDestroyTwice(s: State, p: Proc, q: Proc)
    requires Safe(s) && LlmOk(s) && p in s.procs && q in s.procs && s.procs[p] == SwapCreate && s.procs[q].SwapPublish?
    ensures CanHarm(s, p)
  {
    hide CanReach, Safe, LanesOk;
    var m := BringToRead(s, p, q);
    ReachKeepsLlmOk(s, m);
    assert SwapOk(m, m.procs[q]);
    var x, a := Overtake(m, p, q);
    var y, retired := m.procs[q].llm, m.procs[q].retired;
    var t := a.(ctxLlm := y, procs := a.procs[q := SwapDestroy(retired)]);
    PublishOver(a, q, y, retired, t);
    Via(Created(m, p, x), a, t);
    assert q in t.procs && t.procs[q] == SwapDestroy(retired) && retired !in t.live;
    assert ReachesBy(s, p, m, x, t) && DestroysTwice(t);
  }

  /** The exact condition: when the swaps so far were apart, creating an LLM now can lead
      to harm without any further creation if and only if another swap is on its way to
      publish.  One that has published already does not matter. */
  lemma OverlapHarmsExactly(s0: State, acts: seq<Act>, p: Proc)
    requires Initial(s0) && Behaviour(s0, acts) && CreatesApart(s0, acts)
    requires p in Final(s0, acts).procs && Final(s0, acts).procs[p] == SwapCreate
    ensures CanHarm(Final(s0, acts), p) <==> !NoneSwitching(Final(s0, acts))
  {
    var s := Final(s0, acts);
    EveryBehaviourIsSafe(s0, acts);
    ApartCreationsKeepLlmOk(s0, acts);
    if NoneSwitching(s) {
      ApartIsHarmless(s, p);
    } else {
      var q :| q in s.procs && Switching(s.procs[q]);
      if s.procs[q].SwapPublish? {
        OverlappingSwapsDestroyTwice(s, p, q);
      } else {
        OverlappingSwapsStrandARun(s, p, q);
        var m, x, t :| ReachesBy(s, p, m, x, t) && HasStrandedRun(t);
        assert Harmed(t);
      }
    }
  }
}
