/**
 Hot swap of the LLM under the lane locks: as long as no `set_llm` creates its LLM
 while another has created one and not yet published it, every run uses one live LLM
 and each LLM is destroyed once.  LlmSwapOverlap shows that nothing weaker will do.
 */
module LlmSwap {
  import opened Options
  import opened LaneProtocol
  import opened LaneSafety

  /** Between creating its LLM and publishing it. */
  predicate Switching(pc: Pc) {
    pc.SwapLock? || pc.SwapSet? || pc.SwapUnlock? || pc.SwapRead? || pc.SwapPublish?
  }

  /** Between creating its LLM and destroying the one before. */
  predicate Swapping(pc: Pc) {
    Switching(pc) || pc.SwapDestroy?
  }

  /** What a caller of set_llm can see to: no other set_llm is on its way to publish.
      One that has published and is about to destroy the old LLM does no harm. */
  ghost predicate NoneSwitching(s: State) {
    forall q :: q in s.procs ==> !Switching(s.procs[q])
  }

  ghost predicate CreatesApart(s: State, acts: seq<Act>) {
    acts == [] ||
    (var a := acts[|acts| - 1]; var before := acts[..|acts| - 1];
     CreatesApart(s, before) && (a.Advance? && a.op.NewLlm? ==> NoneSwitching(Final(s, before))))
  }

  /** The lane a run is on and the LLM it started with. */
  function UsedBy(pc: Pc): Option<(nat, Llm)> {
    match pc
    case Chat(_, Running(_, i, x)) => Some((i, x))
    case SoloRunning(x) => Some((0, x))
    case _ => None
  }

  /** How many lanes the swap has already switched. */
  function Switched(pc: Pc): nat {
    match pc
    case SwapLock(i, _) => i
    case SwapSet(i, _) => i
    case SwapUnlock(i, _) => i + 1
    case _ => LANES
  }

  /** What each lane refers to, given that the swap at `pc` is the one switching. */
  ghost predicate SwapOk(s: State, pc: Pc) {
    Switching(pc) ==>
      && pc.llm in s.live && pc.llm != s.ctxLlm
      && (forall j :: 0 <= j < |s.lanes| ==> s.lanes[j] == if j < Switched(pc) then pc.llm else s.ctxLlm)
      && (pc.SwapPublish? ==> pc.retired == s.ctxLlm)
  }

  ghost predicate LanesOk(s: State) {
    && |s.lanes| == LANES
    && (forall p :: p in s.procs ==> LaneIndexOk(s.procs[p]))
  }

  predicate LaneIndexOk(pc: Pc) {
    && (LaneOf(pc).Some? ==> LaneOf(pc).value < LANES)
    && (pc.Chat? && pc.at.LaneTry? ==> pc.at.i < LANES)
    && (pc.SwapLock? ==> pc.i < LANES)
  }

  /** At most one swap is switching, and the lanes are as it left them. */
  ghost predicate SwapsOk(s: State) {
    && s.ctxLlm in s.live
    && (forall p, q :: p in s.procs && q in s.procs && Switching(s.procs[p]) && Switching(s.procs[q]) ==> p == q)
    && (forall p :: p in s.procs ==> SwapOk(s, s.procs[p]))
    && (NoneSwitching(s) ==> forall j :: 0 <= j < |s.lanes| ==> s.lanes[j] == s.ctxLlm)
  }

  /** The retired LLMs are live, each awaits destruction by one process, and none of
      them is the current one or about to be. */
  ghost predicate RetiredOk(s: State) {
    && (forall p :: p in s.procs && s.procs[p].SwapDestroy? ==>
          s.procs[p].retired in s.live && s.procs[p].retired != s.ctxLlm)
    && (forall p, q :: p in s.procs && q in s.procs && p != q && s.procs[p].SwapDestroy? && s.procs[q].SwapDestroy? ==>
          s.procs[p].retired != s.procs[q].retired)
    && (forall p, q :: p in s.procs && q in s.procs && s.procs[p].SwapDestroy? && Switching(s.procs[q]) ==>
          s.procs[p].retired != s.procs[q].llm)
  }

  ghost predicate LlmOk(s: State) {
    LanesOk(s) && SwapsOk(s) && RetiredOk(s) && UsersOk(s)
  }

  /** A run's lane still refers to the LLM the run started with. */
  ghost predicate UsersOk(s: State) {
    forall p :: p in s.procs && UsedBy(s.procs[p]).Some? ==>
      var u := UsedBy(s.procs[p]).value; u.0 < |s.lanes| && s.lanes[u.0] == u.1
  }

  // ----- preservation -----

  lemma MoveKeepsLaneIndex(s: State, p: Proc, op: Op, pc': Pc)
    requires LanesOk(s) && p in s.procs && Move(s, p, op, pc')
    ensures LaneIndexOk(pc')
    ensures op.SetLane? ==> op.i < LANES
  {
    hide ChatMove, LaneIndexOk;
    if s.procs[p].Chat? {
      ChatKeepsLaneIndex(s, p, s.procs[p].c, s.procs[p].at, op, pc');
    } else {
      PlainKeepsLaneIndex(s, p, op, pc');
    }
  }

  lemma PlainKeepsLaneIndex(s: State, p: Proc, op: Op, pc': Pc)
    requires p in s.procs && LaneIndexOk(s.procs[p]) && !s.procs[p].Chat? && Move(s, p, op, pc')
    ensures LaneIndexOk(pc')
    ensures op.SetLane? ==> op.i < LANES
  {
    hide ChatMove;
  }

  lemma ChatKeepsLaneIndex(s: State, p: Proc, c: Call, at: Stage, op: Op, pc': Pc)
    requires ChatMove(s, p, c, at, op, pc') && LaneIndexOk(Chat(c, at))
    ensures LaneIndexOk(pc') && !Swapping(pc') && !op.SetLane?
  {
    match at
    case Lookup =>
    case _ =>
  }

  lemma StepKeepsLanesOk(s: State, a: Act)
    requires LanesOk(s) && Enabled(s, a)
    ensures LanesOk(Next(s, a))
  {
    if a.Advance? {
      MoveKeepsLaneIndex(s, a.p, a.op, a.pc');
    }
  }

  /** Only a move of set_llm itself touches a lane, the current LLM or the live set. */
  lemma OnlySwapsTouchLlms(s: State, p: Proc, op: Op, pc': Pc)
    requires p in s.procs && Move(s, p, op, pc') && !Swapping(s.procs[p])
    ensures !op.SetLane? && !op.Publish? && !op.Destroy?
    ensures op.NewLlm? <==> Swapping(pc')
    ensures op.NewLlm? ==> op.x !in s.live && pc' == SwapLock(0, op.x)
    ensures UsedBy(pc').Some? ==> UsedBy(pc').value.0 < |s.lanes| && s.lanes[UsedBy(pc').value.0] == UsedBy(pc').value.1
  {
    if s.procs[p].Chat? {
      ChatTouchesNoLlm(s, p, s.procs[p].c, s.procs[p].at, op, pc');
    }
  }

  lemma ChatTouchesNoLlm(s: State, p: Proc, c: Call, at: Stage, op: Op, pc': Pc)
    requires ChatMove(s, p, c, at, op, pc')
    ensures !op.SetLane? && !op.Publish? && !op.Destroy? && !op.NewLlm? && !Swapping(pc')
    ensures UsedBy(pc').Some? ==> UsedBy(pc').value.0 < |s.lanes| && s.lanes[UsedBy(pc').value.0] == UsedBy(pc').value.1
  {
    match at
    case Lookup =>
    case _ =>
  }

  /** A step that leaves the LLMs and the swapping processes alone keeps everything
      said of them. */
  lemma FrameSwaps(s: State, t: State)
    requires SwapsOk(s) && RetiredOk(s)
    requires t.lanes == s.lanes && t.ctxLlm == s.ctxLlm && t.live == s.live
    requires forall q :: q in t.procs && Swapping(t.procs[q]) ==> q in s.procs && s.procs[q] == t.procs[q]
    requires forall q :: q in s.procs && Swapping(s.procs[q]) ==> q in t.procs && s.procs[q] == t.procs[q]
    ensures SwapsOk(t) && RetiredOk(t)
  {
    forall q | q in t.procs ensures SwapOk(t, t.procs[q]) {
      if Switching(t.procs[q]) {
        SwapOkDependsOnLlms(s, t, t.procs[q]);
      }
    }
  }

  lemma SwapOkDependsOnLlms(s: State, t: State, pc: Pc)
    requires t.lanes == s.lanes && t.ctxLlm == s.ctxLlm && t.live == s.live
    ensures SwapOk(s, pc) == SwapOk(t, pc)
  {
  }

  lemma BeginSwap(s: State, t: State, p: Proc, x: Llm)
    requires SwapsOk(s) && RetiredOk(s) && NoneSwitching(s) && x !in s.live && p in s.procs && !Swapping(s.procs[p])
    requires t.lanes == s.lanes && t.ctxLlm == s.ctxLlm && t.live == s.live + {x}
    requires t.procs == s.procs[p := SwapLock(0, x)]
    ensures SwapsOk(t) && RetiredOk(t)
  {
    forall q | q in t.procs ensures SwapOk(t, t.procs[q]) {
      assert q != p ==> !Switching(t.procs[q]);
    }
    assert Switching(t.procs[p]);
  }

  lemma OutsideMoveKeepsSwaps(s: State, p: Proc, op: Op, pc': Pc)
    requires SwapsOk(s) && RetiredOk(s) && Enabled(s, Advance(p, op, pc')) && !Swapping(s.procs[p])
    requires op.NewLlm? ==> NoneSwitching(s)
    ensures var t := Next(s, Advance(p, op, pc')); SwapsOk(t) && RetiredOk(t)
  {
    OnlySwapsTouchLlms(s, p, op, pc');
    if op.NewLlm? {
      BeginSwap(s, Next(s, Advance(p, op, pc')), p, op.x);
    } else {
      OtherOpKeepsSwaps(s, p, op, pc');
    }
  }

  lemma OtherOpKeepsSwaps(s: State, p: Proc, op: Op, pc': Pc)
    requires SwapsOk(s) && RetiredOk(s) && p in s.procs && !Swapping(s.procs[p]) && !Swapping(pc')
    requires !op.NewLlm? && !op.SetLane? && !op.Publish? && !op.Destroy?
    ensures var t := Next(s, Advance(p, op, pc')); SwapsOk(t) && RetiredOk(t)
  {
    OtherOpKeepsLlms(s, p, op);
    FrameSwaps(s, Next(s, Advance(p, op, pc')));
  }

  lemma OtherOpKeepsLlms(s: State, p: Proc, op: Op)
    requires !op.NewLlm? && !op.SetLane? && !op.Publish? && !op.Destroy?
    ensures var u := Apply(s, p, op);
            u.lanes == s.lanes && u.ctxLlm == s.ctxLlm && u.live == s.live && u.procs == s.procs
  {
  }

  lemma OutsideMoveKeepsLlmOk(s: State, p: Proc, op: Op, pc': Pc)
    requires LlmOk(s) && Enabled(s, Advance(p, op, pc')) && !Swapping(s.procs[p])
    requires op.NewLlm? ==> NoneSwitching(s)
    ensures LlmOk(Next(s, Advance(p, op, pc')))
  {
    StepKeepsLanesOk(s, Advance(p, op, pc'));
    OutsideMoveKeepsSwaps(s, p, op, pc');
    OnlySwapsTouchLlms(s, p, op, pc');
    OutsideMoveKeepsUsers(s, Next(s, Advance(p, op, pc')), p, pc');
  }

  lemma OutsideMoveKeepsUsers(s: State, t: State, p: Proc, pc': Pc)
    requires UsersOk(s) && t.lanes == s.lanes && t.procs == s.procs[p := pc']
    requires UsedBy(pc').Some? ==> UsedBy(pc').value.0 < |s.lanes| && s.lanes[UsedBy(pc').value.0] == UsedBy(pc').value.1
    ensures UsersOk(t)
  {
  }

  lemma UserHoldsItsLane(pc: Pc)
    requires UsedBy(pc).Some?
    ensures Holds(pc, Lane(UsedBy(pc).value.0)) && !Swapping(pc)
  {
  }

  lemma SetterHoldsItsLane(s: State, p: Proc, op: Op, pc': Pc)
    requires p in s.procs && Move(s, p, op, pc') && Swapping(s.procs[p])
    ensures op.SetLane? ==> Holds(s.procs[p], Lane(op.i))
    ensures UsedBy(pc').None?
  {
  }

  /** Setting lane `i` disturbs no run: a run on that lane would hold its lock. */
  lemma SwapMoveKeepsUsers(s: State, p: Proc, op: Op, pc': Pc)
    requires UsersOk(s) && LocksOk(s) && Enabled(s, Advance(p, op, pc')) && Swapping(s.procs[p])
    ensures UsersOk(Next(s, Advance(p, op, pc')))
  {
    var t := Next(s, Advance(p, op, pc'));
    SetterHoldsItsLane(s, p, op, pc');
    forall q | q in t.procs && UsedBy(t.procs[q]).Some?
      ensures var u := UsedBy(t.procs[q]).value; u.0 < |t.lanes| && t.lanes[u.0] == u.1
    {
      UserHoldsItsLane(t.procs[q]);
      var u := UsedBy(t.procs[q]).value;
      assert q != p && t.procs[q] == s.procs[q];
      assert s.locks[Lane(u.0)] == q;
    }
  }

  lemma MovesOne(s: State, p: Proc, op: Op, pc': Pc)
    ensures Next(s, Advance(p, op, pc')).procs == s.procs[p := pc']
  {
  }

  /** A move on the way to publishing takes the lanes to where the next program point
      expects them. */
  lemma SwitchMove(s: State, p: Proc, op: Op, pc': Pc)
    requires LanesOk(s) && Enabled(s, Advance(p, op, pc')) && Switching(s.procs[p]) && SwapOk(s, s.procs[p])
    requires !s.procs[p].SwapPublish?
    ensures var t := Next(s, Advance(p, op, pc'));
            && Switching(pc') && pc'.llm == s.procs[p].llm && SwapOk(t, pc')
            && t.ctxLlm == s.ctxLlm && t.live == s.live
  {
  }

  lemma AfterSwitchMove(s: State, t: State, p: Proc, pc': Pc)
    requires SwapsOk(s) && RetiredOk(s) && p in s.procs && Switching(s.procs[p])
    requires t.procs == s.procs[p := pc'] && t.ctxLlm == s.ctxLlm && t.live == s.live
    requires Switching(pc') && pc'.llm == s.procs[p].llm && SwapOk(t, pc')
    ensures SwapsOk(t) && RetiredOk(t)
  {
    OneSwitcher(s, p);
    assert Switching(t.procs[p]);
  }

  lemma OneSwitcher(s: State, p: Proc)
    requires SwapsOk(s) && p in s.procs && Switching(s.procs[p])
    ensures forall q :: q in s.procs && q != p ==> !Switching(s.procs[q])
  {
  }

  lemma PublishMove(s: State, p: Proc, op: Op, pc': Pc)
    requires Enabled(s, Advance(p, op, pc')) && s.procs[p].SwapPublish?
    ensures var t := Next(s, Advance(p, op, pc')); var pc := s.procs[p];
            && pc' == SwapDestroy(pc.retired) && t.ctxLlm == pc.llm && t.live == s.live && t.lanes == s.lanes
  {
  }

  /** Publishing makes the old LLM one to be destroyed, and the new one current. */
  lemma AfterPublish(s: State, t: State, p: Proc)
    requires LanesOk(s) && SwapsOk(s) && RetiredOk(s) && p in s.procs && s.procs[p].SwapPublish?
    requires t.procs == s.procs[p := SwapDestroy(s.procs[p].retired)] && t.ctxLlm == s.procs[p].llm
    requires t.live == s.live && t.lanes == s.lanes
    ensures SwapsOk(t) && RetiredOk(t)
  {
    OneSwitcher(s, p);
    assert SwapOk(s, s.procs[p]);
    forall q | q in t.procs ensures !Switching(t.procs[q]) {
    }
  }

  lemma DestroyMove(s: State, p: Proc, op: Op, pc': Pc)
    requires Enabled(s, Advance(p, op, pc')) && s.procs[p].SwapDestroy?
    ensures var t := Next(s, Advance(p, op, pc'));
            && pc' == Done && t.ctxLlm == s.ctxLlm && t.live == s.live - {s.procs[p].retired} && t.lanes == s.lanes
  {
  }

  lemma AfterDestroy(s: State, t: State, p: Proc)
    requires SwapsOk(s) && RetiredOk(s) && p in s.procs && s.procs[p].SwapDestroy?
    requires t.procs == s.procs[p := Done] && t.ctxLlm == s.ctxLlm
    requires t.live == s.live - {s.procs[p].retired} && t.lanes == s.lanes
    ensures SwapsOk(t) && RetiredOk(t)
  {
    hide LanesOk;
    forall q | q in t.procs ensures SwapOk(t, t.procs[q]) {
      if Switching(t.procs[q]) {
        assert SwapOk(s, s.procs[q]);
      }
    }
    if NoneSwitching(t) {
      forall q | q in s.procs ensures !Switching(s.procs[q]) {
        assert q != p ==> t.procs[q] == s.procs[q];
      }
    }
  }

  lemma SwapMoveKeepsSwaps(s: State, p: Proc, op: Op, pc': Pc)
    requires SwapsOk(s) && RetiredOk(s) && LanesOk(s) && Enabled(s, Advance(p, op, pc')) && Swapping(s.procs[p])
    ensures var t := Next(s, Advance(p, op, pc')); SwapsOk(t) && RetiredOk(t)
  {
    var t := Next(s, Advance(p, op, pc'));
    assert t.procs == s.procs[p := pc'] by { MovesOne(s, p, op, pc'); }
    if s.procs[p].SwapDestroy? {
      DestroyMove(s, p, op, pc');
      AfterDestroy(s, t, p);
    } else if s.procs[p].SwapPublish? {
      PublishMove(s, p, op, pc');
      AfterPublish(s, t, p);
    } else {
      SwitchMove(s, p, op, pc');
      AfterSwitchMove(s, t, p, pc');
    }
  }

  lemma StepKeepsLlmOk(s: State, a: Act)
    requires LlmOk(s) && LocksOk(s) && Enabled(s, a)
    requires a.Advance? && a.op.NewLlm? ==> NoneSwitching(s)
    ensures LlmOk(Next(s, a))
  {
    match a
    case Advance(p, op, pc') =>
      if Swapping(s.procs[p]) {
        StepKeepsLanesOk(s, a);
        SwapMoveKeepsUsers(s, p, op, pc');
        SwapMoveKeepsSwaps(s, p, op, pc');
      } else {
        OutsideMoveKeepsLlmOk(s, p, op, pc');
      }
    case Arrive(p, pc) => ArriveKeepsLlmOk(s, p, pc);
    case Abort(p) => FrameSwaps(s, Next(s, a));
  }

  lemma EntryUsesNothing(pc: Pc)
    requires Entry(pc)
    ensures !Swapping(pc) && UsedBy(pc).None?
  {
  }

  lemma ArriveKeepsLlmOk(s: State, p: Proc, pc: Pc)
    requires LlmOk(s) && p !in s.procs && Entry(pc)
    ensures LlmOk(Next(s, Arrive(p, pc)))
  {
    hide Apply, Swapping, UsedBy, SwapsOk, RetiredOk, UsersOk;
    var t := Next(s, Arrive(p, pc));
    EntryUsesNothing(pc);
    FrameSwaps(s, t);
    OutsideMoveKeepsUsers(s, t, p, pc);
  }

  lemma {:induction false} ApartCreationsKeepLlmOk(s0: State, acts: seq<Act>)
    requires Initial(s0) && Behaviour(s0, acts) && CreatesApart(s0, acts)
    ensures LlmOk(Final(s0, acts))
  {
    if acts != [] {
      var before := acts[..|acts| - 1];
      ApartCreationsKeepLlmOk(s0, before);
      EveryBehaviourIsSafe(s0, before);
      StepKeepsLlmOk(Final(s0, before), acts[|acts| - 1]);
    }
  }

  /** While a run is in flight, the LLM it started with is live and is still the
      one its lane refers to. */
  lemma EveryRunUsesOneLiveLlm(s0: State, acts: seq<Act>, p: Proc)
    requires Initial(s0) && Behaviour(s0, acts) && CreatesApart(s0, acts)
    requires p in Final(s0, acts).procs && UsedBy(Final(s0, acts).procs[p]).Some?
    ensures var s := Final(s0, acts); var u := UsedBy(s.procs[p]).value;
            |s.lanes| == 4 && u.0 < |s.lanes| && s.lanes[u.0] == u.1 && u.1 in s.live
  {
    ApartCreationsKeepLlmOk(s0, acts);
    LanesReferToLive(Final(s0, acts));
  }

  lemma LanesReferToLive(s: State)
    requires LlmOk(s)
    ensures forall j :: 0 <= j < |s.lanes| ==> s.lanes[j] in s.live
    ensures forall j, p :: 0 <= j < |s.lanes| && p in s.procs && s.procs[p].SwapDestroy? ==> s.lanes[j] != s.procs[p].retired
  {
    if !NoneSwitching(s) {
      var q :| q in s.procs && Switching(s.procs[q]);
      assert SwapOk(s, s.procs[q]);
    }
  }

  /** Nobody is left with the LLM that a swap destroys, and it is destroyed once. */
  lemma DestroyedLlmIsUnused(s0: State, acts: seq<Act>, p: Proc, x: Llm, pc': Pc)
    requires Initial(s0) && Behaviour(s0, acts) && CreatesApart(s0, acts)
    requires Enabled(Final(s0, acts), Advance(p, Destroy(x), pc'))
    ensures var s := Final(s0, acts);
            && x in s.live && x != s.ctxLlm
            && (forall j :: 0 <= j < |s.lanes| ==> s.lanes[j] != x)
            && (forall q :: q in s.procs && UsedBy(s.procs[q]).Some? ==> UsedBy(s.procs[q]).value.1 != x)
            && (forall q :: q in s.procs && q != p && s.procs[q].SwapDestroy? ==> s.procs[q].retired != x)
  {
    ApartCreationsKeepLlmOk(s0, acts);
    var s := Final(s0, acts);
    LanesReferToLive(s);
    DestroysItsOwn(s, p, x, pc');
  }

  lemma DestroysItsOwn(s: State, p: Proc, x: Llm, pc': Pc)
    requires Enabled(s, Advance(p, Destroy(x), pc'))
    ensures s.procs[p] == SwapDestroy(x)
  {
    if !Swapping(s.procs[p]) {
      OnlySwapsTouchLlms(s, p, Destroy(x), pc');
    }
  }
}
