/** Inputs at which the capacity plugin's preemption does what its names do not say. */
module PreemptionExamples {
  import opened FrameworkResource
  import opened Options
  import opened Sums
  import opened Pods
  import opened ElasticQuota
  import opened DisruptionBudgets
  import opened Greedy
  import opened Reprieve
  import opened CapacityPreemption

  function Mem(n: int): Resource {
    Resource(0, n, 0, 0, map[])
  }

  function PodOf(uid: string, priority: int, request: Resource): Pod {
    Pod(uid, "team", uid, map["app" := "db"], priority, 0, "", false, None, [request], [], None)
  }

  lemma RequestOf(uid: string, priority: int, request: Resource)
    ensures PodRequest(PodOf(uid, priority, request)) == request
  {
    assert [request][..0] == [];
    assert SumOf([request]) == Plus(ZERO, request);
    assert Plus(ZERO, request).scalars == request.scalars;
  }

  /** One quota, with some guarantee, maximum and usage. */
  ghost function OneQuota(min: Resource, pods: set<string>, max: int, used: Resource): Ledger {
    map["team" := Quota(pods, min, Mem(max), used)]
  }

  lemma TotalOfOne(min: Resource, pods: set<string>, max: int, used: Resource, request: Resource)
    ensures forall d :: TotalOverMin(OneQuota(min, pods, max, used), request, d)
                        <==> Amount(used, d) + Amount(request, d) > Amount(min, d)
  {
    var l := OneQuota(min, pods, max, used);
    forall d ensures TotalOverMin(l, request, d) <==> Amount(used, d) + Amount(request, d) > Amount(min, d) {
      assert l.Keys == {"team"};
      SumSetPick({"team"}, "team", UsedIn(l, d));
      SumSetPick({"team"}, "team", MinIn(l, d));
      assert {"team"} - {"team"} == {};
    }
  }

  /** Charging a pod that is not recorded, and releasing it again. */
  lemma ChargeAndRelease(min: Resource, pods: set<string>, max: int, used: Resource, p: Pod)
    requires p.namespace == "team" && p.uid != "" && p.uid !in pods
    ensures
      var l, more := OneQuota(min, pods, max, used), Plus(used, PodRequest(p));
      && WithoutPod(l, p) == l
      && WithPod(l, p) == OneQuota(min, pods + {p.uid}, max, more)
      && WithoutPod(WithPod(l, p), p) == OneQuota(min, pods, max, Minus(more, PodRequest(p)))
  {
    var more := Plus(used, PodRequest(p));
    assert pods + {p.uid} - {p.uid} == pods;
    assert WithPod(OneQuota(min, pods, max, used), p) == OneQuota(min, pods + {p.uid}, max, more);
    assert WithoutPod(OneQuota(min, pods + {p.uid}, max, more), p) == OneQuota(min, pods, max, Minus(more, PodRequest(p)));
  }

  /** A node with one pod of the preemptor's quota that may be taken. */
  ghost predicate Candidate(l: Ledger, s: PreFilterState, p: Pod) {
    && PREEMPTOR.namespace in l && p.namespace == PREEMPTOR.namespace && p.uid != "" && p.priority < PREEMPTOR.priority
    && MoreThanMin(l, PREEMPTOR, s)
  }

  lemma OneCandidate(l: Ledger, s: PreFilterState, p: Pod)
    requires Candidate(l, s, p)
    ensures PotentialVictims(l, PREEMPTOR, s, [p]) == [p]
    ensures Emptied(l, {p}, [p]) == Start({}, WithoutPod(l, p))
  {
    assert [p][..0] == [];
    assert RemoveAll(l, []) == l && Eligible(l, PREEMPTOR, true, p);
    assert Selected(l, PREEMPTOR, true, [p]) == [] + [p];
    assert RemoveAll(l, [p]) == WithoutPod(RemoveAll(l, []), p);
    assert {p} - SetOf([p]) == {};
  }

  /** The one pod fits beside the preemptor, but exceeds a limit: it becomes the victim, and is not counted. */
  lemma TakenByQuota(l: Ledger, s: PreFilterState, p: Pod, fit: Fit)
    requires Candidate(l, s, p) && fit({}) && fit({p})
    requires WithinQuota(JudgeOf(l, PREEMPTOR, s), WithoutPod(l, p))
    requires OverQuota(JudgeOf(l, PREEMPTOR, s), WithPod(WithoutPod(l, p), p))
    ensures
      var j, emptied := JudgeOf(l, PREEMPTOR, s), Emptied(l, {p}, [p]);
      var end := AllRounds(RulesOf(j, fit), emptied, [p]);
      && Verdict(j, fit, [p], emptied, [p]) == Success
      && end.victims == [p] && end.misfits == 0 && end.quotas == WithoutPod(WithPod(WithoutPod(l, p), p), p)
  {
    OneCandidate(l, s, p);
    assert {} + {p} == {p} && [] + [p] == [p];
    OneRound(JudgeOf(l, PREEMPTOR, s), fit, Emptied(l, {p}, [p]), p);
  }

  /** The one pod fails the fit, and the limits are exceeded without it. */
  lemma TakenTwice(l: Ledger, s: PreFilterState, p: Pod, fit: Fit)
    requires Candidate(l, s, p) && fit({}) && !fit({p})
    requires WithinQuota(JudgeOf(l, PREEMPTOR, s), WithoutPod(l, p)) && OverQuota(JudgeOf(l, PREEMPTOR, s), WithoutPod(l, p))
    requires OverQuota(JudgeOf(l, PREEMPTOR, s), WithoutPod(WithPod(WithoutPod(l, p), p), p))
    ensures
      var j, emptied := JudgeOf(l, PREEMPTOR, s), Emptied(l, {p}, [p]);
      && EarlyVerdict(j, fit, [p], emptied) == Success && Trapped(j, fit, emptied.node, emptied.quotas, [p])
      && Verdict(j, fit, [p], emptied, [p]) == Failed
  {
    OneCandidate(l, s, p);
    assert {} + {p} == {p} && p in [p];
    OneRound(JudgeOf(l, PREEMPTOR, s), fit, Emptied(l, {p}, [p]), p);
  }

  lemma OneRound(j: Judge, fit: Fit, start: Round, p: Pod)
    ensures AllRounds(RulesOf(j, fit), start, [p]) == Next(RulesOf(j, fit), start, p)
    ensures SomeFails(j, fit, start, [p], 1)
            <==> !fit(start.node + {p}) && OverQuota(j, WithoutPod(WithPod(start.quotas, p), p))
  {
    assert Rounds(RulesOf(j, fit), start, [p], 0) == start;
    assert FailsAt(j, fit, start, [p], 0)
           <==> !fit(start.node + {p}) && OverQuota(j, WithoutPod(WithPod(start.quotas, p), p));
  }

  /** The preemptor asks for 4, and nominated pods of its quota for the rest of what is counted. */
  const PREEMPTOR := PodOf("preemptor", 10, Mem(4))

  function StateOf(nominated: int): PreFilterState {
    PreFilterState(Mem(4), Mem(nominated), Mem(nominated))
  }

  ghost function JudgeWith(nominated: int): Judge {
    Judge(PREEMPTOR, true, StateOf(nominated))
  }

  /** With memory alone in play, both tests compare memory. */
  lemma Judged(nominated: int, pods: set<string>, max: int, used: int)
    ensures
      var j, l := JudgeWith(nominated), OneQuota(Mem(12), pods, max, Mem(used));
      && (OverQuota(j, l) <==> nominated + used > max || nominated + used > 12)
      && (WithinQuota(j, l) <==> 4 + used <= max && 4 + used <= 12)
  {
    var l := OneQuota(Mem(12), pods, max, Mem(used));
    TotalOfOne(Mem(12), pods, max, Mem(used), Mem(nominated));
    TotalOfOne(Mem(12), pods, max, Mem(used), Mem(4));
    assert LookedAt(l, Mem(nominated), Memory) && LookedAt(l, Mem(4), Memory);
  }

  /** One pod of the same quota is running, using 5. */
  const VICTIM := PodOf("victim", 0, Mem(5))

  lemma MemoryAlone(a: int, b: int)
    ensures Plus(Mem(a), Mem(b)) == Mem(a + b) && Minus(Mem(a), Mem(b)) == Mem(a - b)
  {
    assert Plus(Mem(a), Mem(b)).scalars == map[];
    assert Minus(Mem(a), Mem(b)).scalars == map[];
  }

  /** Taking a pod off and charging it again. */
  lemma Charging(p: Pod, n: int, max: int)
    requires p.namespace == "team" && p.uid != "" && PodRequest(p) == Mem(n)
    ensures
      var l, emptied := OneQuota(Mem(12), {p.uid}, max, Mem(n)), OneQuota(Mem(12), {}, max, Mem(0));
      WithoutPod(l, p) == emptied && WithPod(emptied, p) == l
  {
    ChargeAndRelease(Mem(12), {}, max, Mem(0), p);
    MemoryAlone(0, n);
    MemoryAlone(n, n);
    assert {} + {p.uid} == {p.uid};
  }

  /** With a maximum of 10 the quota is full with the pod, with one of 6 the nominated pods are too many without it. */
  lemma LimitsAt(max: int)
    ensures
      var l, j := OneQuota(Mem(12), {"victim"}, max, Mem(5)), JudgeOf(OneQuota(Mem(12), {"victim"}, max, Mem(5)), PREEMPTOR, StateOf(8));
      && (WithinQuota(j, WithoutPod(l, VICTIM)) <==> 4 <= max)
      && (OverQuota(j, WithoutPod(l, VICTIM)) <==> max < 8)
      && OverQuota(j, WithPod(WithoutPod(l, VICTIM), VICTIM))
      && WithoutPod(WithPod(WithoutPod(l, VICTIM), VICTIM), VICTIM) == WithoutPod(l, VICTIM)
  {
    RequestOf("victim", 0, Mem(5));
    Charging(VICTIM, 5, max);
    Judged(8, {}, max, 0);
    Judged(8, {"victim"}, max, 5);
  }

  lemma VictimIsCandidate(max: int)
    ensures Candidate(OneQuota(Mem(12), {"victim"}, max, Mem(5)), StateOf(8), VICTIM)
  {
  }

  /** No disruption of the pod is allowed. */
  const BUDGET := Budget("team", Requirement((labels: Labels) => true), {}, 0)

  lemma OneViolates(b: Budget, p: Pod)
    requires Charges(b, p) && b.disruptionsAllowed <= 0
    ensures Group([b], [p], true) == [p] && Group([b], [p], false) == []
  {
    assert [p][..0] == [] && [p][..1] == [p];
    assert Charges([b][0], p) && Charged(b, [p]) == 1;
    assert Violates([b], [p], 0);
  }

  lemma NoneViolates(p: Pod)
    ensures Group([], [p], true) == [] && Group([], [p], false) == [p]
  {
    assert [p][..0] == [];
    assert !Violates([], [p], 0);
  }

  lemma VictimIsCharged()
    ensures Charges(BUDGET, VICTIM)
  {
    assert "app" in VICTIM.labels;
  }

  ghost function FitsAlways(): Fit {
    (node: set<Pod>) => true
  }

  /** The preemptor fits the node unless this pod is there. */
  ghost function FitsWithout(p: Pod): Fit {
    (node: set<Pod>) => p !in node
  }

  lemma WithoutIsMonotone(p: Pod)
    ensures Monotone(FitsWithout(p)) && FitsWithout(p)({}) && !FitsWithout(p)({p})
  {
  }

  /** The attempt succeeds with the pod as its victim, which breaks a budget, and reports no violating victim. */
  ghost predicate TakenUncounted(l: Ledger, s: PreFilterState, p: Pod, budgets: seq<Budget>, fit: Fit) {
    var j, potential := JudgeOf(l, PREEMPTOR, s), PotentialVictims(l, PREEMPTOR, s, [p]);
    var emptied := Emptied(l, {p}, potential);
    && Verdict(j, fit, potential, emptied, OrderOf(budgets, [p])) == Success
    && IsReprieve(j, fit, potential, budgets, [p], emptied, [p], 0)
    && SumSeq([p], MembersOf(Group(budgets, [p], true))) == 1
  }

  lemma UncountedVictim(l: Ledger, s: PreFilterState, p: Pod, budgets: seq<Budget>, fit: Fit)
    requires Candidate(l, s, p) && fit({}) && fit({p})
    requires WithinQuota(JudgeOf(l, PREEMPTOR, s), WithoutPod(l, p))
    requires OverQuota(JudgeOf(l, PREEMPTOR, s), WithPod(WithoutPod(l, p), p))
    requires Group(budgets, [p], true) == [p] && Group(budgets, [p], false) == []
    ensures TakenUncounted(l, s, p, budgets, fit)
  {
    OneCandidate(l, s, p);
    TakenByQuota(l, s, p, fit);
    assert OrderOf(budgets, [p]) == [p];
    CountMembers([p], [p], true);
  }

  /**
   A budget-breaking victim that is not counted: it fits beside the preemptor, but with it and the nominated pods
   the quota exceeds its maximum of 10.
   */
  lemma VictimNotCounted()
    ensures TakenUncounted(OneQuota(Mem(12), {"victim"}, 10, Mem(5)), StateOf(8), VICTIM, [BUDGET], FitsAlways())
  {
    VictimIsCandidate(10);
    LimitsAt(10);
    VictimIsCharged();
    OneViolates(BUDGET, VICTIM);
    UncountedVictim(OneQuota(Mem(12), {"victim"}, 10, Mem(5)), StateOf(8), VICTIM, [BUDGET], FitsAlways());
  }

  /** The early checks pass, yet the attempt fails: its potential victim is trapped. */
  ghost predicate FailsTrapped(l: Ledger, s: PreFilterState, p: Pod, budgets: seq<Budget>, fit: Fit) {
    var j, potential := JudgeOf(l, PREEMPTOR, s), PotentialVictims(l, PREEMPTOR, s, [p]);
    var emptied := Emptied(l, {p}, potential);
    && EarlyVerdict(j, fit, potential, emptied) == Success
    && Trapped(j, fit, emptied.node, emptied.quotas, potential)
    && Verdict(j, fit, potential, emptied, OrderOf(budgets, [p])) == Failed
  }

  lemma TrappedVictim(l: Ledger, s: PreFilterState, p: Pod, budgets: seq<Budget>, fit: Fit)
    requires Candidate(l, s, p) && fit({}) && !fit({p})
    requires WithinQuota(JudgeOf(l, PREEMPTOR, s), WithoutPod(l, p)) && OverQuota(JudgeOf(l, PREEMPTOR, s), WithoutPod(l, p))
    requires WithoutPod(WithPod(WithoutPod(l, p), p), p) == WithoutPod(l, p)
    requires Group(budgets, [p], true) == [] && Group(budgets, [p], false) == [p]
    ensures FailsTrapped(l, s, p, budgets, fit)
  {
    OneCandidate(l, s, p);
    TakenTwice(l, s, p, fit);
    assert OrderOf(budgets, [p]) == [p];
  }

  /**
   The attempt that fails: with all potential victims gone the preemptor is within the maximum of 6, but the
   nominated pods are not, and the one potential victim fails the fit.
   */
  lemma RemovedTwice()
    ensures Monotone(FitsWithout(VICTIM))
    ensures FailsTrapped(OneQuota(Mem(12), {"victim"}, 6, Mem(5)), StateOf(8), VICTIM, [], FitsWithout(VICTIM))
  {
    VictimIsCandidate(6);
    LimitsAt(6);
    NoneViolates(VICTIM);
    WithoutIsMonotone(VICTIM);
    TrappedVictim(OneQuota(Mem(12), {"victim"}, 6, Mem(5)), StateOf(8), VICTIM, [], FitsWithout(VICTIM));
  }

  /** The attempt succeeds and evicts the pod, and what is nominated exceeds the quota as before: the preemptor stays refused. */
  ghost predicate EvictsInVain(l: Ledger, s: PreFilterState, p: Pod, fit: Fit) {
    var j, potential := JudgeOf(l, PREEMPTOR, s), PotentialVictims(l, PREEMPTOR, s, [p]);
    var emptied := Emptied(l, {p}, potential);
    var end := AllRounds(RulesOf(j, fit), emptied, [p]);
    && Verdict(j, fit, potential, emptied, [p]) == Success && end.victims == [p]
    && OverQuota(j, l) && OverQuota(j, end.quotas)
  }

  lemma EvictedPod(l: Ledger, s: PreFilterState, p: Pod, fit: Fit)
    requires Candidate(l, s, p) && fit({}) && fit({p})
    requires WithinQuota(JudgeOf(l, PREEMPTOR, s), WithoutPod(l, p)) && OverQuota(JudgeOf(l, PREEMPTOR, s), WithoutPod(l, p))
    requires WithPod(WithoutPod(l, p), p) == l && OverQuota(JudgeOf(l, PREEMPTOR, s), l)
    ensures EvictsInVain(l, s, p, fit)
  {
    OneCandidate(l, s, p);
    TakenByQuota(l, s, p, fit);
  }

  /** With a maximum of 6 the nominated pods are too many even with the quota's only pod gone. */
  lemma EvictedInVain()
    ensures EvictsInVain(OneQuota(Mem(12), {"victim"}, 6, Mem(5)), StateOf(8), VICTIM, FitsAlways())
  {
    VictimIsCandidate(6);
    LimitsAt(6);
    RequestOf("victim", 0, Mem(5));
    Charging(VICTIM, 5, 6);
    EvictedPod(OneQuota(Mem(12), {"victim"}, 6, Mem(5)), StateOf(8), VICTIM, FitsAlways());
  }

  // ---- a negative minimum ----

  const GPU := "example.com/gpu"
  const NEGATIVE_MIN := Resource(0, 12, 0, 0, map[GPU := -1])

  /** A pod that is not recorded in its quota, asking for a scalar nobody else names. */
  const STRANGER := PodOf("stranger", 0, Resource(0, 5, 0, 0, map[GPU := 1]))

  /** Nobody names the scalar, so its minimum is not looked at; once somebody does, it is exceeded by nothing used at all. */
  lemma NegativeJudged()
    ensures WithinQuota(JudgeWith(13), OneQuota(NEGATIVE_MIN, {}, 100, Mem(0)))
    ensures !WithinQuota(JudgeWith(13), OneQuota(NEGATIVE_MIN, {}, 100, Resource(0, 0, 0, 0, map[GPU := 0])))
  {
    var named := Resource(0, 0, 0, 0, map[GPU := 0]);
    var l, l' := OneQuota(NEGATIVE_MIN, {}, 100, Mem(0)), OneQuota(NEGATIVE_MIN, {}, 100, named);
    TotalOfOne(NEGATIVE_MIN, {}, 100, Mem(0), Mem(4));
    TotalOfOne(NEGATIVE_MIN, {}, 100, named, Mem(4));
    assert GPU in l'["team"].used.scalars;
    assert LookedAt(l', Mem(4), Scalar(GPU)) && TotalOverMin(l', Mem(4), Scalar(GPU));
  }

  lemma StrangerIsOver(used: Resource)
    requires used.memory == 5
    ensures OverQuota(JudgeWith(13), OneQuota(NEGATIVE_MIN, {"stranger"}, 100, used))
  {
    var l := OneQuota(NEGATIVE_MIN, {"stranger"}, 100, used);
    TotalOfOne(NEGATIVE_MIN, {"stranger"}, 100, used, Mem(13));
    assert LookedAt(l, Mem(13), Memory) && TotalOverMin(l, Mem(13), Memory);
  }

  lemma StrangerIsCandidate()
    ensures Candidate(OneQuota(NEGATIVE_MIN, {}, 100, Mem(0)), StateOf(13), STRANGER)
  {
  }

  lemma OneScalar(name: string, m: int, n: int)
    ensures
      var request := Resource(0, m, 0, 0, map[name := n]);
      Plus(Mem(0), request) == request && Minus(request, request) == Resource(0, 0, 0, 0, map[name := 0])
  {
    var request := Resource(0, m, 0, 0, map[name := n]);
    assert Plus(Mem(0), request).scalars == map[name := n];
    assert Minus(request, request).scalars == map[name := 0];
  }

  lemma ChargingStranger()
    ensures
      var l := OneQuota(NEGATIVE_MIN, {}, 100, Mem(0));
      && WithoutPod(l, STRANGER) == l
      && WithPod(l, STRANGER) == OneQuota(NEGATIVE_MIN, {"stranger"}, 100, Resource(0, 5, 0, 0, map[GPU := 1]))
      && WithoutPod(WithPod(l, STRANGER), STRANGER) == OneQuota(NEGATIVE_MIN, {}, 100, Resource(0, 0, 0, 0, map[GPU := 0]))
  {
    RequestOf("stranger", 0, Resource(0, 5, 0, 0, map[GPU := 1]));
    OneScalar(GPU, 5, 1);
    ChargeAndRelease(NEGATIVE_MIN, {}, 100, Mem(0), STRANGER);
    assert {} + {"stranger"} == {"stranger"};
  }

  /** The attempt succeeds, and trying the stranger has put the preemptor over a minimum that neither of them uses. */
  lemma NegativeMinimumMisleads()
    ensures
      var l, s := OneQuota(NEGATIVE_MIN, {}, 100, Mem(0)), StateOf(13);
      var j, potential := JudgeOf(l, PREEMPTOR, s), PotentialVictims(l, PREEMPTOR, s, [STRANGER]);
      var emptied := Emptied(l, {STRANGER}, potential);
      && Verdict(j, FitsAlways(), potential, emptied, [STRANGER]) == Success
      && WithinQuota(j, emptied.quotas) && !WithinQuota(j, AllRounds(RulesOf(j, FitsAlways()), emptied, [STRANGER]).quotas)
  {
    var l := OneQuota(NEGATIVE_MIN, {}, 100, Mem(0));
    StrangerIsCandidate();
    OneCandidate(l, StateOf(13), STRANGER);
    ChargingStranger();
    NegativeJudged();
    StrangerIsOver(Resource(0, 5, 0, 0, map[GPU := 1]));
    TakenByQuota(l, StateOf(13), STRANGER, FitsAlways());
  }
}
