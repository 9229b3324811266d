/** Quota admission and preemption victim selection of the capacity plugin. */
module CapacityPreemption {
  import opened FrameworkResource
  import opened Pods
  import opened Sums
  import opened ElasticQuota
  import opened QuotaLedger
  import opened DisruptionBudgets
  import opened Greedy
  import opened Reprieve

  // ---- PreFilter ----

  /** A nominated pod of the preemptor's own quota that is at least as important. */
  predicate CountsInQuota(l: Ledger, pod: Pod, p: Pod) {
    p.uid != pod.uid && p.namespace in l && p.namespace == pod.namespace && p.priority >= pod.priority
  }

  /** A nominated pod of another quota that still is within its minimum. */
  predicate CountsElsewhere(l: Ledger, pod: Pod, p: Pod) {
    p.uid != pod.uid && p.namespace in l && p.namespace != pod.namespace && !UsedOverMin(l[p.namespace])
  }

  ghost function InQuotaAmount(l: Ledger, pod: Pod, d: Dim): Pod -> int {
    (p: Pod) => if CountsInQuota(l, pod, p) then Amount(PodRequest(p), d) else 0
  }

  ghost function OverallAmount(l: Ledger, pod: Pod, d: Dim): Pod -> int {
    (p: Pod) => if CountsInQuota(l, pod, p) || CountsElsewhere(l, pod, p) then Amount(PodRequest(p), d) else 0
  }

  ghost function Flatten(lists: seq<seq<Pod>>): seq<Pod> {
    if lists == [] then [] else Flatten(lists[..|lists| - 1]) + lists[|lists| - 1]
  }

  /** The nominated sums are the pod's own request plus the nominated pods that count. */
  ghost predicate NominatedSums(l: Ledger, pod: Pod, nominated: seq<Pod>, s: PreFilterState) {
    && s.podReq == PodRequest(pod)
    && s.podReq.scalars.Keys <= s.nominatedInEQ.scalars.Keys
    && s.podReq.scalars.Keys <= s.nominatedAll.scalars.Keys
    && (forall d :: Amount(s.nominatedInEQ, d)
                    == Amount(s.podReq, d) + SumSeq(nominated, InQuotaAmount(l, pod, d)))
    && (forall d :: Amount(s.nominatedAll, d)
                    == Amount(s.podReq, d) + SumSeq(nominated, OverallAmount(l, pod, d)))
  }

  /**
   One nominated pod: in the preemptor's own quota it counts exactly if it is at least as important, in another quota
   exactly, and only in the overall sum, if that quota is within its minimum.
   */
  lemma OneNominated(l: Ledger, pod: Pod, p: Pod, s: PreFilterState, d: Dim)
    requires NominatedSums(l, pod, [p], s) && p.uid != pod.uid && p.namespace in l
    ensures p.namespace == pod.namespace && p.priority >= pod.priority ==>
      && Amount(s.nominatedInEQ, d) == Amount(PodRequest(pod), d) + Amount(PodRequest(p), d)
      && Amount(s.nominatedAll, d) == Amount(PodRequest(pod), d) + Amount(PodRequest(p), d)
    ensures p.namespace == pod.namespace && p.priority < pod.priority ==>
      Amount(s.nominatedInEQ, d) == Amount(s.nominatedAll, d) == Amount(PodRequest(pod), d)
    ensures p.namespace != pod.namespace ==>
      && Amount(s.nominatedInEQ, d) == Amount(PodRequest(pod), d)
      && Amount(s.nominatedAll, d)
         == Amount(PodRequest(pod), d) + if UsedOverMin(l[p.namespace]) then 0 else Amount(PodRequest(p), d)
  {
    SumSeqAppend([], p, InQuotaAmount(l, pod, d));
    SumSeqAppend([], p, OverallAmount(l, pod, d));
    assert [] + [p] == [p];
  }

  /** Adds one node's nominated pods to the running sums. */
  method AddNominated(plugin: CapacityScheduling, pod: Pod, nominated: seq<Pod>, ghost before: seq<Pod>,
                      inEQ: Resource, overall: Resource)
    returns (inEQ': Resource, overall': Resource)
    requires plugin.Valid()
    requires forall d :: Amount(inEQ, d) == SumSeq(before, InQuotaAmount(plugin.View(), pod, d))
    requires forall d :: Amount(overall, d) == SumSeq(before, OverallAmount(plugin.View(), pod, d))
    ensures forall d :: Amount(inEQ', d) == SumSeq(before + nominated, InQuotaAmount(plugin.View(), pod, d))
    ensures forall d :: Amount(overall', d) == SumSeq(before + nominated, OverallAmount(plugin.View(), pod, d))
  {
    ghost var l := plugin.View();
    inEQ', overall' := inEQ, overall;
    assert before + nominated[..0] == before;
    for i := 0 to |nominated|
      invariant forall d :: Amount(inEQ', d) == SumSeq(before + nominated[..i], InQuotaAmount(l, pod, d))
      invariant forall d :: Amount(overall', d) == SumSeq(before + nominated[..i], OverallAmount(l, pod, d))
    {
      var p := nominated[i];
      assert before + nominated[..i + 1] == (before + nominated[..i]) + [p];
      forall d
        ensures SumSeq(before + nominated[..i + 1], InQuotaAmount(l, pod, d))
                == SumSeq(before + nominated[..i], InQuotaAmount(l, pod, d)) + InQuotaAmount(l, pod, d)(p)
        ensures SumSeq(before + nominated[..i + 1], OverallAmount(l, pod, d))
                == SumSeq(before + nominated[..i], OverallAmount(l, pod, d)) + OverallAmount(l, pod, d)(p)
      {
        SumSeqAppend(before + nominated[..i], p, InQuotaAmount(l, pod, d));
        SumSeqAppend(before + nominated[..i], p, OverallAmount(l, pod, d));
      }
      if p.uid == pod.uid {
        continue;
      }
      if p.namespace in plugin.infos {
        var info := plugin.infos[p.namespace];
        var request := ComputePodResourceRequest(p);
        if p.namespace == pod.namespace && p.priority >= pod.priority {
          inEQ' := Plus(inEQ', request);
          overall' := Plus(overall', request);
        } else if p.namespace != pod.namespace && !Cmp(info.used, info.min, LOWER_BOUND_OF_MIN) {
          overall' := Plus(overall', request);
        }
      }
    }
    assert nominated[..|nominated|] == nominated;
  }

  /**
   Admission: passes a pod whose namespace has no quota; otherwise exactly when its quota stays within its
   maximum and all quotas together stay within their minima, nominated pods included.
   */
  method PreFilter(plugin: CapacityScheduling, pod: Pod, nominated: seq<seq<Pod>>)
    returns (snapshot: Infos, s: PreFilterState, success: bool)
    requires plugin.Valid()
    ensures Separate(snapshot) && ViewOf(snapshot) == plugin.View()
    ensures forall ns :: ns in snapshot ==> fresh(snapshot[ns])
    ensures s.podReq == PodRequest(pod)
    ensures pod.namespace !in plugin.View() ==> success
    ensures pod.namespace in plugin.View() ==> NominatedSums(plugin.View(), pod, Flatten(nominated), s)
    ensures pod.namespace in plugin.View() ==>
      success == (!UsedOverMaxWith(plugin.View()[pod.namespace], s.nominatedInEQ)
                  && !AggregatedUsedOverMinWith(plugin.View(), s.nominatedAll))
  {
    snapshot := plugin.SnapshotElasticQuota();
    ghost var l := plugin.View();
    var podReq := ComputePodResourceRequest(pod);
    if pod.namespace !in snapshot {
      return snapshot, PreFilterState(podReq, ZERO, ZERO), true;
    }
    assert pod.namespace in l;
    var inEQ, overall := ZERO, ZERO;
    for i := 0 to |nominated|
      invariant l == plugin.View() && ViewOf(snapshot) == l
      invariant forall d :: Amount(inEQ, d) == SumSeq(Flatten(nominated[..i]), InQuotaAmount(l, pod, d))
      invariant forall d :: Amount(overall, d) == SumSeq(Flatten(nominated[..i]), OverallAmount(l, pod, d))
    {
      inEQ, overall := AddNominated(plugin, pod, nominated[i], Flatten(nominated[..i]), inEQ, overall);
      assert nominated[..i + 1][..i] == nominated[..i];
      assert Flatten(nominated[..i + 1]) == Flatten(nominated[..i]) + nominated[i];
    }
    assert nominated[..|nominated|] == nominated;
    s := PreFilterState(podReq, Plus(inEQ, podReq), Plus(overall, podReq));
    var eq := snapshot[pod.namespace];
    assert eq.Value() == l[pod.namespace];
    if Cmp2(s.nominatedInEQ, eq.used, eq.max, UPPER_BOUND_OF_MAX) {
      return snapshot, s, false;
    }
    var over := AggregatedOverMin(snapshot, s.nominatedAll);
    return snapshot, s, !over;
  }

  lemma NominatedSumsIncludeOwn(l: Ledger, pod: Pod, nominated: seq<Pod>, s: PreFilterState)
    requires NominatedSums(l, pod, nominated, s)
    requires forall p :: p in nominated ==> NonNegative(PodRequest(p))
    ensures OwnRequestIncluded(s)
  {
    forall d
      ensures Amount(s.podReq, d) <= Amount(s.nominatedInEQ, d)
      ensures Amount(s.podReq, d) <= Amount(s.nominatedAll, d)
    {
      SumSeqNonNegative(nominated, InQuotaAmount(l, pod, d));
      SumSeqNonNegative(nominated, OverallAmount(l, pod, d));
    }
  }

  /**
   Admitting a pod and then reserving it keeps its quota's usage within the maximum in every dimension the pod's
   request is compared in, and leaves it as it was in every other.
   */
  lemma AdmittedPodStaysWithinMax(l: Ledger, pod: Pod, s: PreFilterState, d: Dim)
    requires pod.namespace in l
    requires OwnRequestIncluded(s) && s.podReq == PodRequest(pod)
    requires !UsedOverMaxWith(l[pod.namespace], s.nominatedInEQ)
    requires pod.uid != "" && pod.uid !in l[pod.namespace].pods
    ensures
      var q, used := l[pod.namespace], Apply(l, Event.Reserve(pod))[pod.namespace].used;
      if Compared(s.podReq, d) then Amount(used, d) <= Limit(q.max, d, UPPER_BOUND_OF_MAX)
      else Amount(used, d) == Amount(q.used, d)
  {
    var q := l[pod.namespace];
    Cmp2Meaning(s.nominatedInEQ, q.used, q.max, UPPER_BOUND_OF_MAX);
    if Compared(s.podReq, d) {
      assert Compared(s.nominatedInEQ, d);
      assert Amount(s.nominatedInEQ, d) + Amount(q.used, d) <= Limit(q.max, d, UPPER_BOUND_OF_MAX);
    }
  }

  // ---- potential victims ----

  ghost function RemoveAll(l: Ledger, ps: seq<Pod>): Ledger {
    if ps == [] then l else WithoutPod(RemoveAll(l, ps[..|ps| - 1]), ps[|ps| - 1])
  }

  /** The three ways a pod on the node can become a potential victim, given the usage at that moment. */
  ghost predicate Eligible(l: Ledger, pod: Pod, moreThanMin: bool, p: Pod) {
    if pod.namespace !in l then
      p.namespace !in l && p.priority < pod.priority
    else if moreThanMin then
      p.namespace in l && p.namespace == pod.namespace && p.priority < pod.priority
    else
      p.namespace in l && p.namespace != pod.namespace && UsedOverMin(l[p.namespace])
  }

  /** The potential victims of a listing: each pod judged on the usage left by the ones taken before it. */
  ghost function Selected(l: Ledger, pod: Pod, moreThanMin: bool, listing: seq<Pod>): seq<Pod> {
    if listing == [] then []
    else
      var taken := Selected(l, pod, moreThanMin, listing[..|listing| - 1]);
      var p := listing[|listing| - 1];
      if Eligible(RemoveAll(l, taken), pod, moreThanMin, p) then taken + [p] else taken
  }

  lemma WithoutPodNames(l: Ledger, p: Pod, req: Requests)
    requires Balanced(l, req) && Agrees(req, p)
    ensures Below(WithoutPod(l, p), l) && NamesWithin(WithoutPod(l, p), l) && NamesWithin(l, WithoutPod(l, p))
  {
    if p.namespace in l && p.uid in l[p.namespace].pods {
      assert QuotaBalanced(l[p.namespace], req);
    }
  }

  lemma {:induction false} RemoveAllBelow(l: Ledger, ps: seq<Pod>, req: Requests)
    requires Balanced(l, req)
    requires forall p :: p in ps ==> Agrees(req, p)
    ensures Below(RemoveAll(l, ps), l) && Balanced(RemoveAll(l, ps), req)
    ensures NamesWithin(RemoveAll(l, ps), l) && NamesWithin(l, RemoveAll(l, ps))
    decreases |ps|
  {
    if ps != [] {
      RemoveAllBelow(l, ps[..|ps| - 1], req);
      WithoutPodBalanced(RemoveAll(l, ps[..|ps| - 1]), ps[|ps| - 1], req);
      WithoutPodNames(RemoveAll(l, ps[..|ps| - 1]), ps[|ps| - 1], req);
    }
  }

  lemma {:induction false} SelectedCounts(l: Ledger, pod: Pod, moreThanMin: bool, listing: seq<Pod>)
    ensures multiset(Selected(l, pod, moreThanMin, listing)) <= multiset(listing)
    decreases |listing|
  {
    if listing != [] {
      SelectedCounts(l, pod, moreThanMin, listing[..|listing| - 1]);
      assert listing == listing[..|listing| - 1] + [listing[|listing| - 1]];
    }
  }

  lemma SelectedFromListing(l: Ledger, pod: Pod, moreThanMin: bool, listing: seq<Pod>)
    ensures multiset(Selected(l, pod, moreThanMin, listing)) <= multiset(listing)
    ensures forall p :: p in Selected(l, pod, moreThanMin, listing) ==> p in listing
  {
    SelectedCounts(l, pod, moreThanMin, listing);
    VictimsFromOrder(Selected(l, pod, moreThanMin, listing), listing);
  }

  /** Each potential victim was eligible on the usage left immediately before its own removal. */
  lemma {:induction false} SelectedWereEligible(l: Ledger, pod: Pod, moreThanMin: bool, listing: seq<Pod>, i: nat)
    requires i < |Selected(l, pod, moreThanMin, listing)|
    ensures
      var taken := Selected(l, pod, moreThanMin, listing);
      Eligible(RemoveAll(l, taken[..i]), pod, moreThanMin, taken[i])
    decreases |listing|
  {
    var rest := Selected(l, pod, moreThanMin, listing[..|listing| - 1]);
    var taken := Selected(l, pod, moreThanMin, listing);
    if i < |rest| {
      SelectedWereEligible(l, pod, moreThanMin, listing[..|listing| - 1], i);
      assert taken[..i] == rest[..i];
    } else {
      assert taken[..i] == rest;
    }
  }

  /**
   The minimum is a guarantee: taking pods of other quotas, none is taken from a quota within its
   minimum, although usage shrinks while pods are being taken.
   */
  lemma WithinMinLosesNoPod(l: Ledger, pod: Pod, listing: seq<Pod>, req: Requests, p: Pod)
    requires Balanced(l, req)
    requires forall q :: q in listing ==> Agrees(req, q)
    requires pod.namespace in l
    requires p in Selected(l, pod, false, listing)
    ensures p.namespace != pod.namespace && p.namespace in l && UsedOverMin(l[p.namespace])
  {
    var taken := Selected(l, pod, false, listing);
    var i :| 0 <= i < |taken| && taken[i] == p;
    SelectedWereEligible(l, pod, false, listing, i);
    SelectedFromListing(l, pod, false, listing);
    RemoveAllBelow(l, taken[..i], req);
    BelowOver(RemoveAll(l, taken[..i]), l, req, p.namespace, ZERO);
  }

  /** Nobody is taken exactly if nobody is eligible to begin with. */
  lemma {:induction false} NobodySelected(l: Ledger, pod: Pod, moreThanMin: bool, listing: seq<Pod>)
    ensures Selected(l, pod, moreThanMin, listing) == [] <==> forall p :: p in listing ==> !Eligible(l, pod, moreThanMin, p)
    decreases |listing|
  {
    if listing != [] {
      var n := |listing| - 1;
      NobodySelected(l, pod, moreThanMin, listing[..n]);
      assert listing == listing[..n] + [listing[n]];
    }
  }

  /**
   What the victims have in common: without a quota the preemptor takes less important pods without a quota; over its
   quota's minimum it takes less important pods of its own quota; otherwise it takes pods of other quotas.
   */
  ghost predicate RightVictims(l: Ledger, pod: Pod, s: PreFilterState, victims: seq<Pod>) {
    forall v :: v in victims ==>
      && (v.namespace == pod.namespace || pod.namespace !in l ==> v.priority < pod.priority)
      && (v.namespace in l <==> pod.namespace in l)
      && (pod.namespace in l ==> (v.namespace == pod.namespace <==> MoreThanMin(l, pod, s)))
  }

  /** No pod could be taken: none is less important in the preemptor's own quota or, like it, without one; or no other quota with a pod here is over its minimum. */
  ghost predicate NobodyToTake(l: Ledger, pod: Pod, s: PreFilterState, pods: seq<Pod>) {
    && (pod.namespace !in l ==> forall p :: p in pods && p.namespace !in l ==> p.priority >= pod.priority)
    && (MoreThanMin(l, pod, s) ==> forall p :: p in pods && p.namespace == pod.namespace ==> p.priority >= pod.priority)
    && (pod.namespace in l && !MoreThanMin(l, pod, s) ==>
          forall p :: p in pods && p.namespace in l && UsedOverMin(l[p.namespace]) ==> p.namespace == pod.namespace)
  }

  lemma PotentialAreRight(l: Ledger, pod: Pod, s: PreFilterState, listing: seq<Pod>, victims: seq<Pod>)
    requires forall v :: v in victims ==> v in PotentialVictims(l, pod, s, listing)
    ensures RightVictims(l, pod, s, victims)
  {
    var mode, taken := MoreThanMin(l, pod, s), PotentialVictims(l, pod, s, listing);
    forall v | v in victims ensures RightVictims(l, pod, s, [v]) {
      var i :| 0 <= i < |taken| && taken[i] == v;
      SelectedWereEligible(l, pod, mode, listing, i);
      RemoveAllKeepsLimits(l, taken[..i]);
    }
    forall v | v in victims ensures v in [v] {}
  }

  lemma NoneIsNobody(l: Ledger, pod: Pod, s: PreFilterState, listing: seq<Pod>)
    ensures PotentialVictims(l, pod, s, listing) == [] <==> NobodyToTake(l, pod, s, listing)
  {
    NobodySelected(l, pod, MoreThanMin(l, pod, s), listing);
  }

  // ---- SelectVictimsOnNode ----

  lemma {:induction false} SelectedGrows(l: Ledger, pod: Pod, moreThanMin: bool, listing: seq<Pod>, k: nat)
    requires k <= |listing|
    ensures Selected(l, pod, moreThanMin, listing[..k]) <= Selected(l, pod, moreThanMin, listing)
    decreases |listing|
  {
    if k == |listing| {
      assert listing[..k] == listing;
    } else {
      var rest := listing[..|listing| - 1];
      SelectedGrows(l, pod, moreThanMin, rest, k);
      assert rest[..k] == listing[..k];
    }
  }

  lemma {:induction false} RemoveAllKeepsLimits(l: Ledger, ps: seq<Pod>)
    ensures RemoveAll(l, ps).Keys == l.Keys
    decreases |ps|
  {
    if ps != [] {
      RemoveAllKeepsLimits(l, ps[..|ps| - 1]);
    }
  }

  /** Removing a list releases each of its pods for good. */
  lemma {:induction false} RemoveAllReleases(l: Ledger, ps: seq<Pod>, p: Pod)
    requires p in ps && p.uid != ""
    ensures p.namespace in RemoveAll(l, ps) ==> p.uid !in RemoveAll(l, ps)[p.namespace].pods
    decreases |ps|
  {
    RemoveAllKeepsLimits(l, ps[..|ps| - 1]);
    if p != ps[|ps| - 1] {
      assert p in ps[..|ps| - 1];
      RemoveAllReleases(l, ps[..|ps| - 1], p);
    }
  }

  lemma NotSelectedBefore(l: Ledger, pod: Pod, moreThanMin: bool, listing: seq<Pod>, k: nat)
    requires UniqueUids(listing) && k < |listing|
    ensures listing[k] !in Selected(l, pod, moreThanMin, listing[..k])
  {
    SelectedFromListing(l, pod, moreThanMin, listing[..k]);
    forall i | 0 <= i < k ensures listing[i] != listing[k] {
      UniqueAt(listing, i, k);
    }
  }

  lemma RemoveOneMore(l: Ledger, taken: seq<Pod>, p: Pod)
    ensures RemoveAll(l, taken + [p]) == WithoutPod(RemoveAll(l, taken), p)
    ensures SetOf(taken + [p]) == SetOf(taken) + {p}
  {
    assert (taken + [p])[..|taken|] == taken;
  }

  lemma SelectedNext(l: Ledger, pod: Pod, moreThanMin: bool, listing: seq<Pod>, k: nat)
    requires k < |listing|
    ensures
      var taken := Selected(l, pod, moreThanMin, listing[..k]);
      Selected(l, pod, moreThanMin, listing[..k + 1])
      == if Eligible(RemoveAll(l, taken), pod, moreThanMin, listing[k]) then taken + [listing[k]] else taken
  {
    assert listing[..k + 1][..k] == listing[..k];
  }

  /** The branch guards of the selection loop. */
  method IsEligible(run: DryRun, pod: Pod, moreThanMin: bool, p: Pod) returns (eligible: bool)
    requires run.Valid()
    ensures eligible == Eligible(run.View(), pod, moreThanMin, p)
  {
    if pod.namespace in run.quotas {
      if p.namespace !in run.quotas {
        return false;
      }
      if moreThanMin {
        return p.namespace == pod.namespace && p.priority < pod.priority;
      }
      var info := run.quotas[p.namespace];
      return p.namespace != pod.namespace && Cmp(info.used, info.min, LOWER_BOUND_OF_MIN);
    }
    return p.namespace !in run.quotas && p.priority < pod.priority;
  }

  /** One round of the selection loop, on values. */
  lemma SelectionStep(l: Ledger, pod: Pod, moreThanMin: bool, listing: seq<Pod>, k: nat, node0: set<Pod>, taken: seq<Pod>)
    requires UniqueUids(listing) && k < |listing| && taken == Selected(l, pod, moreThanMin, listing[..k])
    ensures listing[k] !in taken
    ensures Eligible(RemoveAll(l, taken), pod, moreThanMin, listing[k]) ==>
      && Selected(l, pod, moreThanMin, listing[..k + 1]) == taken + [listing[k]]
      && RemoveAll(l, taken + [listing[k]]) == WithoutPod(RemoveAll(l, taken), listing[k])
      && node0 - SetOf(taken + [listing[k]]) == node0 - SetOf(taken) - {listing[k]}
      && listing[k] in Selected(l, pod, moreThanMin, listing)
    ensures !Eligible(RemoveAll(l, taken), pod, moreThanMin, listing[k]) ==>
      Selected(l, pod, moreThanMin, listing[..k + 1]) == taken
  {
    NotSelectedBefore(l, pod, moreThanMin, listing, k);
    SelectedNext(l, pod, moreThanMin, listing, k);
    RemoveOneMore(l, taken, listing[k]);
    SelectedGrows(l, pod, moreThanMin, listing, k + 1);
    assert listing[k] in taken + [listing[k]];
  }

  /** One round of the selection loop: takes p off the node if it is eligible now. */
  method TakeIfEligible(run: DryRun, pod: Pod, moreThanMin: bool, p: Pod) returns (taken: bool, ok: bool)
    requires run.Valid() && p in run.node
    modifies run, run.quotas.Values
    ensures taken == Eligible(old(run.View()), pod, moreThanMin, p)
    ensures ok == (taken ==> p.uid != "")
    ensures taken && ok ==> run.node == old(run.node) - {p} && run.View() == WithoutPod(old(run.View()), p)
    ensures !taken ==> run.node == old(run.node) && run.View() == old(run.View())
  {
    ok := true;
    taken := IsEligible(run, pod, moreThanMin, p);
    if taken {
      ok := run.RemovePod(p);
    }
  }

  /**
   Takes every eligible pod off the node, usage shrinking as it goes. Fails on a selected pod without a uid.
   The listing is the node's pods in whatever order the preceding sort left them.
   */
  method SelectPotentialVictims(run: DryRun, pod: Pod, moreThanMin: bool, listing: seq<Pod>)
    returns (potential: seq<Pod>, ok: bool)
    requires run.Valid()
    requires UniqueUids(listing) && SetOf(listing) == run.node
    modifies run, run.quotas.Values
    ensures ok == forall p :: p in Selected(old(run.View()), pod, moreThanMin, listing) ==> p.uid != ""
    ensures ok ==> potential == Selected(old(run.View()), pod, moreThanMin, listing)
    ensures ok ==> run.node == old(run.node) - SetOf(potential)
    ensures ok ==> run.View() == RemoveAll(old(run.View()), potential)
  {
    ghost var l, node0, node, now := run.View(), run.node, run.node, run.View();
    potential, ok := [], true;
    for k := 0 to |listing|
      invariant node == run.node && now == run.View()
      invariant potential == Selected(l, pod, moreThanMin, listing[..k])
      invariant node == node0 - SetOf(potential)
      invariant now == RemoveAll(l, potential)
      invariant forall p :: p in potential ==> p.uid != ""
    {
      var p := listing[k];
      SelectionStep(l, pod, moreThanMin, listing, k, node0, potential);
      var taken;
      taken, ok := TakeIfEligible(run, pod, moreThanMin, p);
      if !ok {
        return;
      }
      if taken {
        potential := potential + [p];
      }
      node, now := run.node, run.View();
    }
    assert listing[..|listing|] == listing;
  }

  datatype Status = Success | NoVictims | DoesNotFit | QuotaExceeded | Failed

  /** The mode of selection: does the preemptor, with nominated pods, exceed its own quota's minimum? */
  ghost predicate MoreThanMin(l: Ledger, pod: Pod, s: PreFilterState) {
    pod.namespace in l && UsedOverMinWith(l[pod.namespace], s.nominatedInEQ)
  }

  ghost function PotentialVictims(l: Ledger, pod: Pod, s: PreFilterState, listing: seq<Pod>): seq<Pod> {
    Selected(l, pod, MoreThanMin(l, pod, s), listing)
  }

  lemma PotentialWaits(l: Ledger, listing: seq<Pod>, node: set<Pod>, potential: seq<Pod>)
    requires UniqueUids(listing) && multiset(potential) <= multiset(listing)
    requires forall p :: p in potential ==> p.uid != ""
    ensures Waiting(Emptied(l, node, potential), potential)
  {
    UniqueSub(listing, potential);
    forall i | 0 <= i < |potential| ensures TakenOff(node - SetOf(potential), RemoveAll(l, potential), potential[i]) {
      RemoveAllReleases(l, potential, potential[i]);
      assert potential[i] in SetOf(potential);
    }
  }

  /** The quota check after all potential victims are gone. */
  method PreemptorWithinQuota(run: DryRun, j: Judge) returns (within: bool)
    requires run.Valid()
    requires j.withQuota == (j.pod.namespace in run.quotas)
    ensures within == WithinQuota(j, run.View())
  {
    if j.withQuota {
      var info := run.quotas[j.pod.namespace];
      if Cmp2(j.state.podReq, info.used, info.max, UPPER_BOUND_OF_MAX) {
        return false;
      }
      var over := AggregatedOverMin(run.quotas, j.state.podReq);
      return !over;
    }
    return true;
  }

  ghost function JudgeOf(l: Ledger, pod: Pod, s: PreFilterState): Judge {
    Judge(pod, pod.namespace in l, s)
  }

  /** Node and quotas when every potential victim is gone. */
  ghost function Emptied(l: Ledger, node: set<Pod>, potential: seq<Pod>): Round {
    Start(node - SetOf(potential), RemoveAll(l, potential))
  }

  /** The outcome before any pod is put back; Success lets reprieving begin. */
  ghost function EarlyVerdict(j: Judge, fit: Fit, potential: seq<Pod>, emptied: Round): Status {
    if exists p :: p in potential && p.uid == "" then Failed
    else if potential == [] then NoVictims
    else if !fit(emptied.node) then DoesNotFit
    else if !WithinQuota(j, emptied.quotas) then QuotaExceeded
    else Success
  }

  /** When each outcome comes about: reprieving fails exactly if a pod is to be removed twice. */
  ghost function Verdict(j: Judge, fit: Fit, potential: seq<Pod>, emptied: Round, order: seq<Pod>): Status {
    if EarlyVerdict(j, fit, potential, emptied) != Success then EarlyVerdict(j, fit, potential, emptied)
    else if SomeFails(j, fit, emptied, order, |order|) then Failed
    else Success
  }

  /** Takes the potential victims off the node and checks whether that is enough. */
  method EmptyNode(run: DryRun, j: Judge, fit: Fit, listing: seq<Pod>, ghost chosen: seq<Pod>, ghost emptied: Round)
    returns (potential: seq<Pod>, status: Status)
    requires run.Valid() && j == JudgeOf(run.View(), j.pod, j.state)
    requires UniqueUids(listing) && SetOf(listing) == run.node
    requires chosen == PotentialVictims(run.View(), j.pod, j.state, listing)
    requires emptied == Emptied(run.View(), run.node, chosen)
    modifies run, run.quotas.Values
    ensures status == EarlyVerdict(j, fit, chosen, emptied)
    ensures status == Success ==> potential == chosen && run.node == emptied.node && run.View() == emptied.quotas
  {
    var moreThanMin := false;
    if j.withQuota {
      var info := run.quotas[j.pod.namespace];
      moreThanMin := Cmp2(j.state.nominatedInEQ, info.used, info.min, LOWER_BOUND_OF_MIN);
    }
    var ok;
    potential, ok := SelectPotentialVictims(run, j.pod, moreThanMin, listing);
    if !ok {
      return [], Failed;
    }
    if |potential| == 0 {
      return [], NoVictims;
    }
    if !fit(run.node) {
      return [], DoesNotFit;
    }
    var within := PreemptorWithinQuota(run, j);
    if !within {
      return [], QuotaExceeded;
    }
    status := Success;
  }

  /** Takes the potential victims off, checks, and reprieves: the outcome as the verdict says. */
  method DecideVictims(run: DryRun, j: Judge, fit: Fit, listing: seq<Pod>, budgets: seq<Budget>,
                       ghost chosen: seq<Pod>, ghost emptied: Round)
    returns (victims: seq<Pod>, numViolatingVictim: nat, status: Status, ghost ranked: seq<Pod>)
    requires run.Valid() && j == JudgeOf(run.View(), j.pod, j.state)
    requires UniqueUids(listing) && SetOf(listing) == run.node
    requires chosen == PotentialVictims(run.View(), j.pod, j.state, listing) && emptied == Emptied(run.View(), run.node, chosen)
    modifies run, run.quotas.Values
    ensures status == Verdict(j, fit, chosen, emptied, OrderOf(budgets, ranked))
    ensures EarlyVerdict(j, fit, chosen, emptied) == Success ==> multiset(ranked) == multiset(chosen) && ByImportance(ranked)
    ensures status != Success ==> victims == [] && numViolatingVictim == 0
    ensures status == Success ==> IsReprieve(j, fit, chosen, budgets, ranked, emptied, victims, numViolatingVictim)
    ensures status == Success ==>
      var end := AllRounds(RulesOf(j, fit), emptied, OrderOf(budgets, ranked));
      run.node == end.node && run.View() == end.quotas
  {
    ghost var l, node := run.View(), run.node;
    var potential;
    potential, status := EmptyNode(run, j, fit, listing, chosen, emptied);
    if status != Success {
      return [], 0, status, [];
    }
    SelectedFromListing(l, j.pod, MoreThanMin(l, j.pod, j.state), listing);
    PotentialWaits(l, listing, node, potential);
    var ok;
    victims, numViolatingVictim, ok, ranked := ReprieveCandidates(run, j, fit, potential, budgets, emptied);
    if !ok {
      return [], 0, Failed, ranked;
    }
  }

  /** The ledger bears out what is judged by it: usages are the sums of their pods' requests, nominated sums include the preemptor's. */
  ghost predicate Trusted(l: Ledger, pod: Pod, s: PreFilterState, pods: seq<Pod>, req: Requests) {
    pod.namespace in l ==> Balanced(l, req) && OwnRequestIncluded(s) && forall p :: p in pods ==> Agrees(req, p)
  }

  /**
   The outcome is decided by the verdict. On Success the victims are what reprieving the potential victims in
   order leaves over: distinct, exactly they are gone from the node, and the preemptor fits what is left. The
   count is exact if and only if no budget-breaking pod was taken by the quota test alone. On a trusted ledger, for
   a monotone fit not one victim could have stayed; the preemptor is within its quota if and only if no potential
   victim brings a negative minimum into play; and then reprieving fails exactly if the quotas are exceeded from
   the start and some potential victim fails the fit.
   */
  method SelectVictimsOnNode(run: DryRun, pod: Pod, s: PreFilterState, fit: Fit, pods: seq<Pod>,
                             budgets: seq<Budget>, ghost req: Requests)
    returns (victims: seq<Pod>, numViolatingVictim: nat, status: Status, ghost listing: seq<Pod>, ghost ranked: seq<Pod>)
    requires run.Valid()
    requires UniqueUids(pods) && SetOf(pods) == run.node
    modifies run, run.quotas.Values
    ensures multiset(listing) == multiset(pods) && LeastImportantFirst(listing)
    ensures
      var j, potential := JudgeOf(old(run.View()), pod, s), PotentialVictims(old(run.View()), pod, s, listing);
      var emptied := Emptied(old(run.View()), old(run.node), potential);
      && status == Verdict(j, fit, potential, emptied, OrderOf(budgets, ranked))
      && (EarlyVerdict(j, fit, potential, emptied) == Success ==> multiset(ranked) == multiset(potential) && ByImportance(ranked))
      && (status == Success ==>
            && IsReprieve(j, fit, potential, budgets, ranked, emptied, victims, numViolatingVictim)
            && (forall v :: v in victims ==> v in potential)
            && numViolatingVictim <= SumSeq(victims, MembersOf(Group(budgets, ranked, true)))
            && (numViolatingVictim == SumSeq(victims, MembersOf(Group(budgets, ranked, true)))
                <==> !TakenByQuotaAlone(j, fit, emptied, Group(budgets, ranked, true))))
    ensures status != Success ==> victims == [] && numViolatingVictim == 0
    ensures RightVictims(old(run.View()), pod, s, victims)
    ensures status == NoVictims <==> NobodyToTake(old(run.View()), pod, s, pods)
    ensures status == Success ==> UniqueUids(victims) && run.node == old(run.node) - SetOf(victims) && fit(run.node)
    ensures Trusted(old(run.View()), pod, s, pods, req) ==>
      var j, potential := JudgeOf(old(run.View()), pod, s), PotentialVictims(old(run.View()), pod, s, listing);
      var emptied := Emptied(old(run.View()), old(run.node), potential);
      && (status == Success && Monotone(fit) ==> NoneCanReturn(j, fit, run.node, run.View(), victims))
      && (status == Success ==> (WithinQuota(j, run.View()) <==> AllHarmless(j, emptied.quotas, potential)))
      && (EarlyVerdict(j, fit, potential, emptied) == Success && AllHarmless(j, emptied.quotas, potential) ==>
            (status == Failed <==> Trapped(j, fit, emptied.node, emptied.quotas, potential)))
      && (status == Success && AllHarmless(j, emptied.quotas, potential) ==>
            && (OverQuota(j, run.View()) <==> OverQuota(j, emptied.quotas))
            && (OverQuota(j, emptied.quotas) ==> SetOf(victims) == SetOf(potential)))
  {
    ghost var l, node := run.View(), run.node;
    var j := Judge(pod, pod.namespace in run.quotas, s);
    var sorted := SortLeastImportantFirst(pods);
    listing := sorted;
    SamePods(pods, listing);
    ghost var potential := PotentialVictims(l, pod, s, listing);
    ghost var emptied := Emptied(l, node, potential);
    victims, numViolatingVictim, status, ranked := DecideVictims(run, j, fit, sorted, budgets, potential, emptied);
    NoneIsNobody(l, pod, s, listing);
    SameNobody(l, pod, s, pods, listing);
    if EarlyVerdict(j, fit, potential, emptied) == Success {
      SelectedFromListing(l, pod, MoreThanMin(l, pod, s), listing);
      PotentialWaits(l, listing, node, potential);
      if status == Success {
        ReprievePartitions(j, fit, potential, budgets, ranked, emptied, victims, numViolatingVictim);
        BackOnNode(listing, potential, victims);
        PotentialAreRight(l, pod, s, listing, victims);
      }
      if Trusted(l, pod, s, pods, req) {
        TrustedStart(j, l, pods, node, potential, req);
        ReprieveIsSound(j, fit, potential, budgets, ranked, emptied, req);
      }
    }
  }

  lemma SamePods(pods: seq<Pod>, listing: seq<Pod>)
    requires UniqueUids(pods) && multiset(listing) == multiset(pods)
    ensures UniqueUids(listing) && SetOf(listing) == SetOf(pods) && forall p :: p in listing ==> p in pods
  {
    UniqueSub(pods, listing);
    VictimsFromOrder(pods, listing);
    VictimsFromOrder(listing, pods);
  }

  lemma SameNobody(l: Ledger, pod: Pod, s: PreFilterState, pods: seq<Pod>, listing: seq<Pod>)
    requires multiset(listing) == multiset(pods)
    ensures NobodyToTake(l, pod, s, pods) <==> NobodyToTake(l, pod, s, listing)
  {
    VictimsFromOrder(pods, listing);
    VictimsFromOrder(listing, pods);
  }

  /** A trusted ledger stays one when the potential victims are taken off. */
  lemma TrustedStart(j: Judge, l: Ledger, pods: seq<Pod>, node: set<Pod>, potential: seq<Pod>, req: Requests)
    requires j == JudgeOf(l, j.pod, j.state) && Trusted(l, j.pod, j.state, pods, req)
    requires forall p :: p in potential ==> p in pods
    ensures Accounted(j, Emptied(l, node, potential).quotas, req) && AllKnown(j, req, potential)
    ensures Emptied(l, node, potential).quotas.Keys == l.Keys
  {
    RemoveAllKeepsLimits(l, potential);
    if j.withQuota {
      RemoveAllBelow(l, potential, req);
    }
  }

  /** Every listed pod of a quota is recorded in it. */
  ghost predicate AllRecorded(l: Ledger, pods: seq<Pod>) {
    forall p :: p in pods && p.namespace in l ==> p.uid in l[p.namespace].pods
  }

  /** Nothing brings a negative minimum into play if there is none, or if all pods of the node are recorded. */
  lemma UsuallyHarmless(j: Judge, l: Ledger, pods: seq<Pod>, node: set<Pod>, potential: seq<Pod>, req: Requests)
    requires Balanced(l, req) && forall p :: p in pods ==> Agrees(req, p)
    requires forall p :: p in potential ==> p in pods
    requires MinNonNegative(l) || AllRecorded(l, pods)
    ensures AllHarmless(j, Emptied(l, node, potential).quotas, potential)
  {
    var m := RemoveAll(l, potential);
    RemoveAllBelow(l, potential, req);
    forall i, k | 0 <= i < |potential| && potential[i].namespace in m && k in PodRequest(potential[i]).scalars
      ensures LookedAt(m, j.state.podReq, Scalar(k)) || MinTotal(m, Scalar(k)) >= 0
    {
      var p := potential[i];
      if MinNonNegative(l) {
        SumSetNonNegative(m.Keys, MinIn(m, Scalar(k)));
      } else {
        assert QuotaBalanced(l[p.namespace], req);
        assert k in m[p.namespace].used.scalars;
      }
    }
  }

  /** The copies an attempt works on: nothing in them is shared with the live ledger. */
  method StartDryRun(plugin: CapacityScheduling, pod: Pod, nominated: seq<seq<Pod>>, pods: seq<Pod>)
    returns (run: DryRun, s: PreFilterState)
    requires plugin.Valid()
    ensures fresh(run) && fresh(run.quotas.Values) && run.Valid()
    ensures run.node == SetOf(pods) && run.View() == plugin.View()
    ensures pod.namespace in plugin.View() ==> NominatedSums(plugin.View(), pod, Flatten(nominated), s)
  {
    var snapshot, state, admitted := PreFilter(plugin, pod, nominated);
    s := state;
    assert snapshot.Keys == plugin.View().Keys;
    var node := set p | p in pods;
    run := new DryRun(node, snapshot);
  }

  /**
   A whole attempt on one node: snapshot, admission sums, dry run. Whatever it decides, the live ledger is
   untouched; and a pod of another quota is only evicted from a quota that is over its minimum.
   */
  method PreemptOnNode(plugin: CapacityScheduling, pod: Pod, nominated: seq<seq<Pod>>, fit: Fit,
                       pods: seq<Pod>, budgets: seq<Budget>, ghost req: Requests)
    returns (victims: seq<Pod>, status: Status, ghost s: PreFilterState)
    requires plugin.Valid() && UniqueUids(pods)
    ensures plugin.infos == old(plugin.infos) && plugin.View() == old(plugin.View())
    ensures pod.namespace in plugin.View() ==> NominatedSums(plugin.View(), pod, Flatten(nominated), s)
    ensures RightVictims(plugin.View(), pod, s, victims)
    ensures status == NoVictims <==> NobodyToTake(plugin.View(), pod, s, pods)
    ensures status == Success ==> UniqueUids(victims) && fit(SetOf(pods) - SetOf(victims))
    ensures status == Success && pod.namespace in plugin.View()
            && Balanced(plugin.View(), req) && (forall p :: p in pods ==> Agrees(req, p)) ==>
              TakenOverMin(plugin.View(), pod, victims)
  {
    ghost var l := plugin.View();
    var run, state := StartDryRun(plugin, pod, nominated, pods);
    s := state;
    var n;
    ghost var listing, ranked;
    victims, n, status, listing, ranked := SelectVictimsOnNode(run, pod, state, fit, pods, budgets, req);
    assert plugin.View() == l;
    if status == Success && pod.namespace in l && Balanced(l, req) && forall p :: p in pods ==> Agrees(req, p) {
      SamePods(pods, listing);
      OtherQuotaVictims(l, pod, s, listing, req, victims);
    }
  }

  ghost predicate TakenOverMin(l: Ledger, pod: Pod, victims: seq<Pod>) {
    forall v :: v in victims && v.namespace != pod.namespace ==> v.namespace in l && UsedOverMin(l[v.namespace])
  }

  lemma OtherQuotaVictims(l: Ledger, pod: Pod, s: PreFilterState, listing: seq<Pod>, req: Requests, victims: seq<Pod>)
    requires Balanced(l, req) && pod.namespace in l
    requires forall p :: p in listing ==> Agrees(req, p)
    requires forall v :: v in victims ==> v in PotentialVictims(l, pod, s, listing)
    ensures TakenOverMin(l, pod, victims)
  {
    forall v | v in victims && v.namespace != pod.namespace
      ensures v.namespace in l && UsedOverMin(l[v.namespace])
    {
      if MoreThanMin(l, pod, s) {
        var taken := Selected(l, pod, true, listing);
        var i :| 0 <= i < |taken| && taken[i] == v;
        SelectedWereEligible(l, pod, true, listing, i);
        RemoveAllKeepsLimits(l, taken[..i]);
      } else {
        WithinMinLosesNoPod(l, pod, listing, req, v);
      }
    }
  }
}
