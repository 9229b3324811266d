/**
 The dry run shared by the preemption plugins: candidate victims are taken off a copy of the node, then put
 back one by one as long as the preemptor still fits.
 */
module Reprieve {
  import opened FrameworkResource
  import opened Pods
  import opened Sums
  import opened ElasticQuota
  import opened Greedy
  import opened DisruptionBudgets

  /** What PreFilter leaves in the cycle state. */
  datatype PreFilterState = PreFilterState(podReq: Resource, nominatedInEQ: Resource, nominatedAll: Resource)

  /** With nominated requests never negative, the pod's own request is part of both sums. */
  ghost predicate OwnRequestIncluded(s: PreFilterState) {
    && s.podReq.scalars.Keys <= s.nominatedInEQ.scalars.Keys
    && s.podReq.scalars.Keys <= s.nominatedAll.scalars.Keys
    && (forall d :: Amount(s.podReq, d) <= Amount(s.nominatedInEQ, d))
    && (forall d :: Amount(s.podReq, d) <= Amount(s.nominatedAll, d))
  }

  // ---- the dry run ----

  /** Whether the preemptor fits the node holding these pods, all filter plugins taken together. */
  type Fit = set<Pod> -> bool

  /** Taking pods away never breaks the fit. */
  ghost predicate Monotone(fit: Fit) {
    forall a, b :: a <= b && fit(b) ==> fit(a)
  }

  datatype Judge = Judge(pod: Pod, withQuota: bool, state: PreFilterState)

  /** The reprieve test: the quota limits with nominated requests counted in. */
  ghost predicate OverQuota(j: Judge, l: Ledger) {
    && j.withQuota
    && j.pod.namespace in l
    && (UsedOverMaxWith(l[j.pod.namespace], j.state.nominatedInEQ)
        || AggregatedUsedOverMinWith(l, j.state.nominatedAll))
  }

  /** The preemptor itself is within its quota's maximum and the summed minima. */
  ghost predicate WithinQuota(j: Judge, l: Ledger) {
    j.withQuota && j.pod.namespace in l ==>
      !UsedOverMaxWith(l[j.pod.namespace], j.state.podReq) && !AggregatedUsedOverMinWith(l, j.state.podReq)
  }

  /** Putting v back would break the fit or a quota limit. */
  ghost predicate Breaks(j: Judge, fit: Fit, node: set<Pod>, l: Ledger, v: Pod) {
    !fit(node + {v}) || OverQuota(j, WithPod(l, v))
  }

  ghost predicate NoneCanReturn(j: Judge, fit: Fit, node: set<Pod>, l: Ledger, victims: seq<Pod>) {
    forall v :: v in victims ==> Breaks(j, fit, node, l, v)
  }

  ghost predicate Same(l: Ledger, m: Ledger) {
    Below(l, m) && Below(m, l)
  }

  /** What a judged ledger needs: every usage is the sum of its pods' requests and names what they name. */
  ghost predicate Accounted(j: Judge, l: Ledger, req: Requests) {
    j.withQuota ==> Balanced(l, req)
  }

  ghost predicate Known(j: Judge, req: Requests, p: Pod) {
    j.withQuota ==> Agrees(req, p)
  }

  /** Charging p brings no negative minimum into play: each scalar it requests is looked at already, or its minima sum up to no less than 0. */
  ghost predicate Harmless(j: Judge, l: Ledger, p: Pod) {
    j.withQuota && p.namespace in l ==>
      forall k :: k in PodRequest(p).scalars ==>
        LookedAt(l, j.state.podReq, Scalar(k)) || MinTotal(l, Scalar(k)) >= 0
  }

  ghost predicate AllHarmless(j: Judge, l: Ledger, ps: seq<Pod>) {
    forall i :: 0 <= i < |ps| ==> Harmless(j, l, ps[i])
  }

  lemma OverQuotaMonotone(j: Judge, l: Ledger, m: Ledger, req: Requests)
    requires Below(l, m) && Accounted(j, l, req) && Accounted(j, m, req)
    requires j.withQuota ==> NoNewNegative(l, m, j.state.nominatedAll.scalars.Keys)
    ensures OverQuota(j, l) ==> OverQuota(j, m)
  {
    if j.withQuota {
      BelowOver(l, m, req, j.pod.namespace, j.state.nominatedInEQ);
      BelowOver(l, m, req, j.pod.namespace, j.state.nominatedAll);
    }
  }

  lemma WithinQuotaAntitone(j: Judge, l: Ledger, m: Ledger, req: Requests)
    requires Below(l, m) && Accounted(j, l, req) && Accounted(j, m, req)
    requires j.withQuota ==> NoNewNegative(l, m, j.state.podReq.scalars.Keys)
    ensures WithinQuota(j, m) ==> WithinQuota(j, l)
  {
    if j.withQuota {
      BelowOver(l, m, req, j.pod.namespace, j.state.podReq);
    }
  }

  lemma WithPodBelow(l: Ledger, l': Ledger, v: Pod)
    requires Below(l, l')
    ensures Below(WithPod(l, v), WithPod(l', v))
  {
  }

  lemma WithPodNames(l: Ledger, l': Ledger, v: Pod, req: Requests)
    requires Below(l, l') && NamesWithin(l, l') && Balanced(l', req) && Agrees(req, v)
    ensures NamesWithin(WithPod(l, v), WithPod(l', v))
  {
    if v.namespace in l' && v.uid in l'[v.namespace].pods {
      assert QuotaBalanced(l'[v.namespace], req);
    }
  }

  /** Trying a pod touches no limit and forgets no name. */
  lemma NamesGrow(l: Ledger, p: Pod)
    ensures NamesWithin(l, WithPod(l, p)) && NamesWithin(l, WithoutPod(WithPod(l, p), p))
    ensures WithPod(l, p).Keys == l.Keys && WithoutPod(WithPod(l, p), p).Keys == l.Keys
  {
  }

  lemma MinimaStay(l: Ledger, p: Pod, d: Dim)
    ensures MinTotal(WithPod(l, p), d) == MinTotal(l, d) && MinTotal(WithoutPod(WithPod(l, p), p), d) == MinTotal(l, d)
  {
    NamesGrow(l, p);
    SumSetEq(l.Keys, MinIn(l, d), MinIn(WithPod(l, p), d));
    SumSetEq(l.Keys, MinIn(l, d), MinIn(WithoutPod(WithPod(l, p), p), d));
  }

  /** The only names trying a pod adds are its own. */
  lemma NamesAdded(l: Ledger, p: Pod, k: string)
    ensures Names(l, k) ==> Names(WithPod(l, p), k) && Names(WithoutPod(WithPod(l, p), p), k)
    ensures Names(WithPod(l, p), k) || Names(WithoutPod(WithPod(l, p), p), k) ==>
      Names(l, k) || (p.namespace in l && k in PodRequest(p).scalars)
  {
    NamesGrow(l, p);
  }

  lemma HarmlessTry(j: Judge, l: Ledger, p: Pod)
    requires j.withQuota && Harmless(j, l, p)
    ensures NoNewNegative(WithoutPod(WithPod(l, p), p), l, j.state.podReq.scalars.Keys)
  {
    var taken := WithoutPod(WithPod(l, p), p);
    forall k | Names(taken, k) ensures Names(l, k) || k in j.state.podReq.scalars || MinTotal(taken, Scalar(k)) >= 0 {
      NamesAdded(l, p, k);
      MinimaStay(l, p, Scalar(k));
    }
  }

  lemma HarmlessStays(j: Judge, l: Ledger, p: Pod, q: Pod)
    requires Harmless(j, l, q)
    ensures Harmless(j, WithPod(l, p), q) && Harmless(j, WithoutPod(WithPod(l, p), p), q)
  {
    NamesGrow(l, p);
    if j.withQuota && q.namespace in l {
      forall k | k in PodRequest(q).scalars
        ensures LookedAt(WithPod(l, p), j.state.podReq, Scalar(k)) || MinTotal(WithPod(l, p), Scalar(k)) >= 0
        ensures LookedAt(WithoutPod(WithPod(l, p), p), j.state.podReq, Scalar(k)) || MinTotal(WithoutPod(WithPod(l, p), p), Scalar(k)) >= 0
      {
        NamesAdded(l, p, k);
        MinimaStay(l, p, Scalar(k));
      }
    }
  }

  lemma StaysAccounted(j: Judge, l: Ledger, req: Requests, p: Pod)
    requires Accounted(j, l, req) && (j.withQuota ==> Agrees(req, p))
    ensures Accounted(j, WithPod(l, p), req)
    ensures Accounted(j, WithoutPod(WithPod(l, p), p), req)
  {
    if j.withQuota {
      WithPodBalanced(l, p, req);
      WithoutPodBalanced(WithPod(l, p), p, req);
    }
  }

  /** A pod that could not return to a smaller node cannot return to a larger one. */
  lemma BreaksMonotone(j: Judge, fit: Fit, node: set<Pod>, l: Ledger, node': set<Pod>, l': Ledger, req: Requests, v: Pod)
    requires Monotone(fit) && node <= node' && Below(l, l') && NamesWithin(l, l')
    requires Accounted(j, l, req) && Accounted(j, l', req) && (j.withQuota ==> Agrees(req, v))
    requires Breaks(j, fit, node, l, v)
    ensures Breaks(j, fit, node', l', v)
  {
    if !fit(node + {v}) {
      assert node + {v} <= node' + {v};
    } else {
      StaysAccounted(j, l, req, v);
      StaysAccounted(j, l', req, v);
      WithPodBelow(l, l', v);
      if j.withQuota {
        WithPodNames(l, l', v, req);
        NamesWithinSuffices(WithPod(l, v), WithPod(l', v), j.state.nominatedAll.scalars.Keys);
      }
      OverQuotaMonotone(j, WithPod(l, v), WithPod(l', v), req);
    }
  }

  /** The node and the quota snapshot a preemption attempt mutates together. */
  class DryRun {
    var node: set<Pod>
    const quotas: Infos

    ghost predicate Valid() {
      Separate(quotas)
    }

    ghost function View(): Ledger
      reads quotas.Values
    {
      ViewOf(quotas)
    }

    constructor (node: set<Pod>, quotas: Infos)
      requires Separate(quotas)
      ensures Valid() && this.node == node && this.quotas == quotas
    {
      this.node := node;
      this.quotas := quotas;
    }

    /** Fails, changing nothing, when the node does not hold the pod. */
    method RemovePod(p: Pod) returns (ok: bool)
      requires Valid()
      modifies this, quotas.Values
      ensures ok == (p.uid != "" && p in old(node))
      ensures ok ==> node == old(node) - {p} && View() == WithoutPod(old(View()), p)
      ensures !ok ==> node == old(node) && View() == old(View())
    {
      if p.uid == "" || p !in node {
        return false;
      }
      node := node - {p};
      if p.namespace in quotas {
        var _ := quotas[p.namespace].DeletePodIfPresent(p);
      }
      return true;
    }

    method AddPod(p: Pod)
      requires Valid()
      requires p !in node
      modifies this, quotas.Values
      ensures node == old(node) + {p}
      ensures View() == WithPod(old(View()), p)
    {
      node := node + {p};
      if p.namespace in quotas {
        var _ := quotas[p.namespace].AddPodIfNotPresent(p);
      }
    }

    /** The quota part of the reprieve test. */
    method QuotaExceeded(j: Judge) returns (over: bool)
      requires Valid()
      requires j.withQuota == (j.pod.namespace in quotas)
      ensures over == OverQuota(j, View())
    {
      over := false;
      if j.withQuota {
        var info := quotas[j.pod.namespace];
        if Cmp2(j.state.nominatedInEQ, info.used, info.max, UPPER_BOUND_OF_MAX) {
          over := true;
        } else {
          over := AggregatedOverMin(quotas, j.state.nominatedAll);
        }
      }
    }
  }

  /** Not on the node and not recorded in its quota: the state of a pod taken off the node. */
  ghost predicate TakenOff(node: set<Pod>, l: Ledger, p: Pod) {
    && p !in node
    && p.uid != ""
    && (p.namespace in l ==> p.uid !in l[p.namespace].pods)
  }

  lemma ReleaseUndoesCharge(node: set<Pod>, l: Ledger, p: Pod)
    requires TakenOff(node, l, p)
    ensures Same(WithoutPod(WithPod(l, p), p), l)
    ensures node + {p} - {p} == node
  {
    if p.namespace in l {
      assert l[p.namespace].pods + {p.uid} - {p.uid} == l[p.namespace].pods;
    }
  }

  /**
   Tries to put p back. It stays when the preemptor still fits and no quota limit is exceeded;
   otherwise it is a victim. A pod that fails the fit while the quotas are exceeded without it is removed
   twice, and the second removal fails the whole attempt.
   */
  method ReprievePod(run: DryRun, j: Judge, fit: Fit, p: Pod)
    returns (fits: bool, victim: bool, ok: bool)
    requires run.Valid()
    requires j.withQuota == (j.pod.namespace in run.quotas)
    requires TakenOff(run.node, run.View(), p)
    modifies run, run.quotas.Values
    ensures fits == fit(old(run.node) + {p})
    ensures ok == (fits || !OverQuota(j, WithoutPod(WithPod(old(run.View()), p), p)))
    ensures ok ==> victim == Breaks(j, fit, old(run.node), old(run.View()), p)
    ensures ok && victim ==> run.node == old(run.node)
                             && run.View() == WithoutPod(WithPod(old(run.View()), p), p)
    ensures ok && !victim ==> run.node == old(run.node) + {p} && run.View() == WithPod(old(run.View()), p)
  {
    ReleaseUndoesCharge(run.node, run.View(), p);
    run.AddPod(p);
    fits := fit(run.node);
    victim := false;
    if !fits {
      ok := run.RemovePod(p);
      if !ok {
        return;
      }
      victim := true;
    }
    var over := run.QuotaExceeded(j);
    if over {
      ok := run.RemovePod(p);
      if !ok {
        return;
      }
      victim := true;
    }
    ok := true;
  }

  // ---- reprieving in a given order ----

  /** The test of a reprieve, and what keeping or taking a pod does to the quotas. */
  ghost function RulesOf(j: Judge, fit: Fit): Rules {
    Rules((node: set<Pod>, l: Ledger, p: Pod) => Breaks(j, fit, node, l, p),
          (node: set<Pod>, p: Pod) => fit(node + {p}),
          (l: Ledger, p: Pod) => WithPod(l, p),
          (l: Ledger, p: Pod) => WithoutPod(WithPod(l, p), p))
  }

  /** Distinct pods, all taken off. */
  ghost predicate Waiting(r: Round, ps: seq<Pod>) {
    UniqueUids(ps) && forall i :: 0 <= i < |ps| ==> TakenOff(r.node, r.quotas, ps[i])
  }

  ghost predicate AllKnown(j: Judge, req: Requests, ps: seq<Pod>) {
    forall i :: 0 <= i < |ps| ==> Known(j, req, ps[i])
  }

  lemma WaitingPart(r: Round, ps: seq<Pod>, part: seq<Pod>)
    requires Waiting(r, ps) && multiset(part) <= multiset(ps)
    ensures Waiting(r, part)
  {
    UniqueSub(ps, part);
    forall i | 0 <= i < |part| ensures part[i] in ps {
      assert part[i] in multiset(part);
    }
  }

  lemma AllKnownPart(j: Judge, l: Ledger, req: Requests, ps: seq<Pod>, part: seq<Pod>)
    requires AllKnown(j, req, ps) && multiset(part) <= multiset(ps)
    ensures AllKnown(j, req, part)
    ensures AllHarmless(j, l, ps) ==> AllHarmless(j, l, part)
  {
    forall i | 0 <= i < |part| ensures part[i] in ps {
      assert part[i] in multiset(part);
    }
  }

  /** Handling p leaves every pod with another uid as it was taken off. */
  lemma TakenOffKept(node: set<Pod>, l: Ledger, p: Pod, q: Pod)
    requires TakenOff(node, l, q) && p.uid != q.uid
    ensures TakenOff(node + {p}, WithPod(l, p), q)
    ensures TakenOff(node, WithoutPod(WithPod(l, p), p), q)
  {
  }

  /** Pods whose turn has not come are still off the node. */
  ghost predicate OffFrom(r: Round, order: seq<Pod>, i: nat) {
    forall q :: i <= q < |order| ==> TakenOff(r.node, r.quotas, order[q])
  }

  lemma OffNext(j: Judge, fit: Fit, order: seq<Pod>, r: Round, i: nat)
    requires UniqueUids(order) && i < |order|
    ensures OffFrom(r, order, i) ==> OffFrom(Next(RulesOf(j, fit), r, order[i]), order, i + 1)
  {
    if OffFrom(r, order, i) {
      var r' := Next(RulesOf(j, fit), r, order[i]);
      forall q | i + 1 <= q < |order| ensures TakenOff(r'.node, r'.quotas, order[q]) {
        UniqueAt(order, i, q);
        TakenOffKept(r.node, r.quotas, order[i], order[q]);
      }
    }
  }

  lemma {:induction false} OffRounds(j: Judge, fit: Fit, start: Round, order: seq<Pod>, k: nat)
    requires Waiting(start, order) && k <= |order|
    ensures OffFrom(Rounds(RulesOf(j, fit), start, order, k), order, k)
    decreases k
  {
    if k > 0 {
      OffRounds(j, fit, start, order, k - 1);
      OffNext(j, fit, order, Rounds(RulesOf(j, fit), start, order, k - 1), k - 1);
    }
  }

  /** The preemptor keeps fitting. */
  lemma {:induction false} FitRounds(j: Judge, fit: Fit, start: Round, order: seq<Pod>, k: nat)
    requires fit(start.node) && k <= |order|
    ensures fit(Rounds(RulesOf(j, fit), start, order, k).node)
    decreases k
  {
    if k > 0 {
      FitRounds(j, fit, start, order, k - 1);
    }
  }

  /** No victim so far could return. */
  ghost predicate Settled(j: Judge, fit: Fit, r: Round, req: Requests) {
    && Accounted(j, r.quotas, req)
    && (forall v :: v in r.victims ==> Known(j, req, v))
    && (Monotone(fit) ==> NoneCanReturn(j, fit, r.node, r.quotas, r.victims))
  }

  lemma SettledWhenKept(j: Judge, fit: Fit, r: Round, req: Requests, p: Pod)
    requires Settled(j, fit, r, req) && Known(j, req, p)
    ensures Settled(j, fit, Round(r.node + {p}, WithPod(r.quotas, p), r.victims, r.misfits), req)
  {
    var l' := WithPod(r.quotas, p);
    StaysAccounted(j, r.quotas, req, p);
    NamesGrow(r.quotas, p);
    if Monotone(fit) {
      forall v | v in r.victims ensures Breaks(j, fit, r.node + {p}, l', v) {
        BreaksMonotone(j, fit, r.node, r.quotas, r.node + {p}, l', req, v);
      }
    }
  }

  lemma SettledWhenTaken(j: Judge, fit: Fit, r: Round, req: Requests, p: Pod, misfits: nat)
    requires Settled(j, fit, r, req) && Known(j, req, p) && TakenOff(r.node, r.quotas, p)
    requires Breaks(j, fit, r.node, r.quotas, p)
    ensures Settled(j, fit, Round(r.node, WithoutPod(WithPod(r.quotas, p), p), r.victims + [p], misfits), req)
  {
    var l' := WithoutPod(WithPod(r.quotas, p), p);
    StaysAccounted(j, r.quotas, req, p);
    NamesGrow(r.quotas, p);
    ReleaseUndoesCharge(r.node, r.quotas, p);
    if Monotone(fit) {
      forall v | v in r.victims + [p] ensures Breaks(j, fit, r.node, l', v) {
        assert v in r.victims || v == p;
        BreaksMonotone(j, fit, r.node, r.quotas, r.node, l', req, v);
      }
    }
  }

  ghost predicate SettledAt(j: Judge, fit: Fit, order: seq<Pod>, req: Requests, r: Round, i: nat) {
    Settled(j, fit, r, req) && OffFrom(r, order, i)
  }

  lemma SettledNext(j: Judge, fit: Fit, order: seq<Pod>, req: Requests, r: Round, i: nat)
    requires UniqueUids(order) && AllKnown(j, req, order) && i < |order| && SettledAt(j, fit, order, req, r, i)
    ensures SettledAt(j, fit, order, req, Next(RulesOf(j, fit), r, order[i]), i + 1)
  {
    OffNext(j, fit, order, r, i);
    if Breaks(j, fit, r.node, r.quotas, order[i]) {
      SettledWhenTaken(j, fit, r, req, order[i], Next(RulesOf(j, fit), r, order[i]).misfits);
    } else {
      SettledWhenKept(j, fit, r, req, order[i]);
    }
  }

  /** In every order and after every round: for a monotone fit no victim so far could return. */
  lemma SettledRounds(j: Judge, fit: Fit, start: Round, order: seq<Pod>, k: nat, req: Requests)
    requires Settled(j, fit, start, req) && Waiting(start, order) && AllKnown(j, req, order) && k <= |order|
    ensures SettledAt(j, fit, order, req, Rounds(RulesOf(j, fit), start, order, k), k)
  {
    var inv := (r: Round, i: nat) => SettledAt(j, fit, order, req, r, i);
    forall r, i: nat | 0 <= i < |order| && inv(r, i) ensures inv(Next(RulesOf(j, fit), r, order[i]), i + 1) {
      SettledNext(j, fit, order, req, r, i);
    }
    RoundsKeep(RulesOf(j, fit), start, order, k, inv);
    assert inv(Rounds(RulesOf(j, fit), start, order, k), k);
  }

  // ---- the quotas while reprieving ----

  lemma OverAfterTry(j: Judge, r: Round, req: Requests, p: Pod)
    requires Accounted(j, r.quotas, req) && Known(j, req, p) && TakenOff(r.node, r.quotas, p)
    requires Harmless(j, r.quotas, p) && (j.withQuota ==> OwnRequestIncluded(j.state))
    ensures OverQuota(j, WithoutPod(WithPod(r.quotas, p), p)) == OverQuota(j, r.quotas)
    ensures OverQuota(j, r.quotas) ==> OverQuota(j, WithPod(r.quotas, p))
    ensures WithinQuota(j, r.quotas) ==> WithinQuota(j, WithoutPod(WithPod(r.quotas, p), p))
  {
    if j.withQuota {
      var l, kept, taken := r.quotas, WithPod(r.quotas, p), WithoutPod(WithPod(r.quotas, p), p);
      StaysAccounted(j, l, req, p);
      NamesGrow(l, p);
      NamesWithinSuffices(l, kept, j.state.nominatedAll.scalars.Keys);
      NamesWithinSuffices(l, taken, j.state.nominatedAll.scalars.Keys);
      HarmlessTry(j, l, p);
      ReleaseUndoesCharge(r.node, l, p);
      OverQuotaMonotone(j, taken, l, req);
      OverQuotaMonotone(j, l, taken, req);
      OverQuotaMonotone(j, l, kept, req);
      WithinQuotaAntitone(j, taken, l, req);
    }
  }

  /** Reprieving neither exceeds the quotas nor relieves them; when they are exceeded, nobody goes back. */
  ghost predicate Unrelieved(j: Judge, start: Round, r: Round) {
    && OverQuota(j, r.quotas) == OverQuota(j, start.quotas)
    && (OverQuota(j, start.quotas) ==> r.node == start.node)
  }

  /** The preemptor stays within its quota. */
  ghost predicate CalmAt(j: Judge, start: Round, order: seq<Pod>, req: Requests, r: Round, i: nat) {
    && WithinQuota(j, r.quotas) && Unrelieved(j, start, r)
    && Accounted(j, r.quotas, req) && AllHarmless(j, r.quotas, order) && OffFrom(r, order, i)
  }

  lemma WithinWhenKept(j: Judge, l: Ledger, p: Pod)
    requires (j.withQuota ==> OwnRequestIncluded(j.state)) && !OverQuota(j, WithPod(l, p))
    ensures WithinQuota(j, WithPod(l, p))
  {
    var l' := WithPod(l, p);
    if j.withQuota && j.pod.namespace in l' {
      SmallerRequest(l', j.pod.namespace, j.state.podReq, j.state.nominatedInEQ);
      SmallerRequest(l', j.pod.namespace, j.state.podReq, j.state.nominatedAll);
    }
  }

  lemma CalmNext(j: Judge, fit: Fit, start: Round, order: seq<Pod>, req: Requests, r: Round, i: nat)
    requires UniqueUids(order) && AllKnown(j, req, order) && i < |order| && (j.withQuota ==> OwnRequestIncluded(j.state))
    requires CalmAt(j, start, order, req, r, i)
    ensures CalmAt(j, start, order, req, Next(RulesOf(j, fit), r, order[i]), i + 1)
  {
    var r' := Next(RulesOf(j, fit), r, order[i]);
    OffNext(j, fit, order, r, i);
    OverAfterTry(j, r, req, order[i]);
    StaysAccounted(j, r.quotas, req, order[i]);
    forall q | 0 <= q < |order| ensures Harmless(j, r'.quotas, order[q]) {
      HarmlessStays(j, r.quotas, order[i], order[q]);
    }
    if !Breaks(j, fit, r.node, r.quotas, order[i]) {
      WithinWhenKept(j, r.quotas, order[i]);
    }
  }

  lemma CalmRounds(j: Judge, fit: Fit, start: Round, order: seq<Pod>, k: nat, req: Requests)
    requires WithinQuota(j, start.quotas) && Accounted(j, start.quotas, req) && AllHarmless(j, start.quotas, order)
    requires Waiting(start, order) && AllKnown(j, req, order) && k <= |order| && (j.withQuota ==> OwnRequestIncluded(j.state))
    ensures CalmAt(j, start, order, req, Rounds(RulesOf(j, fit), start, order, k), k)
  {
    var inv := (r: Round, i: nat) => CalmAt(j, start, order, req, r, i);
    forall r, i: nat | 0 <= i < |order| && inv(r, i) ensures inv(Next(RulesOf(j, fit), r, order[i]), i + 1) {
      CalmNext(j, fit, start, order, req, r, i);
    }
    RoundsKeep(RulesOf(j, fit), start, order, k, inv);
    assert inv(Rounds(RulesOf(j, fit), start, order, k), k);
  }

  /** The quotas and their minima are as at the start, and from some round on the scalar is named. */
  ghost predicate NamedFrom(j: Judge, l: Ledger, req: Requests, k: string, named: bool, m: Ledger) {
    && Accounted(j, m, req) && m.Keys == l.Keys
    && MinTotal(m, Scalar(k)) == MinTotal(l, Scalar(k))
    && (named ==> Names(m, k))
  }

  lemma TryNames(j: Judge, l: Ledger, req: Requests, k: string, named: bool, m: Ledger, p: Pod)
    requires NamedFrom(j, l, req, k, named, m) && Known(j, req, p)
    ensures NamedFrom(j, l, req, k, named, WithPod(m, p)) && NamedFrom(j, l, req, k, named, WithoutPod(WithPod(m, p), p))
  {
    StaysAccounted(j, m, req, p);
    NamesGrow(m, p);
    NamesAdded(m, p, k);
    MinimaStay(m, p, Scalar(k));
  }

  lemma TriedIsNamed(node: set<Pod>, l: Ledger, p: Pod, k: string)
    requires TakenOff(node, l, p) && p.namespace in l && k in PodRequest(p).scalars
    ensures Names(WithPod(l, p), k) && Names(WithoutPod(WithPod(l, p), p), k)
  {
    assert k in WithPod(l, p)[p.namespace].used.scalars;
    assert k in WithoutPod(WithPod(l, p), p)[p.namespace].used.scalars;
  }

  ghost predicate NamedAt(j: Judge, l: Ledger, order: seq<Pod>, req: Requests, k: string, at: nat, r: Round, i: nat) {
    NamedFrom(j, l, req, k, i > at, r.quotas) && OffFrom(r, order, i)
  }

  lemma NamedNext(j: Judge, fit: Fit, l: Ledger, order: seq<Pod>, req: Requests, k: string, at: nat, r: Round, i: nat)
    requires UniqueUids(order) && AllKnown(j, req, order) && i < |order| && at < |order|
    requires order[at].namespace in l && k in PodRequest(order[at]).scalars
    requires NamedAt(j, l, order, req, k, at, r, i)
    ensures NamedAt(j, l, order, req, k, at, Next(RulesOf(j, fit), r, order[i]), i + 1)
  {
    OffNext(j, fit, order, r, i);
    TryNames(j, l, req, k, i > at, r.quotas, order[i]);
    if i == at {
      TriedIsNamed(r.node, r.quotas, order[i], k);
    }
  }

  lemma NamedMeansOver(j: Judge, l: Ledger, req: Requests, k: string, m: Ledger)
    requires j.withQuota && j.pod.namespace in l && NamedFrom(j, l, req, k, true, m)
    requires k !in j.state.podReq.scalars && MinTotal(l, Scalar(k)) < 0
    ensures !WithinQuota(j, m)
  {
    UsedIsNonNegative(m, req, Scalar(k));
    assert LookedAt(m, j.state.podReq, Scalar(k)) && TotalOverMin(m, j.state.podReq, Scalar(k));
  }

  lemma NamedRounds(j: Judge, fit: Fit, start: Round, order: seq<Pod>, req: Requests, k: string, at: nat)
    requires Accounted(j, start.quotas, req) && Waiting(start, order) && AllKnown(j, req, order)
    requires at < |order| && order[at].namespace in start.quotas && k in PodRequest(order[at]).scalars
    ensures NamedFrom(j, start.quotas, req, k, true, AllRounds(RulesOf(j, fit), start, order).quotas)
  {
    var inv := (r: Round, i: nat) => NamedAt(j, start.quotas, order, req, k, at, r, i);
    forall r, i: nat | 0 <= i < |order| && inv(r, i) ensures inv(Next(RulesOf(j, fit), r, order[i]), i + 1) {
      NamedNext(j, fit, start.quotas, order, req, k, at, r, i);
    }
    RoundsKeep(RulesOf(j, fit), start, order, |order|, inv);
    assert inv(AllRounds(RulesOf(j, fit), start, order), |order|);
  }

  /** A pod that brings a negative minimum into play leaves the preemptor over its quota, whatever becomes of the pod. */
  lemma HarmDone(j: Judge, fit: Fit, start: Round, order: seq<Pod>, at: nat, req: Requests)
    requires Accounted(j, start.quotas, req) && Waiting(start, order) && AllKnown(j, req, order)
    requires j.pod.namespace in start.quotas && at < |order| && !Harmless(j, start.quotas, order[at])
    ensures !WithinQuota(j, AllRounds(RulesOf(j, fit), start, order).quotas)
  {
    var k :| k in PodRequest(order[at]).scalars && !LookedAt(start.quotas, j.state.podReq, Scalar(k)) && MinTotal(start.quotas, Scalar(k)) < 0;
    NamedRounds(j, fit, start, order, req, k, at);
    NamedMeansOver(j, start.quotas, req, k, AllRounds(RulesOf(j, fit), start, order).quotas);
  }

  lemma UsedIsNonNegative(l: Ledger, req: Requests, d: Dim)
    requires Balanced(l, req)
    ensures SumSet(l.Keys, UsedIn(l, d)) >= 0
  {
    forall ns | ns in l ensures UsedIn(l, d)(ns) >= 0 {
      BalancedNonNegative(l[ns], req);
    }
    SumSetNonNegative(l.Keys, UsedIn(l, d));
  }

  /** The preemptor ends up within its quota exactly if no tried pod brought a negative minimum into play. */
  lemma WithinExactly(j: Judge, fit: Fit, start: Round, order: seq<Pod>, req: Requests)
    requires WithinQuota(j, start.quotas) && Accounted(j, start.quotas, req)
    requires Waiting(start, order) && AllKnown(j, req, order)
    requires j.withQuota ==> OwnRequestIncluded(j.state) && j.pod.namespace in start.quotas
    ensures WithinQuota(j, AllRounds(RulesOf(j, fit), start, order).quotas) <==> AllHarmless(j, start.quotas, order)
  {
    if AllHarmless(j, start.quotas, order) {
      CalmRounds(j, fit, start, order, |order|, req);
    } else {
      var at :| 0 <= at < |order| && !Harmless(j, start.quotas, order[at]);
      HarmDone(j, fit, start, order, at, req);
    }
  }

  // ---- who goes back ----

  /** Another way out: these pods stay, the preemptor fits beside them, and quotas that record them are not exceeded. */
  ghost predicate Alternative(j: Judge, fit: Fit, node: set<Pod>, l: Ledger, stay: set<Pod>, m: Ledger, req: Requests) {
    && fit(node + stay) && !OverQuota(j, m)
    && Below(l, m) && NamesWithin(l, m) && Accounted(j, m, req)
    && forall p :: p in stay && p.namespace in m ==> p.uid in m[p.namespace].pods
  }

  ghost predicate GoesBack(j: Judge, fit: Fit, start: Round, order: seq<Pod>, i: nat)
    requires i < |order|
  {
    var r := Rounds(RulesOf(j, fit), start, order, i);
    !Breaks(j, fit, r.node, r.quotas, order[i])
  }

  lemma BelowNext(j: Judge, fit: Fit, r: Round, p: Pod, stay: set<Pod>, m: Ledger)
    requires Below(r.quotas, m) && r.node <= stay
    requires !Breaks(j, fit, r.node, r.quotas, p) ==> p in stay && (p.namespace in m ==> p.uid in m[p.namespace].pods)
    ensures Below(Next(RulesOf(j, fit), r, p).quotas, m) && Next(RulesOf(j, fit), r, p).node <= stay
  {
  }

  /** As long as the pods put back are among those that stay, the round is below the alternative. */
  lemma {:induction false} RoundsBelow(j: Judge, fit: Fit, node: set<Pod>, l: Ledger, order: seq<Pod>, k: nat,
                                       stay: set<Pod>, m: Ledger, req: Requests)
    requires Alternative(j, fit, node, l, stay, m, req) && k <= |order|
    requires forall q :: 0 <= q < k && GoesBack(j, fit, Start(node, l), order, q) ==> order[q] in stay
    ensures
      var r := Rounds(RulesOf(j, fit), Start(node, l), order, k);
      Below(r.quotas, m) && r.node <= node + stay
    decreases k
  {
    if k > 0 {
      RoundsBelow(j, fit, node, l, order, k - 1, stay, m, req);
      assert GoesBack(j, fit, Start(node, l), order, k - 1) ==> order[k - 1] in stay;
      BelowNext(j, fit, Rounds(RulesOf(j, fit), Start(node, l), order, k - 1), order[k - 1], node + stay, m);
    }
  }

  lemma RecordedBelow(l: Ledger, m: Ledger, p: Pod, req: Requests)
    requires Below(l, m) && Balanced(m, req) && Agrees(req, p)
    requires p.namespace in m ==> p.uid in m[p.namespace].pods
    ensures Below(WithPod(l, p), m)
    ensures forall k :: Names(WithPod(l, p), k) ==> Names(l, k) || Names(m, k)
  {
    if p.namespace in m {
      assert QuotaBalanced(m[p.namespace], req);
    }
    forall k | Names(WithPod(l, p), k) ensures Names(l, k) || Names(m, k) {
      NamesAdded(l, p, k);
    }
  }

  /** What is named beyond the alternative's names has no negative minimum. */
  ghost predicate NoWorse(j: Judge, order: seq<Pod>, m: Ledger, r: Round) {
    NoNewNegative(r.quotas, m, j.state.podReq.scalars.Keys) && AllHarmless(j, r.quotas, order)
  }

  lemma NoWorseNext(j: Judge, fit: Fit, order: seq<Pod>, m: Ledger, r: Round, i: nat)
    requires j.withQuota && i < |order| && NoWorse(j, order, m, r)
    ensures NoWorse(j, order, m, Next(RulesOf(j, fit), r, order[i]))
  {
    var r' := Next(RulesOf(j, fit), r, order[i]);
    forall q | 0 <= q < |order| ensures Harmless(j, r'.quotas, order[q]) {
      HarmlessStays(j, r.quotas, order[i], order[q]);
    }
    forall k | Names(r'.quotas, k) ensures Names(m, k) || k in j.state.podReq.scalars || MinTotal(r'.quotas, Scalar(k)) >= 0 {
      NamesAdded(r.quotas, order[i], k);
      MinimaStay(r.quotas, order[i], Scalar(k));
      assert Harmless(j, r.quotas, order[i]);
    }
  }

  lemma NoWorseRounds(j: Judge, fit: Fit, start: Round, order: seq<Pod>, k: nat, m: Ledger)
    requires j.withQuota && k <= |order| && NoWorse(j, order, m, start)
    ensures NoWorse(j, order, m, Rounds(RulesOf(j, fit), start, order, k))
  {
    var inv := (r: Round, i: nat) => NoWorse(j, order, m, r);
    forall r, i: nat | 0 <= i < |order| && inv(r, i) ensures inv(Next(RulesOf(j, fit), r, order[i]), i + 1) {
      NoWorseNext(j, fit, order, m, r, i);
    }
    RoundsKeep(RulesOf(j, fit), start, order, k, inv);
    assert inv(Rounds(RulesOf(j, fit), start, order, k), k);
  }

  lemma FitsBelow(j: Judge, fit: Fit, node: set<Pod>, l: Ledger, r: Round, p: Pod, stay: set<Pod>, m: Ledger, req: Requests)
    requires Monotone(fit) && Alternative(j, fit, node, l, stay, m, req)
    requires Below(r.quotas, m) && r.node <= node + stay && p in stay
    requires Accounted(j, r.quotas, req) && Known(j, req, p)
    requires j.withQuota ==> OwnRequestIncluded(j.state) && NoNewNegative(r.quotas, m, j.state.podReq.scalars.Keys)
    ensures !Breaks(j, fit, r.node, r.quotas, p)
  {
    assert r.node + {p} <= node + stay;
    if j.withQuota {
      StaysAccounted(j, r.quotas, req, p);
      RecordedBelow(r.quotas, m, p, req);
      forall k | Names(WithPod(r.quotas, p), k)
        ensures Names(m, k) || k in j.state.nominatedAll.scalars || MinTotal(WithPod(r.quotas, p), Scalar(k)) >= 0
      {
        MinimaStay(r.quotas, p, Scalar(k));
      }
      OverQuotaMonotone(j, WithPod(r.quotas, p), m, req);
    }
  }

  /**
   No pod yields to one behind it in the order: if some way out keeps it together with every pod before it that
   went back, it goes back too, whatever becomes of the pods behind it.
   */
  lemma NobodyYields(j: Judge, fit: Fit, node: set<Pod>, l: Ledger, order: seq<Pod>, i: nat,
                     stay: set<Pod>, m: Ledger, req: Requests)
    requires Monotone(fit) && Alternative(j, fit, node, l, stay, m, req)
    requires Accounted(j, l, req) && Waiting(Start(node, l), order) && AllKnown(j, req, order)
    requires AllHarmless(j, l, order) && (j.withQuota ==> OwnRequestIncluded(j.state)) && i < |order|
    requires forall q :: 0 <= q < i && GoesBack(j, fit, Start(node, l), order, q) ==> order[q] in stay
    requires order[i] in stay
    ensures order[i] !in AllRounds(RulesOf(j, fit), Start(node, l), order).victims
  {
    var r, p := Rounds(RulesOf(j, fit), Start(node, l), order, i), order[i];
    RoundsBelow(j, fit, node, l, order, i, stay, m, req);
    SettledRounds(j, fit, Start(node, l), order, i, req);
    if j.withQuota {
      NamesWithinSuffices(l, m, j.state.podReq.scalars.Keys);
      NoWorseRounds(j, fit, Start(node, l), order, i, m);
    }
    FitsBelow(j, fit, node, l, r, p, stay, m, req);
    WaitingAllOff(node, l, order);
    DecidedInTurn(RulesOf(j, fit), node, l, order, i, |order|);
  }

  lemma WaitingAllOff(node: set<Pod>, l: Ledger, order: seq<Pod>)
    requires Waiting(Start(node, l), order)
    ensures AllOff(node, order)
  {
    UniqueAllOff(node, order);
  }

  // ---- the attempt that fails ----

  /** The i-th pod fails the fit, is removed, and is to be removed again because the quotas are exceeded. */
  ghost predicate FailsAt(j: Judge, fit: Fit, start: Round, order: seq<Pod>, i: nat)
    requires i < |order|
  {
    var r := Rounds(RulesOf(j, fit), start, order, i);
    !fit(r.node + {order[i]}) && OverQuota(j, WithoutPod(WithPod(r.quotas, order[i]), order[i]))
  }

  ghost predicate SomeFails(j: Judge, fit: Fit, start: Round, order: seq<Pod>, k: nat)
    requires k <= |order|
  {
    exists i :: 0 <= i < k && FailsAt(j, fit, start, order, i)
  }

  lemma {:induction false} SomeFailsConcat(j: Judge, fit: Fit, start: Round, a: seq<Pod>, b: seq<Pod>)
    ensures SomeFails(j, fit, start, a + b, |a + b|)
            <==> SomeFails(j, fit, start, a, |a|) || SomeFails(j, fit, AllRounds(RulesOf(j, fit), start, a), b, |b|)
  {
    var mid := AllRounds(RulesOf(j, fit), start, a);
    forall i | 0 <= i < |a| ensures FailsAt(j, fit, start, a + b, i) <==> FailsAt(j, fit, start, a, i) {
      RoundsPrefix(RulesOf(j, fit), start, a, b, i);
    }
    forall i | 0 <= i < |b| ensures FailsAt(j, fit, start, a + b, |a| + i) <==> FailsAt(j, fit, mid, b, i) {
      RoundsConcat(RulesOf(j, fit), start, a, b, i);
    }
    if i :| 0 <= i < |a + b| && FailsAt(j, fit, start, a + b, i) {
      if |a| <= i {
        assert FailsAt(j, fit, mid, b, i - |a|);
      }
    }
  }

  /** The quotas are exceeded from the start, and some pod fails the fit. */
  ghost predicate Trapped(j: Judge, fit: Fit, node: set<Pod>, l: Ledger, ps: seq<Pod>) {
    OverQuota(j, l) && exists p :: p in ps && !fit(node + {p})
  }

  /** On an accounted ledger, if no pod brings a negative minimum into play, the order does not decide whether a round fails. */
  lemma TrappedExactly(j: Judge, fit: Fit, start: Round, order: seq<Pod>, req: Requests)
    requires WithinQuota(j, start.quotas) && Accounted(j, start.quotas, req) && AllHarmless(j, start.quotas, order)
    requires Waiting(start, order) && AllKnown(j, req, order) && (j.withQuota ==> OwnRequestIncluded(j.state))
    ensures SomeFails(j, fit, start, order, |order|) <==> Trapped(j, fit, start.node, start.quotas, order)
  {
    forall i | 0 <= i < |order|
      ensures FailsAt(j, fit, start, order, i) <==> OverQuota(j, start.quotas) && !fit(start.node + {order[i]})
    {
      CalmRounds(j, fit, start, order, i, req);
      OverAfterTry(j, Rounds(RulesOf(j, fit), start, order, i), req, order[i]);
    }
    if Trapped(j, fit, start.node, start.quotas, order) {
      var p :| p in order && !fit(start.node + {p});
      var i :| 0 <= i < |order| && order[i] == p;
      assert FailsAt(j, fit, start, order, i);
    }
  }

  /**
   Evicting does not help against what is nominated: the test of the nominated sums ends as it began, and if it began
   exceeded, nobody goes back.
   */
  lemma NominatedUnrelieved(j: Judge, fit: Fit, start: Round, order: seq<Pod>, req: Requests)
    requires WithinQuota(j, start.quotas) && Accounted(j, start.quotas, req) && AllHarmless(j, start.quotas, order)
    requires Waiting(start, order) && AllKnown(j, req, order) && (j.withQuota ==> OwnRequestIncluded(j.state))
    ensures
      var end := AllRounds(RulesOf(j, fit), start, order);
      && (OverQuota(j, end.quotas) <==> OverQuota(j, start.quotas))
      && (OverQuota(j, start.quotas) ==> end.node == start.node)
  {
    CalmRounds(j, fit, start, order, |order|, req);
  }

  // ---- the passes ----

  /** One pod's turn. */
  method ReprieveNext(run: DryRun, j: Judge, fit: Fit, p: Pod, ghost rules: Rules, ghost r: Round)
    returns (fits: bool, victim: bool, ok: bool)
    requires run.Valid() && j.withQuota == (j.pod.namespace in run.quotas) && rules == RulesOf(j, fit)
    requires run.node == r.node && run.View() == r.quotas && TakenOff(r.node, r.quotas, p)
    modifies run, run.quotas.Values
    ensures fits == fit(r.node + {p})
    ensures ok <==> fits || !OverQuota(j, WithoutPod(WithPod(r.quotas, p), p))
    ensures ok ==> run.node == Next(rules, r, p).node && run.View() == Next(rules, r, p).quotas
    ensures ok ==> Next(rules, r, p).victims == if victim then r.victims + [p] else r.victims
    ensures ok ==> Next(rules, r, p).misfits == r.misfits + if fits then 0 else 1
  {
    fits, victim, ok := ReprievePod(run, j, fit, p);
  }

  lemma FailsNext(j: Judge, fit: Fit, start: Round, order: seq<Pod>, k: nat)
    requires k < |order|
    ensures SomeFails(j, fit, start, order, k + 1) <==> SomeFails(j, fit, start, order, k) || FailsAt(j, fit, start, order, k)
    ensures FailsAt(j, fit, start, order, k) ==> SomeFails(j, fit, start, order, |order|)
  {
  }

  /**
   One pass: tries to put back the pods of a list in order. Counts the pods that failed the fit, not those
   that failed the quota test alone.
   */
  method ReprieveEach(run: DryRun, j: Judge, fit: Fit, list: seq<Pod>, ghost rules: Rules, ghost start: Round)
    returns (taken: seq<Pod>, misfits: nat, ok: bool)
    requires run.Valid() && j.withQuota == (j.pod.namespace in run.quotas) && rules == RulesOf(j, fit)
    requires run.node == start.node && run.View() == start.quotas && Waiting(start, list)
    modifies run, run.quotas.Values
    ensures ok <==> !SomeFails(j, fit, start, list, |list|)
    ensures ok ==> AllRounds(rules, start, list) == Round(run.node, run.View(), start.victims + taken, start.misfits + misfits)
  {
    ghost var r := start;
    taken, misfits, ok := [], 0, true;
    assert start.victims + [] == start.victims;
    for k := 0 to |list|
      invariant r == Rounds(rules, start, list, k)
      invariant r.node == run.node && r.quotas == run.View()
      invariant r.victims == start.victims + taken && r.misfits == start.misfits + misfits
      invariant !SomeFails(j, fit, start, list, k)
    {
      OffRounds(j, fit, start, list, k);
      FailsNext(j, fit, start, list, k);
      var fits, victim;
      fits, victim, ok := ReprieveNext(run, j, fit, list[k], rules, r);
      assert ok <==> !FailsAt(j, fit, start, list, k);
      if !ok {
        return;
      }
      r := Next(rules, r, list[k]);
      if victim {
        AppendLast(start.victims, taken, list[k]);
        taken := taken + [list[k]];
      }
      if !fits {
        misfits := misfits + 1;
      }
    }
  }

  /** Ranks the candidates and splits them by budget. */
  method RankAndSplit(potential: seq<Pod>, budgets: seq<Budget>)
    returns (violating: seq<Pod>, nonViolating: seq<Pod>, ghost ranked: seq<Pod>)
    ensures multiset(ranked) == multiset(potential) && ByImportance(ranked)
    ensures violating == Group(budgets, ranked, true) && nonViolating == Group(budgets, ranked, false)
    ensures multiset(violating + nonViolating) == multiset(potential)
  {
    var sorted := SortByImportance(potential);
    ranked := sorted;
    violating, nonViolating := FilterPodsWithPDBViolation(sorted, budgets);
    GroupsPartition(budgets, sorted);
  }

  /** The order of reprieves: pods whose eviction breaks a budget first, each group by importance. */
  ghost function OrderOf(budgets: seq<Budget>, ranked: seq<Pod>): seq<Pod> {
    Group(budgets, ranked, true) + Group(budgets, ranked, false)
  }

  /** What the second pass finds. */
  lemma StillWaiting(j: Judge, fit: Fit, start: Round, a: seq<Pod>, b: seq<Pod>)
    requires Waiting(start, a + b)
    ensures Waiting(start, a) && Waiting(AllRounds(RulesOf(j, fit), start, a), b)
    ensures AllRounds(RulesOf(j, fit), start, a + b) == AllRounds(RulesOf(j, fit), AllRounds(RulesOf(j, fit), start, a), b)
  {
    WaitingPart(start, a + b, a);
    UniqueSub(a + b, b);
    RoundsPrefix(RulesOf(j, fit), start, a, b, |a|);
    OffRounds(j, fit, start, a + b, |a|);
    forall i | 0 <= i < |b| ensures b[i] == (a + b)[|a| + i] {}
    RoundsConcat(RulesOf(j, fit), start, a, b, |b|);
  }

  /** The two passes, one after the other. */
  method ReprieveBoth(run: DryRun, j: Judge, fit: Fit, violating: seq<Pod>, nonViolating: seq<Pod>,
                      ghost rules: Rules, ghost start: Round)
    returns (victims: seq<Pod>, numViolatingVictim: nat, ok: bool)
    requires run.Valid() && j.withQuota == (j.pod.namespace in run.quotas) && rules == RulesOf(j, fit)
    requires start == Start(run.node, run.View()) && Waiting(start, violating + nonViolating)
    modifies run, run.quotas.Values
    ensures ok <==> !SomeFails(j, fit, start, violating + nonViolating, |violating + nonViolating|)
    ensures ok ==> run.node == AllRounds(rules, start, violating + nonViolating).node
    ensures ok ==> run.View() == AllRounds(rules, start, violating + nonViolating).quotas
    ensures ok ==> victims == AllRounds(rules, start, violating + nonViolating).victims
    ensures ok ==> numViolatingVictim == AllRounds(rules, start, violating).misfits
  {
    StillWaiting(j, fit, start, violating, nonViolating);
    SomeFailsConcat(j, fit, start, violating, nonViolating);
    ghost var mid := AllRounds(rules, start, violating);
    victims, numViolatingVictim, ok := ReprieveEach(run, j, fit, violating, rules, start);
    if !ok {
      return;
    }
    assert victims == mid.victims;
    var later, misfits;
    later, misfits, ok := ReprieveEach(run, j, fit, nonViolating, rules, mid);
    victims := victims + later;
  }

  /** Puts back as many candidates as possible, one after the other, in the order of reprieves. */
  method ReprieveCandidates(run: DryRun, j: Judge, fit: Fit, potential: seq<Pod>, budgets: seq<Budget>, ghost start: Round)
    returns (victims: seq<Pod>, numViolatingVictim: nat, ok: bool, ghost ranked: seq<Pod>)
    requires run.Valid() && j.withQuota == (j.pod.namespace in run.quotas)
    requires start == Start(run.node, run.View()) && Waiting(start, potential)
    modifies run, run.quotas.Values
    ensures multiset(ranked) == multiset(potential) && ByImportance(ranked)
    ensures ok <==> !SomeFails(j, fit, start, OrderOf(budgets, ranked), |OrderOf(budgets, ranked)|)
    ensures ok ==> run.node == AllRounds(RulesOf(j, fit), start, OrderOf(budgets, ranked)).node
    ensures ok ==> run.View() == AllRounds(RulesOf(j, fit), start, OrderOf(budgets, ranked)).quotas
    ensures ok ==> victims == AllRounds(RulesOf(j, fit), start, OrderOf(budgets, ranked)).victims
    ensures ok ==> numViolatingVictim == AllRounds(RulesOf(j, fit), start, Group(budgets, ranked, true)).misfits
  {
    var violating, nonViolating, split := RankAndSplit(potential, budgets);
    ranked := split;
    WaitingPart(start, potential, violating + nonViolating);
    victims, numViolatingVictim, ok := ReprieveBoth(run, j, fit, violating, nonViolating, RulesOf(j, fit), start);
  }

  /** What a successful attempt returns: the outcome of reprieving the potential victims in order. */
  ghost predicate IsReprieve(j: Judge, fit: Fit, potential: seq<Pod>, budgets: seq<Budget>, ranked: seq<Pod>, emptied: Round,
                             victims: seq<Pod>, numViolatingVictim: nat) {
    && multiset(ranked) == multiset(potential) && ByImportance(ranked)
    && victims == AllRounds(RulesOf(j, fit), emptied, OrderOf(budgets, ranked)).victims
    && numViolatingVictim == AllRounds(RulesOf(j, fit), emptied, Group(budgets, ranked, true)).misfits
  }

  /** Some budget-breaking pod is taken by the quota test alone. */
  ghost predicate TakenByQuotaAlone(j: Judge, fit: Fit, emptied: Round, violating: seq<Pod>) {
    SomeTakenThoughFitting(RulesOf(j, fit), emptied, violating, |violating|)
  }

  /**
   What follows from reprieving in order, on any ledger: the victims are distinct potential victims and exactly
   they are gone, the preemptor fits what is left, and the count of budget-breaking victims is a lower bound that
   is exact if and only if none of them was taken by the quota test alone.
   */
  lemma ReprievePartitions(j: Judge, fit: Fit, potential: seq<Pod>, budgets: seq<Budget>, ranked: seq<Pod>, emptied: Round,
                           victims: seq<Pod>, n: nat)
    requires emptied == Start(emptied.node, emptied.quotas) && fit(emptied.node) && Waiting(emptied, potential)
    ensures IsReprieve(j, fit, potential, budgets, ranked, emptied, victims, n) ==>
      var end := AllRounds(RulesOf(j, fit), emptied, OrderOf(budgets, ranked));
      var count := SumSeq(victims, MembersOf(Group(budgets, ranked, true)));
      && UniqueUids(victims) && (forall v :: v in victims ==> v in potential)
      && end.node == emptied.node + (SetOf(potential) - SetOf(victims))
      && fit(end.node)
      && n <= count && (n == count <==> !TakenByQuotaAlone(j, fit, emptied, Group(budgets, ranked, true)))
  {
    if IsReprieve(j, fit, potential, budgets, ranked, emptied, victims, n) {
      var order := OrderOf(budgets, ranked);
      GroupsPartition(budgets, ranked);
      WaitingPart(emptied, potential, order);
      FitRounds(j, fit, emptied, order, |order|);
      OrderPartitions(j, fit, emptied, potential, order);
      OrderCounts(j, fit, emptied, Group(budgets, ranked, true), Group(budgets, ranked, false));
    }
  }

  /**
   On an accounted ledger: for a monotone fit not one victim could have stayed; the preemptor is within its quota
   exactly if no potential victim brings a negative minimum into play; and then whether an attempt fails does not
   depend on the order.
   */
  lemma ReprieveIsSound(j: Judge, fit: Fit, potential: seq<Pod>, budgets: seq<Budget>, ranked: seq<Pod>, emptied: Round, req: Requests)
    requires multiset(ranked) == multiset(potential) && emptied == Start(emptied.node, emptied.quotas)
    requires WithinQuota(j, emptied.quotas) && Accounted(j, emptied.quotas, req)
    requires Waiting(emptied, potential) && AllKnown(j, req, potential)
    requires j.withQuota ==> OwnRequestIncluded(j.state) && j.pod.namespace in emptied.quotas
    ensures
      var order := OrderOf(budgets, ranked);
      var end := AllRounds(RulesOf(j, fit), emptied, order);
      && (Monotone(fit) ==> NoneCanReturn(j, fit, end.node, end.quotas, end.victims))
      && (WithinQuota(j, end.quotas) <==> AllHarmless(j, emptied.quotas, potential))
      && (AllHarmless(j, emptied.quotas, potential) ==>
            && (SomeFails(j, fit, emptied, order, |order|) <==> Trapped(j, fit, emptied.node, emptied.quotas, potential))
            && (OverQuota(j, end.quotas) <==> OverQuota(j, emptied.quotas))
            && (OverQuota(j, emptied.quotas) ==> SetOf(end.victims) == SetOf(potential)))
  {
    var order := OrderOf(budgets, ranked);
    GroupsPartition(budgets, ranked);
    WaitingPart(emptied, potential, order);
    AllKnownPart(j, emptied.quotas, req, potential, order);
    AllKnownPart(j, emptied.quotas, req, order, potential);
    SettledRounds(j, fit, emptied, order, |order|, req);
    WithinExactly(j, fit, emptied, order, req);
    if AllHarmless(j, emptied.quotas, potential) {
      TrappedExactly(j, fit, emptied, order, req);
      NominatedUnrelieved(j, fit, emptied, order, req);
      OrderPartitions(j, fit, emptied, potential, order);
      AllStayOff(emptied, potential, AllRounds(RulesOf(j, fit), emptied, order).victims);
    }
    VictimsFromOrder(order, potential);
    VictimsFromOrder(potential, order);
  }

  /** If the node is as empty as before, everybody is a victim. */
  lemma AllStayOff(emptied: Round, potential: seq<Pod>, victims: seq<Pod>)
    requires Waiting(emptied, potential) && forall v :: v in victims ==> v in potential
    ensures emptied.node + (SetOf(potential) - SetOf(victims)) == emptied.node ==> SetOf(victims) == SetOf(potential)
  {
    var kept := SetOf(potential) - SetOf(victims);
    assert forall p :: p in kept ==> p !in emptied.node;
    if emptied.node + kept == emptied.node {
      assert forall p :: p in kept ==> p in emptied.node + kept;
      assert kept == {};
      assert SetOf(victims) <= SetOf(potential);
    }
  }

  lemma OrderPartitions(j: Judge, fit: Fit, emptied: Round, potential: seq<Pod>, order: seq<Pod>)
    requires multiset(order) == multiset(potential)
    requires emptied == Start(emptied.node, emptied.quotas) && Waiting(emptied, order)
    ensures
      var end := AllRounds(RulesOf(j, fit), emptied, order);
      && UniqueUids(end.victims) && (forall v :: v in end.victims ==> v in potential)
      && end.node == emptied.node + (SetOf(potential) - SetOf(end.victims))
  {
    var victims := AllRounds(RulesOf(j, fit), emptied, order).victims;
    WaitingAllOff(emptied.node, emptied.quotas, order);
    AllPartition(RulesOf(j, fit), emptied.node, emptied.quotas, order);
    UniqueSub(order, victims);
    VictimsFromOrder(victims, order);
    VictimsFromOrder(order, potential);
    VictimsFromOrder(potential, order);
    assert SetOf(order) == SetOf(potential);
  }

  lemma OrderCounts(j: Judge, fit: Fit, emptied: Round, a: seq<Pod>, b: seq<Pod>)
    requires emptied == Start(emptied.node, emptied.quotas) && Waiting(emptied, a + b)
    ensures
      var misfits := AllRounds(RulesOf(j, fit), emptied, a).misfits;
      var count := SumSeq(AllRounds(RulesOf(j, fit), emptied, a + b).victims, MembersOf(a));
      misfits <= count && (misfits == count <==> !TakenByQuotaAlone(j, fit, emptied, a))
  {
    WaitingPart(emptied, a + b, a);
    WaitingAllOff(emptied.node, emptied.quotas, a);
    GroupsApart(a, b);
    MisfitsOfFirstPass(RulesOf(j, fit), emptied.node, emptied.quotas, a, b);
  }

  /** Where no quota is judged, no pod is taken by the quota test. */
  lemma FitAloneDecides(j: Judge, fit: Fit, emptied: Round, violating: seq<Pod>)
    requires !j.withQuota
    ensures !TakenByQuotaAlone(j, fit, emptied, violating)
  {
  }

  lemma GroupsApart(a: seq<Pod>, b: seq<Pod>)
    requires UniqueUids(a + b)
    ensures forall v :: v in b ==> v !in a
  {
    forall v | v in b ensures v !in a {
      assert v in a + b;
      assert multiset(a + b)[v] == multiset(a)[v] + multiset(b)[v];
    }
  }

  lemma BackOnNode(listing: seq<Pod>, potential: seq<Pod>, victims: seq<Pod>)
    requires forall p :: p in potential ==> p in listing
    requires forall v :: v in victims ==> v in potential
    ensures SetOf(listing) - SetOf(potential) + (SetOf(potential) - SetOf(victims)) == SetOf(listing) - SetOf(victims)
  {
  }
}
