/** Elastic quotas: the per-namespace usage records and the ledger they form. */
module ElasticQuota {
  import opened FrameworkResource
  import opened Options
  import opened Pods
  import opened Sums

  /** The value of one quota record. */
  datatype Quota = Quota(pods: set<string>, min: Resource, max: Resource, used: Resource)

  /** All quota records by namespace. */
  type Ledger = map<string, Quota>

  datatype Spec = Spec(min: Option<Resource>, max: Option<Resource>)

  function BoundedBy(bound: int): Resource {
    Resource(bound, bound, bound, 0, map[])
  }

  function MinOf(spec: Spec): Resource {
    if spec.min.Some? then spec.min.value else BoundedBy(LOWER_BOUND_OF_MIN)
  }

  function MaxOf(spec: Spec): Resource {
    if spec.max.Some? then spec.max.value else BoundedBy(UPPER_BOUND_OF_MAX)
  }

  predicate UsedOverMin(q: Quota) {
    Cmp(q.used, q.min, LOWER_BOUND_OF_MIN)
  }

  predicate UsedOverMinWith(q: Quota, request: Resource) {
    Cmp2(request, q.used, q.min, LOWER_BOUND_OF_MIN)
  }

  predicate UsedOverMaxWith(q: Quota, request: Resource) {
    Cmp2(request, q.used, q.max, UPPER_BOUND_OF_MAX)
  }

  ghost function UsedIn(l: Ledger, d: Dim): string -> int {
    (ns: string) => if ns in l then Amount(l[ns].used, d) else 0
  }

  ghost function MinIn(l: Ledger, d: Dim): string -> int {
    (ns: string) => if ns in l then Amount(l[ns].min, d) else 0
  }

  /** Some quota's usage names the scalar. */
  ghost predicate Names(l: Ledger, k: string) {
    exists ns :: ns in l && k in l[ns].used.scalars
  }

  /** A dimension is looked at when it is native or a scalar that the request or some quota's usage names. */
  ghost predicate LookedAt(l: Ledger, request: Resource, d: Dim) {
    d.Scalar? ==> d.name in request.scalars || Names(l, d.name)
  }

  /** All minima together. */
  ghost function MinTotal(l: Ledger, d: Dim): int {
    SumSet(l.Keys, MinIn(l, d))
  }

  ghost predicate TotalOverMin(l: Ledger, request: Resource, d: Dim) {
    SumSet(l.Keys, UsedIn(l, d)) + Amount(request, d) > MinTotal(l, d)
  }

  /** All quotas together use, with the request added, more of some dimension than all their minima. */
  ghost predicate AggregatedUsedOverMinWith(l: Ledger, request: Resource) {
    exists d :: LookedAt(l, request, d) && TotalOverMin(l, request, d)
  }

  // ---- the ledger under pod charges ----

  /** Pods without a uid have no key and are never recorded. */
  ghost function WithPod(l: Ledger, p: Pod): Ledger {
    if p.namespace in l && p.uid != "" && p.uid !in l[p.namespace].pods then
      var q := l[p.namespace];
      l[p.namespace := q.(pods := q.pods + {p.uid}, used := Plus(q.used, PodRequest(p)))]
    else l
  }

  ghost function WithoutPod(l: Ledger, p: Pod): Ledger {
    if p.namespace in l && p.uid != "" && p.uid in l[p.namespace].pods then
      var q := l[p.namespace];
      l[p.namespace := q.(pods := q.pods - {p.uid}, used := Minus(q.used, PodRequest(p)))]
    else l
  }

  /** What each pod key requests; a pod's request does not change while it is recorded. */
  type Requests = string -> Resource

  ghost function RequestIn(req: Requests, d: Dim): string -> int {
    (uid: string) => Amount(req(uid), d)
  }

  ghost predicate Agrees(req: Requests, p: Pod) {
    req(p.uid) == PodRequest(p) && NonNegative(req(p.uid))
  }

  /** A record is balanced when its usage is the sum of the requests of exactly the pods it lists, and names what they name. */
  ghost predicate QuotaBalanced(q: Quota, req: Requests) {
    && (forall d :: Amount(q.used, d) == SumSet(q.pods, RequestIn(req, d)))
    && (forall uid :: uid in q.pods ==> NonNegative(req(uid)) && req(uid).scalars.Keys <= q.used.scalars.Keys)
  }

  ghost predicate Balanced(l: Ledger, req: Requests) {
    forall ns :: ns in l ==> QuotaBalanced(l[ns], req)
  }

  ghost predicate MinNonNegative(l: Ledger) {
    forall ns :: ns in l ==> NonNegative(l[ns].min)
  }

  lemma WithPodBalanced(l: Ledger, p: Pod, req: Requests)
    requires Balanced(l, req) && Agrees(req, p)
    ensures Balanced(WithPod(l, p), req)
  {
    var l' := WithPod(l, p);
    if l' != l {
      var q := l[p.namespace];
      forall d ensures Amount(l'[p.namespace].used, d) == SumSet(l'[p.namespace].pods, RequestIn(req, d)) {
        SumSetInsert(q.pods, p.uid, RequestIn(req, d));
      }
      assert QuotaBalanced(l'[p.namespace], req);
    }
  }

  lemma WithoutPodBalanced(l: Ledger, p: Pod, req: Requests)
    requires Balanced(l, req) && Agrees(req, p)
    ensures Balanced(WithoutPod(l, p), req)
  {
    var l' := WithoutPod(l, p);
    if l' != l {
      var q := l[p.namespace];
      forall d ensures Amount(l'[p.namespace].used, d) == SumSet(l'[p.namespace].pods, RequestIn(req, d)) {
        SumSetPick(q.pods, p.uid, RequestIn(req, d));
      }
      assert QuotaBalanced(l'[p.namespace], req);
    }
  }

  /** A balanced record never shows negative usage. */
  lemma BalancedNonNegative(q: Quota, req: Requests)
    requires QuotaBalanced(q, req)
    ensures NonNegative(q.used)
  {
    forall d ensures 0 <= Amount(q.used, d) {
      SumSetNonNegative(q.pods, RequestIn(req, d));
    }
  }

  /** Same quotas with the same limits, listing no more pods. */
  ghost predicate Below(l: Ledger, m: Ledger) {
    && l.Keys == m.Keys
    && forall ns :: ns in l ==> l[ns].min == m[ns].min && l[ns].max == m[ns].max && l[ns].pods <= m[ns].pods
  }

  /** Every usage of m names the scalars the same usage of l names. */
  ghost predicate NamesWithin(l: Ledger, m: Ledger) {
    forall ns :: ns in l && ns in m ==> l[ns].used.scalars.Keys <= m[ns].used.scalars.Keys
  }

  lemma BelowUsed(l: Ledger, m: Ledger, req: Requests, ns: string, d: Dim)
    requires Below(l, m) && Balanced(l, req) && Balanced(m, req) && ns in l
    ensures Amount(l[ns].used, d) <= Amount(m[ns].used, d)
  {
    assert QuotaBalanced(m[ns], req);
    assert QuotaBalanced(l[ns], req);
    SumSetSubset(l[ns].pods, m[ns].pods, RequestIn(req, d));
  }

  /** A scalar nobody names is not used. */
  lemma UnnamedIsUnused(l: Ledger, k: string)
    requires !Names(l, k)
    ensures SumSet(l.Keys, UsedIn(l, Scalar(k))) == 0
  {
    SumSetEq(l.Keys, UsedIn(l, Scalar(k)), (ns: string) => 0);
    SumZero(l.Keys);
  }

  lemma {:induction false} SumZero(s: set<string>)
    ensures SumSet(s, (ns: string) => 0) == 0
    decreases |s|
  {
    if s != {} {
      var x :| x in s;
      SumSetPick(s, x, (ns: string) => 0);
      SumZero(s - {x});
    }
  }

  /** Against minima that are not negative no exceeded dimension goes unnoticed. */
  lemma OverMinIsSeen(l: Ledger, request: Resource, d: Dim)
    requires MinTotal(l, d) >= 0 && TotalOverMin(l, request, d)
    ensures AggregatedUsedOverMinWith(l, request)
  {
    if !LookedAt(l, request, d) {
      UnnamedIsUnused(l, d.name);
    }
  }

  /** Whatever l names beyond m and the given names has a summed minimum that is not negative. */
  ghost predicate NoNewNegative(l: Ledger, m: Ledger, known: set<string>) {
    forall k :: Names(l, k) ==> Names(m, k) || k in known || MinTotal(l, Scalar(k)) >= 0
  }

  lemma NamesWithinSuffices(l: Ledger, m: Ledger, known: set<string>)
    requires l.Keys == m.Keys && NamesWithin(l, m)
    ensures NoNewNegative(l, m, known)
  {
  }

  /** Fewer recorded pods never turn a satisfied limit into an exceeded one, unless by naming a scalar with a negative minimum. */
  lemma BelowOver(l: Ledger, m: Ledger, req: Requests, ns: string, request: Resource)
    requires Below(l, m) && Balanced(l, req) && Balanced(m, req)
    ensures ns in l && UsedOverMaxWith(l[ns], request) ==> UsedOverMaxWith(m[ns], request)
    ensures NamesWithin(l, m) && ns in l && UsedOverMin(l[ns]) ==> UsedOverMin(m[ns])
    ensures NoNewNegative(l, m, request.scalars.Keys) && AggregatedUsedOverMinWith(l, request) ==>
      AggregatedUsedOverMinWith(m, request)
  {
    forall n, d | n in l ensures Amount(l[n].used, d) <= Amount(m[n].used, d) {
      BelowUsed(l, m, req, n, d);
    }
    if ns in l && UsedOverMaxWith(l[ns], request) {
      Cmp2Monotone(request, l[ns].used, request, m[ns].used, l[ns].max, UPPER_BOUND_OF_MAX);
    }
    if ns in l && UsedOverMin(l[ns]) && NamesWithin(l, m) {
      Cmp2Monotone(l[ns].used, ZERO, m[ns].used, ZERO, l[ns].min, LOWER_BOUND_OF_MIN);
    }
    if AggregatedUsedOverMinWith(l, request) && NoNewNegative(l, m, request.scalars.Keys) {
      BelowTotal(l, m, request);
    }
  }

  lemma BelowTotal(l: Ledger, m: Ledger, request: Resource)
    requires Below(l, m) && NoNewNegative(l, m, request.scalars.Keys) && AggregatedUsedOverMinWith(l, request)
    requires forall n, d :: n in l ==> Amount(l[n].used, d) <= Amount(m[n].used, d)
    ensures AggregatedUsedOverMinWith(m, request)
  {
    var d :| LookedAt(l, request, d) && TotalOverMin(l, request, d);
    SumSetLeq(l.Keys, UsedIn(l, d), UsedIn(m, d));
    SumSetEq(l.Keys, MinIn(l, d), MinIn(m, d));
    if !LookedAt(m, request, d) {
      OverMinIsSeen(m, request, d);
    } else {
      assert LookedAt(m, request, d) && TotalOverMin(m, request, d);
    }
  }

  /** A smaller request exceeds no limit a larger one respects. */
  lemma SmallerRequest(l: Ledger, ns: string, small: Resource, large: Resource)
    requires ns in l
    requires small.scalars.Keys <= large.scalars.Keys
    requires forall d :: Amount(small, d) <= Amount(large, d)
    ensures UsedOverMaxWith(l[ns], small) ==> UsedOverMaxWith(l[ns], large)
    ensures AggregatedUsedOverMinWith(l, small) ==> AggregatedUsedOverMinWith(l, large)
  {
    if UsedOverMaxWith(l[ns], small) {
      Cmp2Monotone(small, l[ns].used, large, l[ns].used, l[ns].max, UPPER_BOUND_OF_MAX);
    }
    if d :| LookedAt(l, small, d) && TotalOverMin(l, small, d) {
      assert LookedAt(l, large, d) && TotalOverMin(l, large, d);
    }
  }

  // ---- the mutable records ----

  class ElasticQuotaInfo {
    const namespace: string
    var pods: set<string>
    var min: Resource
    var max: Resource
    var used: Resource

    ghost function Value(): Quota
      reads this
    {
      Quota(pods, min, max, used)
    }

    constructor (namespace: string, spec: Spec)
      ensures this.namespace == namespace
      ensures Value() == Quota({}, MinOf(spec), MaxOf(spec), ZERO)
    {
      this.namespace := namespace;
      pods, min, max, used := {}, MinOf(spec), MaxOf(spec), ZERO;
    }

    method ReserveResource(request: Resource)
      modifies this`used
      ensures used == Plus(old(used), request)
    {
      var start := used;
      used := used.(memory := used.memory + request.memory, milliCPU := used.milliCPU + request.milliCPU,
                    ephemeralStorage := used.ephemeralStorage + request.ephemeralStorage,
                    allowedPodNumber := used.allowedPodNumber + request.allowedPodNumber);
      var todo := request.scalars.Keys;
      while todo != {}
        invariant todo <= request.scalars.Keys
        invariant used == Plus(start, request).(scalars := used.scalars)
        invariant used.scalars.Keys == start.scalars.Keys + (request.scalars.Keys - todo)
        invariant forall k :: k in used.scalars ==>
          used.scalars[k] == Get(start.scalars, k) + if k in todo then 0 else Get(request.scalars, k)
        decreases todo
      {
        var name :| name in todo;
        used := used.(scalars := used.scalars[name := Get(used.scalars, name) + request.scalars[name]]);
        todo := todo - {name};
      }
      assert used.scalars == Plus(start, request).scalars;
    }

    method UnreserveResource(request: Resource)
      modifies this`used
      ensures used == Minus(old(used), request)
    {
      var start := used;
      used := used.(memory := used.memory - request.memory, milliCPU := used.milliCPU - request.milliCPU,
                    ephemeralStorage := used.ephemeralStorage - request.ephemeralStorage,
                    allowedPodNumber := used.allowedPodNumber - request.allowedPodNumber);
      var todo := request.scalars.Keys;
      while todo != {}
        invariant todo <= request.scalars.Keys
        invariant used == Minus(start, request).(scalars := used.scalars)
        invariant used.scalars.Keys == start.scalars.Keys + (request.scalars.Keys - todo)
        invariant forall k :: k in used.scalars ==>
          used.scalars[k] == Get(start.scalars, k) - if k in todo then 0 else Get(request.scalars, k)
        decreases todo
      {
        var name :| name in todo;
        used := used.(scalars := used.scalars[name := Get(used.scalars, name) - request.scalars[name]]);
        todo := todo - {name};
      }
      assert used.scalars == Minus(start, request).scalars;
    }

    /** A deep copy: later changes to either record leave the other alone. */
    method Clone() returns (copy: ElasticQuotaInfo)
      ensures fresh(copy)
      ensures copy.Value() == Value()
    {
      copy := new ElasticQuotaInfo(namespace, Spec(Some(min), Some(max)));
      copy.used := used;
      copy.pods := pods;
    }

    /** False when the pod has no key. */
    method AddPodIfNotPresent(pod: Pod) returns (ok: bool)
      modifies this
      ensures ok == (pod.uid != "")
      ensures Value() == WithPod(map[pod.namespace := old(Value())], pod)[pod.namespace]
    {
      if pod.uid == "" {
        return false;
      }
      if pod.uid in pods {
        return true;
      }
      pods := pods + {pod.uid};
      var request := ComputePodResourceRequest(pod);
      ReserveResource(request);
      return true;
    }

    method DeletePodIfPresent(pod: Pod) returns (ok: bool)
      modifies this
      ensures ok == (pod.uid != "")
      ensures Value() == WithoutPod(map[pod.namespace := old(Value())], pod)[pod.namespace]
    {
      if pod.uid == "" {
        return false;
      }
      if pod.uid !in pods {
        return true;
      }
      pods := pods - {pod.uid};
      var request := ComputePodResourceRequest(pod);
      UnreserveResource(request);
      return true;
    }
  }

  type Infos = map<string, ElasticQuotaInfo>

  /** No two namespaces share a record. */
  ghost predicate Separate(infos: Infos) {
    forall a, b :: a in infos && b in infos && a != b ==> infos[a] != infos[b]
  }

  ghost function ViewOf(infos: Infos): Ledger
    reads infos.Values
  {
    map ns | ns in infos :: infos[ns].Value()
  }

  /** Deep copy of every record. */
  method CloneInfos(infos: Infos) returns (copies: Infos)
    ensures copies.Keys == infos.Keys
    ensures Separate(copies)
    ensures forall ns :: ns in copies ==> fresh(copies[ns])
    ensures ViewOf(copies) == ViewOf(infos)
  {
    copies := map[];
    var todo := infos.Keys;
    while todo != {}
      invariant todo <= infos.Keys
      invariant copies.Keys == infos.Keys - todo
      invariant Separate(copies)
      invariant forall ns :: ns in copies ==> fresh(copies[ns])
      invariant forall ns :: ns in copies ==> copies[ns].Value() == infos[ns].Value()
      decreases todo
    {
      var ns :| ns in todo;
      var copy := infos[ns].Clone();
      copies := copies[ns := copy];
      todo := todo - {ns};
    }
  }

  /** The names a sum over some of the quotas has seen. */
  ghost predicate NamesSeen(sum: Resource, l: Ledger, some: set<string>) {
    forall k :: k in sum.scalars <==> exists ns :: ns in some && ns in l && k in l[ns].used.scalars
  }

  /** Sums usage and minima over the quotas, whichever order they come in, then compares. */
  method AggregatedOverMin(infos: Infos, request: Resource) returns (over: bool)
    ensures over == AggregatedUsedOverMinWith(ViewOf(infos), request)
  {
    ghost var l := ViewOf(infos);
    var used, min := ZERO, ZERO;
    var todo := infos.Keys;
    while todo != {}
      invariant todo <= infos.Keys
      invariant forall d :: Amount(used, d) == SumSet(infos.Keys - todo, UsedIn(l, d))
      invariant forall d :: Amount(min, d) == SumSet(infos.Keys - todo, MinIn(l, d))
      invariant NamesSeen(used, l, infos.Keys - todo)
      decreases todo
    {
      var ns :| ns in todo;
      assert infos.Keys - (todo - {ns}) == (infos.Keys - todo) + {ns};
      forall d
        ensures SumSet(infos.Keys - (todo - {ns}), UsedIn(l, d))
                == SumSet(infos.Keys - todo, UsedIn(l, d)) + Amount(infos[ns].used, d)
        ensures SumSet(infos.Keys - (todo - {ns}), MinIn(l, d))
                == SumSet(infos.Keys - todo, MinIn(l, d)) + Amount(infos[ns].min, d)
      {
        SumSetInsert(infos.Keys - todo, ns, UsedIn(l, d));
        SumSetInsert(infos.Keys - todo, ns, MinIn(l, d));
      }
      NamesSeenNext(used, l, infos.Keys - todo, ns);
      used := Plus(used, infos[ns].used);
      min := Plus(min, infos[ns].min);
      todo := todo - {ns};
    }
    assert infos.Keys - todo == l.Keys;
    used := Plus(used, request);
    over := Cmp(used, min, LOWER_BOUND_OF_MIN);
    ComparesTotals(l, request, used, min);
  }

  lemma NamesSeenNext(sum: Resource, l: Ledger, some: set<string>, ns: string)
    requires NamesSeen(sum, l, some) && ns in l
    ensures NamesSeen(Plus(sum, l[ns].used), l, some + {ns})
  {
  }

  lemma ComparesTotals(l: Ledger, request: Resource, used: Resource, min: Resource)
    requires forall d :: Amount(used, d) == SumSet(l.Keys, UsedIn(l, d)) + Amount(request, d)
    requires forall d :: Amount(min, d) == SumSet(l.Keys, MinIn(l, d))
    requires forall d :: Compared(used, d) <==> LookedAt(l, request, d)
    ensures Cmp(used, min, LOWER_BOUND_OF_MIN) == AggregatedUsedOverMinWith(l, request)
  {
    Cmp2Meaning(used, ZERO, min, LOWER_BOUND_OF_MIN);
    if d :| Compared(used, d) && Amount(used, d) + Amount(ZERO, d) > Limit(min, d, LOWER_BOUND_OF_MIN) {
      assert LookedAt(l, request, d) && TotalOverMin(l, request, d);
    }
    if d :| LookedAt(l, request, d) && TotalOverMin(l, request, d) {
      assert Compared(used, d) && Amount(used, d) + Amount(ZERO, d) > Limit(min, d, LOWER_BOUND_OF_MIN);
    }
  }
}
