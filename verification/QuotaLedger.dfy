/** The capacity plugin's live ledger under scheduling and informer events. */
module QuotaLedger {
  import opened FrameworkResource
  import opened Options
  import opened Pods
  import opened ElasticQuota

  /**
   What reaches the plugin. PodAdded carries the quota the API server lists for the pod's namespace and whether
   the pod is running or pending, which the handler does not look at. PodUpdated says whether the old pod had
   finished and whether the new one is running or pending. A quota object never changes namespace.
   */
  datatype Event =
    | Reserve(pod: Pod)
    | Unreserve(pod: Pod)
    | PodAdded(pod: Pod, listed: Option<Spec>, isActive: bool)
    | PodUpdated(pod: Pod, wasFinished: bool, isActive: bool)
    | PodDeleted(pod: Pod)
    | QuotaAdded(namespace: string, spec: Spec)
    | QuotaUpdated(namespace: string, spec: Spec)
    | QuotaDeleted(namespace: string)

  ghost function Fresh(spec: Spec): Quota {
    Quota({}, MinOf(spec), MaxOf(spec), ZERO)
  }

  ghost function Apply(l: Ledger, e: Event): Ledger {
    match e
    case Reserve(p) => WithPod(l, p)
    case Unreserve(p) => WithoutPod(l, p)
    case PodAdded(p, listed, _) =>
      if p.namespace in l then WithPod(l, p)
      else if listed.Some? then WithPod(l[p.namespace := Fresh(listed.value)], p)
      else l
    case PodUpdated(p, wasFinished, isActive) =>
      if wasFinished || isActive then l else WithoutPod(l, p)
    case PodDeleted(p) => WithoutPod(l, p)
    case QuotaAdded(ns, spec) => if ns in l then l else l[ns := Fresh(spec)]
    case QuotaUpdated(ns, spec) =>
      if ns in l then l[ns := l[ns].(min := MinOf(spec), max := MaxOf(spec))] else l[ns := Fresh(spec)]
    case QuotaDeleted(ns) => l - {ns}
  }

  ghost function Run(l: Ledger, events: seq<Event>): Ledger {
    if events == [] then l else Apply(Run(l, events[..|events| - 1]), events[|events| - 1])
  }

  ghost predicate About(e: Event, p: Pod) {
    && (e.Reserve? || e.Unreserve? || e.PodAdded? || e.PodUpdated? || e.PodDeleted?)
    && e.pod == p
  }

  /** Every event shows a pod with the one request its key stands for. */
  ghost predicate StableRequests(events: seq<Event>, req: Requests) {
    forall e, p :: e in events && About(e, p) ==> Agrees(req, p)
  }

  lemma ApplyBalanced(l: Ledger, e: Event, req: Requests)
    requires Balanced(l, req)
    requires forall p :: About(e, p) ==> Agrees(req, p)
    ensures Balanced(Apply(l, e), req)
  {
    match e
    case Reserve(p) => assert About(e, p); WithPodBalanced(l, p, req);
    case Unreserve(p) => assert About(e, p); WithoutPodBalanced(l, p, req);
    case PodAdded(p, listed, _) =>
      assert About(e, p);
      if p.namespace in l {
        WithPodBalanced(l, p, req);
      } else if listed.Some? {
        WithPodBalanced(l[p.namespace := Fresh(listed.value)], p, req);
      }
    case PodUpdated(p, wasFinished, isActive) => assert About(e, p); WithoutPodBalanced(l, p, req);
    case PodDeleted(p) => assert About(e, p); WithoutPodBalanced(l, p, req);
    case QuotaAdded(ns, spec) =>
    case QuotaUpdated(ns, spec) =>
    case QuotaDeleted(ns) =>
  }

  /**
   In every run, each quota's usage is the sum of the requests of exactly the pods it lists: nothing is
   counted twice, nothing is lost and usage is never negative.
   */
  lemma {:induction false} LedgerAlwaysBalanced(events: seq<Event>, req: Requests)
    requires StableRequests(events, req)
    ensures Balanced(Run(map[], events), req)
    ensures forall ns :: ns in Run(map[], events) ==> NonNegative(Run(map[], events)[ns].used)
    decreases |events|
  {
    if events != [] {
      var before, last := events[..|events| - 1], events[|events| - 1];
      LedgerAlwaysBalanced(before, req);
      ApplyBalanced(Run(map[], before), last, req);
    }
    var l := Run(map[], events);
    forall ns | ns in l ensures NonNegative(l[ns].used) {
      BalancedNonNegative(l[ns], req);
    }
  }

  /** Reserving and then unreserving a pod its quota did not list leaves every usage as it was. */
  lemma UnreserveUndoesReserve(l: Ledger, p: Pod, ns: string, d: Dim)
    requires p.namespace in l ==> p.uid !in l[p.namespace].pods
    ensures
      var l' := Apply(Apply(l, Reserve(p)), Unreserve(p));
      && l'.Keys == l.Keys
      && (ns in l ==> l'[ns].pods == l[ns].pods && Amount(l'[ns].used, d) == Amount(l[ns].used, d))
  {
    var l1 := Apply(l, Reserve(p));
    if p.namespace in l && p.uid != "" {
      assert p.uid in l1[p.namespace].pods;
      assert l1[p.namespace].pods - {p.uid} == l[p.namespace].pods;
    }
  }

  // ---- limits ----

  /** The spec an event gives a namespace: updates always do, additions only where there is no record yet. */
  ghost function GivenSpec(l: Ledger, e: Event, ns: string): Option<Spec> {
    if e.QuotaUpdated? && e.namespace == ns then Some(e.spec)
    else if ns in l then None
    else if e.QuotaAdded? && e.namespace == ns then Some(e.spec)
    else if e.PodAdded? && e.pod.namespace == ns then e.listed
    else None
  }

  ghost function GivenAt(events: seq<Event>, k: nat, ns: string): Option<Spec>
    requires k < |events|
  {
    GivenSpec(Run(map[], events[..k]), events[k], ns)
  }

  ghost predicate LeftAlone(events: seq<Event>, k: nat, ns: string)
    requires k < |events|
  {
    GivenAt(events, k, ns).None? && events[k] != QuotaDeleted(ns)
  }

  /** The event at k is the last one to give the namespace a spec, and its quota was not deleted since. */
  ghost predicate LastGiven(events: seq<Event>, k: nat, ns: string, spec: Spec) {
    && k < |events|
    && GivenAt(events, k, ns) == Some(spec)
    && forall j :: k < j < |events| ==> LeftAlone(events, j, ns)
  }

  /** The quota's limits are the ones the spec names; where it names none, nothing is guaranteed or nothing is capped. */
  ghost predicate LimitedBy(q: Quota, spec: Spec) {
    && (match spec.min
        case Some(m) => q.min == m
        case None => q.min.scalars == map[] && forall d: Dim :: Amount(q.min, d) == 0)
    && (match spec.max
        case Some(m) => q.max == m
        case None => q.max.scalars == map[]
                     && q.max.milliCPU == q.max.memory == q.max.ephemeralStorage == MAX_INT64)
  }

  lemma StepLimits(l: Ledger, e: Event, ns: string)
    ensures GivenSpec(l, e, ns).Some? ==> ns in Apply(l, e) && LimitedBy(Apply(l, e)[ns], GivenSpec(l, e, ns).value)
    ensures e == QuotaDeleted(ns) ==> ns !in Apply(l, e)
    ensures GivenSpec(l, e, ns).None? && e != QuotaDeleted(ns) ==>
      && (ns in Apply(l, e) <==> ns in l)
      && (ns in l ==> Apply(l, e)[ns].min == l[ns].min && Apply(l, e)[ns].max == l[ns].max)
  {
  }

  lemma EarlierGiven(events: seq<Event>, j: nat, ns: string)
    requires j < |events| - 1
    ensures GivenAt(events[..|events| - 1], j, ns) == GivenAt(events, j, ns)
    ensures LeftAlone(events[..|events| - 1], j, ns) <==> LeftAlone(events, j, ns)
  {
    assert events[..|events| - 1][..j] == events[..j];
  }

  /** The last given spec is the one just given, or the one before if it is left alone. */
  lemma LastGivenNext(events: seq<Event>, k: nat, ns: string, spec: Spec)
    requires events != []
    ensures
      var n := |events| - 1;
      LastGiven(events, k, ns, spec)
      <==> if k == n then GivenAt(events, n, ns) == Some(spec) else LastGiven(events[..n], k, ns, spec) && LeftAlone(events, n, ns)
  {
    var n := |events| - 1;
    if k < n {
      EarlierGiven(events, k, ns);
      forall j | k < j < n ensures LeftAlone(events[..n], j, ns) <==> LeftAlone(events, j, ns) {
        EarlierGiven(events, j, ns);
      }
      if LastGiven(events[..n], k, ns, spec) && LeftAlone(events, n, ns) {
        forall j | k < j < |events| ensures LeftAlone(events, j, ns) {
          assert j < n ==> LeftAlone(events[..n], j, ns);
        }
      }
    }
  }

  /**
   After every run a namespace has a quota exactly if some event gave it a spec and none deleted it since, and the
   limits enforced are those of the last spec given: neither pods nor a second addition change them.
   */
  lemma {:induction false} LimitsOfLastSpec(events: seq<Event>, ns: string)
    ensures ns in Run(map[], events) <==> exists k: nat, spec :: LastGiven(events, k, ns, spec)
    ensures forall k: nat, spec :: LastGiven(events, k, ns, spec) ==> LimitedBy(Run(map[], events)[ns], spec)
    decreases |events|
  {
    if events != [] {
      var n := |events| - 1;
      LimitsOfLastSpec(events[..n], ns);
      StepLimits(Run(map[], events[..n]), events[n], ns);
      forall k: nat, spec
        ensures
          LastGiven(events, k, ns, spec)
          <==> if k == n then GivenAt(events, n, ns) == Some(spec) else LastGiven(events[..n], k, ns, spec) && LeftAlone(events, n, ns)
      {
        LastGivenNext(events, k, ns, spec);
      }
      if GivenAt(events, n, ns).Some? {
        assert LastGiven(events, n, ns, GivenAt(events, n, ns).value);
      }
    }
  }

  // ---- usage against the pods that really are active ----

  /** The pods of each namespace, by uid, that hold resources: reserved ones, and running or pending ones. */
  type Active = map<string, set<string>>

  ghost function In(a: Active, ns: string): set<string> {
    if ns in a then a[ns] else {}
  }

  ghost function With(a: Active, p: Pod, isActive: bool): Active {
    a[p.namespace := if isActive && p.uid != "" then In(a, p.namespace) + {p.uid} else In(a, p.namespace) - {p.uid}]
  }

  /** What an event says about a pod, whatever the plugin makes of it: its phase decides. */
  ghost function Happen(a: Active, e: Event): Active {
    match e
    case Reserve(p) => With(a, p, true)
    case Unreserve(p) => With(a, p, false)
    case PodAdded(p, _, isActive) => With(a, p, isActive)
    case PodUpdated(p, _, isActive) => With(a, p, isActive)
    case PodDeleted(p) => With(a, p, false)
    case _ => a
  }

  /** Every quota lists exactly the active pods of its namespace. */
  ghost predicate Complete(l: Ledger, a: Active) {
    && (forall ns :: ns in l ==> l[ns].pods == In(a, ns))
    && (forall ns :: "" !in In(a, ns))
  }

  /** The event creates a quota's record while its namespace has active pods the event does not bring along. */
  ghost predicate CreatedLate(l: Ledger, a: Active, e: Event) {
    match e
    case QuotaAdded(ns, _) => ns !in l && In(a, ns) != {}
    case QuotaUpdated(ns, _) => ns !in l && In(a, ns) != {}
    case PodAdded(p, listed, _) => p.namespace !in l && listed.Some? && In(a, p.namespace) - {p.uid} != {}
    case _ => false
  }

  /** A pod that has finished already is added, as at start-up, and charged all the same. */
  ghost predicate FinishedAdded(l: Ledger, e: Event) {
    e.PodAdded? && !e.isActive && e.pod.uid != "" && (e.pod.namespace in l || e.listed.Some?)
  }

  /** An update finds a pod active that its quota does not list; updates add nothing. */
  ghost predicate ActiveUnlisted(l: Ledger, e: Event) {
    && e.PodUpdated? && e.isActive && e.pod.uid != ""
    && e.pod.namespace in l && e.pod.uid !in l[e.pod.namespace].pods
  }

  /** An update of a pod that had finished before finds it listed; such updates release nothing. */
  ghost predicate FinishedListed(l: Ledger, e: Event) {
    && e.PodUpdated? && e.wasFinished && !e.isActive
    && e.pod.namespace in l && e.pod.uid in l[e.pod.namespace].pods
  }

  ghost predicate GoesWrong(l: Ledger, a: Active, e: Event) {
    CreatedLate(l, a, e) || FinishedAdded(l, e) || ActiveUnlisted(l, e) || FinishedListed(l, e)
  }

  lemma StepComplete(l: Ledger, a: Active, e: Event)
    requires Complete(l, a)
    ensures Complete(Apply(l, e), Happen(a, e)) <==> !GoesWrong(l, a, e)
  {
    var l', a' := Apply(l, e), Happen(a, e);
    forall ns ensures "" !in In(a', ns) {
      assert "" !in In(a, ns);
    }
    if GoesWrong(l, a, e) {
      var ns := if e.PodAdded? || e.PodUpdated? then e.pod.namespace else e.namespace;
      assert ns in l' && l'[ns].pods != In(a', ns);
    } else {
      forall ns | ns in l' ensures l'[ns].pods == In(a', ns) {
        if ns in l {
          assert l[ns].pods == In(a, ns);
        }
      }
    }
  }

  ghost function ActiveAfter(events: seq<Event>): Active {
    if events == [] then map[] else Happen(ActiveAfter(events[..|events| - 1]), events[|events| - 1])
  }

  ghost predicate AlwaysComplete(events: seq<Event>) {
    && Complete(Run(map[], events), ActiveAfter(events))
    && (events != [] ==> AlwaysComplete(events[..|events| - 1]))
  }

  ghost predicate NeverGoesWrong(events: seq<Event>) {
    events != [] ==>
      && !GoesWrong(Run(map[], events[..|events| - 1]), ActiveAfter(events[..|events| - 1]), events[|events| - 1])
      && NeverGoesWrong(events[..|events| - 1])
  }

  /**
   Quotas list exactly the active pods of their namespaces, at every point of a run, if and only if none of four
   things ever happens: a quota is created after pods of its namespace became active, a finished pod is added, an
   unlisted pod is updated to be active, or a pod finished before is updated while still listed.
   */
  lemma {:induction false} UsageComplete(events: seq<Event>)
    ensures AlwaysComplete(events) <==> NeverGoesWrong(events)
    decreases |events|
  {
    if events != [] {
      var before, e := events[..|events| - 1], events[|events| - 1];
      UsageComplete(before);
      if AlwaysComplete(before) {
        StepComplete(Run(map[], before), ActiveAfter(before), e);
      }
    }
  }

  ghost predicate Lists(events: seq<Event>, p: Pod) {
    p.namespace in Run(map[], events) && p.uid in Run(map[], events)[p.namespace].pods
  }

  ghost predicate IsActive(events: seq<Event>, p: Pod) {
    p.uid in In(ActiveAfter(events), p.namespace)
  }

  lemma RunNext(events: seq<Event>, e: Event)
    ensures Run(map[], events + [e]) == Apply(Run(map[], events), e)
    ensures ActiveAfter(events + [e]) == Happen(ActiveAfter(events), e)
  {
    assert (events + [e])[..|events|] == events;
  }

  /** A quota that appears after a pod started never lists it. */
  lemma LateQuotaMissesPod(p: Pod, spec: Spec)
    requires p.uid != ""
    ensures
      var events := [PodAdded(p, None, true), QuotaAdded(p.namespace, spec)];
      IsActive(events, p) && p.namespace in Run(map[], events) && !Lists(events, p)
  {
    RunNext([], PodAdded(p, None, true));
    RunNext([PodAdded(p, None, true)], QuotaAdded(p.namespace, spec));
    assert [] + [PodAdded(p, None, true)] == [PodAdded(p, None, true)];
    assert [PodAdded(p, None, true)] + [QuotaAdded(p.namespace, spec)] == [PodAdded(p, None, true), QuotaAdded(p.namespace, spec)];
  }

  lemma AfterAdding(p: Pod, spec: Spec, isActive: bool)
    requires p.uid != ""
    ensures
      var events := [QuotaAdded(p.namespace, spec), PodAdded(p, None, isActive)];
      Lists(events, p) && (IsActive(events, p) <==> isActive)
  {
    var a, b := QuotaAdded(p.namespace, spec), PodAdded(p, None, isActive);
    RunNext([], a);
    RunNext([a], b);
    assert [] + [a] == [a] && [a] + [b] == [a, b];
  }

  lemma AfterUpdate(events: seq<Event>, p: Pod, wasFinished: bool, isActive: bool)
    requires p.uid != "" && p.namespace in Run(map[], events)
    ensures
      var more := events + [PodUpdated(p, wasFinished, isActive)];
      && p.namespace in Run(map[], more)
      && (Lists(more, p) <==> Lists(events, p) && (wasFinished || isActive))
      && (IsActive(more, p) <==> isActive)
  {
    RunNext(events, PodUpdated(p, wasFinished, isActive));
  }

  /** A pod that finished before the plugin started is charged, and its further updates do not release it. */
  lemma FinishedPodIsCharged(p: Pod, spec: Spec)
    requires p.uid != ""
    ensures
      var events := [QuotaAdded(p.namespace, spec), PodAdded(p, None, false)] + [PodUpdated(p, true, false)];
      !IsActive(events, p) && Lists(events, p)
  {
    AfterAdding(p, spec, false);
    AfterUpdate([QuotaAdded(p.namespace, spec), PodAdded(p, None, false)], p, true, false);
  }

  /** A pod that leaves the active phases and comes back is not listed again. */
  lemma ReturningPodIsMissed(p: Pod, spec: Spec)
    requires p.uid != ""
    ensures
      var events := [QuotaAdded(p.namespace, spec), PodAdded(p, None, true)] + [PodUpdated(p, false, false)] + [PodUpdated(p, false, true)];
      IsActive(events, p) && p.namespace in Run(map[], events) && !Lists(events, p)
  {
    var start := [QuotaAdded(p.namespace, spec), PodAdded(p, None, true)];
    AfterAdding(p, spec, true);
    AfterUpdate(start, p, false, false);
    AfterUpdate(start + [PodUpdated(p, false, false)], p, false, true);
  }

  class CapacityScheduling {
    var infos: Infos

    ghost predicate Valid()
      reads this
    {
      Separate(infos)
    }

    ghost function View(): Ledger
      reads this, infos.Values
    {
      ViewOf(infos)
    }

    constructor ()
      ensures Valid() && View() == map[]
    {
      infos := map[];
    }

    method AddPodTo(pod: Pod) returns (ok: bool)
      requires Valid()
      modifies infos.Values
      ensures View() == WithPod(old(View()), pod)
      ensures ok == (pod.namespace !in infos || pod.uid != "")
    {
      ok := true;
      if pod.namespace in infos {
        ok := infos[pod.namespace].AddPodIfNotPresent(pod);
      }
    }

    method RemovePodFrom(pod: Pod)
      requires Valid()
      modifies infos.Values
      ensures View() == WithoutPod(old(View()), pod)
    {
      if pod.namespace in infos {
        var _ := infos[pod.namespace].DeletePodIfPresent(pod);
      }
    }

    /** Returns whether the framework sees Success. */
    method Reserve(pod: Pod) returns (ok: bool)
      requires Valid()
      modifies infos.Values
      ensures View() == Apply(old(View()), Event.Reserve(pod))
      ensures ok == (pod.namespace !in infos || pod.uid != "")
    {
      ok := AddPodTo(pod);
    }

    method Unreserve(pod: Pod)
      requires Valid()
      modifies infos.Values
      ensures View() == Apply(old(View()), Event.Unreserve(pod))
    {
      RemovePodFrom(pod);
    }

    method AddPod(pod: Pod, listed: Option<Spec>, ghost isActive: bool)
      requires Valid()
      modifies this, infos.Values
      ensures Valid()
      ensures View() == Apply(old(View()), PodAdded(pod, listed, isActive))
    {
      if pod.namespace !in infos {
        if listed.None? {
          return;
        }
        AddElasticQuota(pod.namespace, listed.value);
      }
      var _ := AddPodTo(pod);
    }

    method UpdatePod(pod: Pod, wasFinished: bool, isActive: bool)
      requires Valid()
      modifies infos.Values
      ensures View() == Apply(old(View()), PodUpdated(pod, wasFinished, isActive))
    {
      if wasFinished {
        return;
      }
      if !isActive {
        RemovePodFrom(pod);
      }
    }

    method DeletePod(pod: Pod)
      requires Valid()
      modifies infos.Values
      ensures View() == Apply(old(View()), PodDeleted(pod))
    {
      RemovePodFrom(pod);
    }

    method AddElasticQuota(namespace: string, spec: Spec)
      requires Valid()
      modifies this
      ensures Valid()
      ensures View() == Apply(old(View()), QuotaAdded(namespace, spec))
      ensures infos.Keys == old(infos).Keys + {namespace}
      ensures forall ns :: ns in infos ==> fresh(infos[ns]) || (ns in old(infos) && infos[ns] == old(infos)[ns])
    {
      if namespace in infos {
        return;
      }
      var info := new ElasticQuotaInfo(namespace, spec);
      infos := infos[namespace := info];
    }

    method UpdateElasticQuota(namespace: string, spec: Spec)
      requires Valid()
      modifies this
      ensures Valid()
      ensures View() == Apply(old(View()), QuotaUpdated(namespace, spec))
    {
      var info := new ElasticQuotaInfo(namespace, spec);
      if namespace in infos {
        info.pods := infos[namespace].pods;
        info.used := infos[namespace].used;
      }
      infos := infos[namespace := info];
    }

    method DeleteElasticQuota(namespace: string)
      requires Valid()
      modifies this
      ensures Valid()
      ensures View() == Apply(old(View()), QuotaDeleted(namespace))
    {
      infos := infos - {namespace};
    }

    /** The snapshot shares no record with the live ledger. */
    method SnapshotElasticQuota() returns (snapshot: Infos)
      requires Valid()
      ensures Separate(snapshot) && ViewOf(snapshot) == View()
      ensures forall ns :: ns in snapshot ==> fresh(snapshot[ns])
    {
      snapshot := CloneInfos(infos);
    }
  }
}
