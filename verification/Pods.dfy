/** Pods as the preemption plugins see them. */
module Pods {
  import opened FrameworkResource
  import opened Options
  import opened Sums

  /**
   A pod. Container requests are already framework vectors; scheduledAt is the transition time of a
   PodScheduled condition that is true, if there is one.
   */
  datatype Pod = Pod(
    uid: string,
    namespace: string,
    name: string,
    labels: map<string, string>,
    priority: int,
    startTime: int,
    priorityClassName: string,
    preemptsNever: bool,
    scheduledAt: Option<int>,
    containers: seq<Resource>,
    initContainers: seq<Resource>,
    overhead: Option<Resource>)

  /** Pods listed once each, and told apart by their uid. */
  ghost predicate UniqueUids(ps: seq<Pod>) {
    && (forall p, q :: p in ps && q in ps && p.uid == q.uid ==> p == q)
    && (forall p :: p in ps ==> multiset(ps)[p] == 1)
  }

  lemma CountedTwice(ps: seq<Pod>, i: nat, k: nat)
    requires i < k < |ps|
    ensures ps[i] == ps[k] ==> multiset(ps)[ps[i]] >= 2
  {
    assert ps == ps[..k] + ps[k..];
    assert ps[i] in multiset(ps[..k]) by {
      assert ps[..k][i] == ps[i];
    }
    assert ps[k] in multiset(ps[k..]) by {
      assert ps[k..][0] == ps[k];
    }
  }

  lemma UniqueAt(ps: seq<Pod>, i: nat, k: nat)
    requires UniqueUids(ps) && i < k < |ps|
    ensures ps[i].uid != ps[k].uid
  {
    CountedTwice(ps, i, k);
    assert ps[i] in ps && ps[k] in ps;
  }

  ghost function SetOf<T>(s: seq<T>): set<T> {
    set x | x in s
  }

  lemma UniqueSub(ps: seq<Pod>, qs: seq<Pod>)
    requires UniqueUids(ps) && multiset(qs) <= multiset(ps)
    ensures UniqueUids(qs)
    ensures SetOf(qs) <= SetOf(ps)
  {
    forall q | q in qs ensures q in ps && multiset(qs)[q] == 1 {
      assert q in multiset(qs);
      assert multiset(qs)[q] <= multiset(ps)[q];
    }
  }

  // ---- requests ----

  ghost function SumOf(cs: seq<Resource>): Resource {
    if cs == [] then ZERO else Plus(SumOf(cs[..|cs| - 1]), cs[|cs| - 1])
  }

  ghost function RaisedToAll(r: Resource, cs: seq<Resource>): Resource {
    if cs == [] then r else RaisedTo(RaisedToAll(r, cs[..|cs| - 1]), cs[|cs| - 1])
  }

  /** The request a pod is charged for. */
  ghost function PodRequest(pod: Pod): Resource {
    var widest := RaisedToAll(SumOf(pod.containers), pod.initContainers);
    if pod.overhead.Some? then Plus(widest, pod.overhead.value) else widest
  }

  method ComputePodResourceRequest(pod: Pod) returns (result: Resource)
    ensures result == PodRequest(pod)
  {
    result := ZERO;
    for i := 0 to |pod.containers|
      invariant result == SumOf(pod.containers[..i])
    {
      assert pod.containers[..i + 1][..i] == pod.containers[..i];
      result := Plus(result, pod.containers[i]);
    }
    assert pod.containers[..|pod.containers|] == pod.containers;
    for i := 0 to |pod.initContainers|
      invariant result == RaisedToAll(SumOf(pod.containers), pod.initContainers[..i])
    {
      assert pod.initContainers[..i + 1][..i] == pod.initContainers[..i];
      result := RaisedTo(result, pod.initContainers[i]);
    }
    assert pod.initContainers[..|pod.initContainers|] == pod.initContainers;
    if pod.overhead.Some? {
      result := Plus(result, pod.overhead.value);
    }
  }

  ghost function AmountIn(d: Dim): Resource -> int {
    (r: Resource) => Amount(r, d)
  }

  lemma {:induction false} SumOfAmount(cs: seq<Resource>, d: Dim)
    ensures Amount(SumOf(cs), d) == SumSeq(cs, AmountIn(d))
    decreases |cs|
  {
    if cs != [] {
      SumOfAmount(cs[..|cs| - 1], d);
    }
  }

  lemma {:induction false} RaisedToAllAmount(r: Resource, cs: seq<Resource>, d: Dim)
    requires d != AllowedPodNumber
    requires 0 <= Amount(r, d)
    requires forall c :: c in cs ==> 0 <= Amount(c, d)
    ensures Amount(r, d) <= Amount(RaisedToAll(r, cs), d)
    ensures forall c :: c in cs ==> Amount(c, d) <= Amount(RaisedToAll(r, cs), d)
    ensures Amount(RaisedToAll(r, cs), d) == Amount(r, d)
            || exists c :: c in cs && Amount(RaisedToAll(r, cs), d) == Amount(c, d)
    decreases |cs|
  {
    if cs != [] {
      var init, last := cs[..|cs| - 1], cs[|cs| - 1];
      assert forall c :: c in cs <==> c in init || c == last;
      RaisedToAllAmount(r, init, d);
      assert Amount(RaisedToAll(r, cs), d) == MaxInt(Amount(RaisedToAll(r, init), d), Amount(last, d));
    }
  }

  /**
   The charged request, per dimension, is the overhead on top of the larger of: all app containers
   together, and the widest single init container.
   */
  lemma PodRequestIsWidest(pod: Pod, d: Dim)
    requires d != AllowedPodNumber
    requires forall c :: c in pod.containers ==> 0 <= Amount(c, d)
    requires forall c :: c in pod.initContainers ==> 0 <= Amount(c, d)
    ensures
      var width := Amount(PodRequest(pod), d)
                   - (if pod.overhead.Some? then Amount(pod.overhead.value, d) else 0);
      && SumSeq(pod.containers, AmountIn(d)) <= width
      && (forall c :: c in pod.initContainers ==> Amount(c, d) <= width)
      && (width == SumSeq(pod.containers, AmountIn(d))
          || exists c :: c in pod.initContainers && width == Amount(c, d))
  {
    SumOfAmount(pod.containers, d);
    SumSeqNonNegative(pod.containers, AmountIn(d));
    RaisedToAllAmount(SumOf(pod.containers), pod.initContainers, d);
  }

  lemma {:induction false} InitDoesNotCount(r: Resource, cs: seq<Resource>)
    ensures Amount(RaisedToAll(r, cs), AllowedPodNumber) == Amount(r, AllowedPodNumber)
    decreases |cs|
  {
    if cs != [] {
      InitDoesNotCount(r, cs[..|cs| - 1]);
    }
  }

  /** The pod count, alone, is not raised to what an init container asks for. */
  lemma PodCountIsSum(pod: Pod)
    ensures Amount(PodRequest(pod), AllowedPodNumber)
            == SumSeq(pod.containers, AmountIn(AllowedPodNumber))
               + if pod.overhead.Some? then Amount(pod.overhead.value, AllowedPodNumber) else 0
  {
    SumOfAmount(pod.containers, AllowedPodNumber);
    InitDoesNotCount(SumOf(pod.containers), pod.initContainers);
  }

  // ---- importance ----

  predicate MoreImportant(p: Pod, q: Pod) {
    p.priority > q.priority || (p.priority == q.priority && p.startTime < q.startTime)
  }

  ghost predicate ByImportance(ps: seq<Pod>) {
    forall i, j :: 0 <= i < j < |ps| ==> !MoreImportant(ps[j], ps[i])
  }

  /** Places p behind every pod that is at least as important. */
  method Insert(p: Pod, ps: seq<Pod>) returns (r: seq<Pod>)
    requires ByImportance(ps)
    ensures multiset(r) == multiset(ps) + multiset{p}
    ensures ByImportance(r)
  {
    var k := |ps|;
    while k > 0 && MoreImportant(p, ps[k - 1])
      invariant 0 <= k <= |ps|
      invariant forall j :: k <= j < |ps| ==> MoreImportant(p, ps[j])
    {
      k := k - 1;
    }
    r := ps[..k] + [p] + ps[k..];
    InsertKeepsOrder(p, ps, k);
    assert ps == ps[..k] + ps[k..];
  }

  lemma InsertKeepsOrder(p: Pod, ps: seq<Pod>, k: nat)
    requires ByImportance(ps)
    requires k <= |ps|
    requires forall j :: k <= j < |ps| ==> MoreImportant(p, ps[j])
    requires k > 0 ==> !MoreImportant(p, ps[k - 1])
    ensures ByImportance(ps[..k] + [p] + ps[k..])
  {
    var r := ps[..k] + [p] + ps[k..];
    forall i, j | 0 <= i < j < |r|
      ensures !MoreImportant(r[j], r[i])
    {
      assert r[i] == (if i < k then ps[i] else if i == k then p else ps[i - 1]);
      assert r[j] == (if j < k then ps[j] else if j == k then p else ps[j - 1]);
      if j == k && i < k - 1 {
        assert !MoreImportant(ps[k - 1], ps[i]);
      }
    }
  }

  /** The order sort.Slice leaves: most important first, ties in any order. */
  method SortByImportance(ps: seq<Pod>) returns (sorted: seq<Pod>)
    ensures multiset(sorted) == multiset(ps)
    ensures ByImportance(sorted)
  {
    sorted := [];
    for i := 0 to |ps|
      invariant multiset(sorted) == multiset(ps[..i])
      invariant ByImportance(sorted)
    {
      sorted := Insert(ps[i], sorted);
      assert ps[..i + 1] == ps[..i] + [ps[i]];
    }
    assert ps[..|ps|] == ps;
  }

  ghost predicate LeastImportantFirst(ps: seq<Pod>) {
    forall i, j :: 0 <= i < j < |ps| ==> !MoreImportant(ps[i], ps[j])
  }

  ghost predicate IsTurned(ps: seq<Pod>, turned: seq<Pod>) {
    |turned| == |ps| && forall k :: 0 <= k < |ps| ==> turned[k] == ps[|ps| - 1 - k]
  }

  lemma TurnNext(ps: seq<Pod>, p: Pod, turned: seq<Pod>)
    requires IsTurned(ps, turned)
    ensures IsTurned(ps + [p], [p] + turned)
  {
  }

  lemma FrontOrBack(ps: seq<Pod>, p: Pod, qs: seq<Pod>)
    requires multiset(qs) == multiset(ps)
    ensures multiset([p] + qs) == multiset(ps + [p])
  {
  }

  lemma TurnedOrder(ps: seq<Pod>, turned: seq<Pod>)
    requires ByImportance(ps) && IsTurned(ps, turned)
    ensures LeastImportantFirst(turned)
  {
  }

  /** The order sort.Slice leaves with the opposite comparison. */
  method SortLeastImportantFirst(ps: seq<Pod>) returns (sorted: seq<Pod>)
    ensures multiset(sorted) == multiset(ps)
    ensures LeastImportantFirst(sorted)
  {
    var ranked := SortByImportance(ps);
    sorted := [];
    for i := 0 to |ranked|
      invariant multiset(sorted) == multiset(ranked[..i]) && IsTurned(ranked[..i], sorted)
    {
      FrontOrBack(ranked[..i], ranked[i], sorted);
      TurnNext(ranked[..i], ranked[i], sorted);
      sorted := [ranked[i]] + sorted;
      assert ranked[..i + 1] == ranked[..i] + [ranked[i]];
    }
    assert ranked[..|ranked|] == ranked;
    TurnedOrder(ranked, sorted);
  }
}
