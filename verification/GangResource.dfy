/** The gang-scheduling resource check: can the cluster still hold a whole pod group? */
module GangResource {
  import opened FrameworkResource
  import opened Sums

  /** A pod on a node, with the full name of its group (empty without one). */
  datatype GroupedPod = GroupedPod(group: string, request: Resource)

  datatype NodeInfo = NodeInfo(allocatable: Resource, requested: Resource, pods: seq<GroupedPod>)

  /** An entry of the node list; some entries hold no node. */
  datatype Entry = Missing | Present(info: NodeInfo)

  // ---- leftovers of a node ----

  ghost function RequestOf(d: Dim): GroupedPod -> int {
    (p: GroupedPod) => Amount(p.request, d)
  }

  ghost function Outside(pods: seq<GroupedPod>, group: string): seq<GroupedPod> {
    if pods == [] then []
    else
      var rest, p := Outside(pods[..|pods| - 1], group), pods[|pods| - 1];
      if p.group == group then rest else rest + [p]
  }

  /** The framework keeps requested equal to the sum over the node's pods. */
  ghost predicate Consistent(info: NodeInfo) {
    forall d :: Amount(info.requested, d) == SumSeq(info.pods, RequestOf(d))
  }

  /** What the node has left when the pods of the group do not count. */
  ghost function Leftover(info: NodeInfo, group: string, d: Dim): int {
    var others := Outside(info.pods, group);
    if d == AllowedPodNumber then Amount(info.allocatable, d) - |others|
    else if d.Scalar? && d.name !in info.allocatable.scalars then 0
    else Amount(info.allocatable, d) - SumSeq(others, RequestOf(d))
  }

  /** One more pod on the node: nothing to its own group, its request, and a place, to every other. */
  lemma LeftoverNext(info: NodeInfo, p: GroupedPod, group: string, d: Dim)
    ensures
      var more := info.(pods := info.pods + [p]);
      Leftover(more, group, d)
      == if p.group == group then Leftover(info, group, d)
         else if d == AllowedPodNumber then Leftover(info, group, d) - 1
         else if d.Scalar? && d.name !in info.allocatable.scalars then 0
         else Leftover(info, group, d) - Amount(p.request, d)
  {
    var others := Outside(info.pods, group);
    assert (info.pods + [p])[..|info.pods|] == info.pods;
    SumSeqAppend(others, p, RequestOf(d));
  }

  /** What is still requested when the group's pods among the first i are taken out. */
  ghost function StillRequested(pods: seq<GroupedPod>, i: nat, group: string, d: Dim): int
    requires i <= |pods|
  {
    SumSeq(pods, RequestOf(d)) - SumSeq(pods[..i], RequestOf(d)) + SumSeq(Outside(pods[..i], group), RequestOf(d))
  }

  lemma StillRequestedNext(pods: seq<GroupedPod>, i: nat, group: string, d: Dim)
    requires i < |pods|
    ensures StillRequested(pods, i + 1, group, d)
            == StillRequested(pods, i, group, d) - if pods[i].group == group then Amount(pods[i].request, d) else 0
    ensures |Outside(pods[..i + 1], group)| == |Outside(pods[..i], group)| + if pods[i].group == group then 0 else 1
  {
    assert pods[..i + 1][..i] == pods[..i] && pods[..i + 1] == pods[..i] + [pods[i]];
    SumSeqAppend(pods[..i], pods[i], RequestOf(d));
    SumSeqAppend(Outside(pods[..i], group), pods[i], RequestOf(d));
  }

  lemma StillRequestedEnds(pods: seq<GroupedPod>, group: string, d: Dim)
    ensures StillRequested(pods, 0, group, d) == SumSeq(pods, RequestOf(d))
    ensures StillRequested(pods, |pods|, group, d) == SumSeq(Outside(pods, group), RequestOf(d))
  {
    assert pods[..|pods|] == pods;
  }

  /** Takes the group's pods out one by one, then compares with what is allocatable. */
  method GetNodeResource(info: NodeInfo, group: string) returns (left: Resource)
    requires Consistent(info)
    ensures forall d :: Amount(left, d) == Leftover(info, group, d)
  {
    var requested, count := info.requested, |info.pods|;
    forall d ensures Amount(requested, d) == StillRequested(info.pods, 0, group, d) {
      StillRequestedEnds(info.pods, group, d);
    }
    for i := 0 to |info.pods|
      invariant forall d :: Amount(requested, d) == StillRequested(info.pods, i, group, d)
      invariant count == |info.pods| - i + |Outside(info.pods[..i], group)|
    {
      var p := info.pods[i];
      StillRequestedNext(info.pods, i, group, Memory);
      forall d ensures StillRequested(info.pods, i + 1, group, d)
                       == StillRequested(info.pods, i, group, d) - if p.group == group then Amount(p.request, d) else 0
      {
        StillRequestedNext(info.pods, i, group, d);
      }
      if p.group != group { continue; }
      requested := Minus(requested, p.request);
      count := count - 1;
    }
    assert info.pods[..|info.pods|] == info.pods;
    var a := info.allocatable;
    left := Resource(
      a.milliCPU - requested.milliCPU,
      a.memory - requested.memory,
      a.ephemeralStorage - requested.ephemeralStorage,
      a.allowedPodNumber - count,
      map k | k in a.scalars :: a.scalars[k] - Get(requested.scalars, k));
    forall d ensures Amount(left, d) == Leftover(info, group, d) {
      StillRequestedEnds(info.pods, group, d);
      assert Amount(requested, d) == SumSeq(Outside(info.pods, group), RequestOf(d));
    }
  }

  // ---- the check ----

  ghost function LeftAt(group: string, d: Dim): Entry -> int {
    (e: Entry) => if e.Present? then Leftover(e.info, group, d) else 0
  }

  ghost predicate HasNode(nodes: seq<Entry>) {
    exists i :: 0 <= i < |nodes| && nodes[i].Present?
  }

  /** The leftovers up to and including position k, and those behind it. */
  ghost function UpTo(nodes: seq<Entry>, group: string, d: Dim, k: nat): int
    requires k < |nodes|
  {
    SumSeq(nodes[..k + 1], LeftAt(group, d))
  }

  ghost function Behind(nodes: seq<Entry>, group: string, d: Dim, k: nat): int
    requires k < |nodes|
  {
    SumSeq(nodes[k + 1..], LeftAt(group, d))
  }

  /** Some node completes the quantity: the leftovers up to and including it add up to it. */
  ghost predicate Covered(nodes: seq<Entry>, group: string, d: Dim, quantity: int) {
    exists k :: 0 <= k < |nodes| && nodes[k].Present? && UpTo(nodes, group, d, k) >= quantity
  }

  lemma CoveredNext(nodes: seq<Entry>, e: Entry, group: string, d: Dim, quantity: int)
    ensures SumSeq(nodes + [e], LeftAt(group, d)) == SumSeq(nodes, LeftAt(group, d)) + LeftAt(group, d)(e)
    ensures Covered(nodes + [e], group, d, quantity)
            <==> Covered(nodes, group, d, quantity)
                 || (e.Present? && SumSeq(nodes + [e], LeftAt(group, d)) >= quantity)
  {
    var more := nodes + [e];
    SumSeqAppend(nodes, e, LeftAt(group, d));
    if k :| 0 <= k < |nodes| && nodes[k].Present? && UpTo(nodes, group, d, k) >= quantity {
      assert more[..k + 1] == nodes[..k + 1] && more[k].Present?;
    }
    if k :| 0 <= k < |more| && more[k].Present? && UpTo(more, group, d, k) >= quantity {
      if k < |nodes| {
        assert more[..k + 1] == nodes[..k + 1];
      } else {
        assert more[..k + 1] == more;
      }
    }
    if e.Present? && SumSeq(more, LeftAt(group, d)) >= quantity {
      assert more[..|nodes| + 1] == more && more[|nodes|].Present?;
    }
  }

  /** What the check still asks for after these nodes: the uncovered resources and what they lack. */
  ghost predicate Lacks(nodes: seq<Entry>, group: string, request: map<Dim, int>, lacking: map<Dim, int>) {
    && (forall d :: d in lacking <==> d in request && !Covered(nodes, group, d, request[d]))
    && (forall d :: d in lacking ==> lacking[d] == request[d] - SumSeq(nodes, LeftAt(group, d)))
  }

  /** One node: subtracts its leftovers and drops what it completes. */
  method SubtractNode(lacking: map<Dim, int>, left: Resource) returns (r: map<Dim, int>)
    ensures forall d :: d in r <==> d in lacking && lacking[d] - Amount(left, d) > 0
    ensures forall d :: d in r ==> r[d] == lacking[d] - Amount(left, d)
  {
    r := lacking;
    var todo := lacking.Keys;
    while todo != {}
      invariant todo <= lacking.Keys
      invariant forall d :: d in todo ==> d in r && r[d] == lacking[d]
      invariant forall d :: d !in todo ==> (d in r <==> d in lacking && lacking[d] - Amount(left, d) > 0)
      invariant forall d :: d !in todo && d in r ==> r[d] == lacking[d] - Amount(left, d)
      decreases todo
    {
      var d :| d in todo;
      todo := todo - {d};
      var quant := r[d] - Amount(left, d);
      if quant <= 0 {
        r := r - {d};
        continue;
      }
      r := r[d := quant];
    }
  }

  /** What is lacking after one more entry of the node list. */
  ghost function LackingNext(lacking: map<Dim, int>, e: Entry, group: string): map<Dim, int> {
    if e.Missing? then lacking
    else map d | d in lacking && lacking[d] - Leftover(e.info, group, d) > 0 :: lacking[d] - Leftover(e.info, group, d)
  }

  /** What is lacking after all of the nodes, never stopping early. */
  ghost function Lacking(nodes: seq<Entry>, group: string, request: map<Dim, int>): map<Dim, int> {
    if nodes == [] then request
    else LackingNext(Lacking(nodes[..|nodes| - 1], group, request), nodes[|nodes| - 1], group)
  }

  lemma LacksNext(nodes: seq<Entry>, e: Entry, group: string, request: map<Dim, int>, lacking: map<Dim, int>)
    requires Lacks(nodes, group, request, lacking)
    ensures Lacks(nodes + [e], group, request, LackingNext(lacking, e, group))
  {
    forall d | d in request
      ensures SumSeq(nodes + [e], LeftAt(group, d)) == SumSeq(nodes, LeftAt(group, d)) + LeftAt(group, d)(e)
      ensures Covered(nodes + [e], group, d, request[d])
              <==> Covered(nodes, group, d, request[d])
                   || (e.Present? && SumSeq(nodes + [e], LeftAt(group, d)) >= request[d])
    {
      CoveredNext(nodes, e, group, d, request[d]);
    }
  }

  /** The step-by-step account agrees with the prefix sums. */
  lemma {:induction false} LackingMeaning(nodes: seq<Entry>, group: string, request: map<Dim, int>)
    ensures Lacks(nodes, group, request, Lacking(nodes, group, request))
    decreases |nodes|
  {
    if nodes != [] {
      var n := |nodes| - 1;
      LackingMeaning(nodes[..n], group, request);
      LacksNext(nodes[..n], nodes[n], group, request, Lacking(nodes[..n], group, request));
      assert nodes == nodes[..n] + [nodes[n]];
    }
  }

  lemma CoveredStays(nodes: seq<Entry>, k: nat, group: string, d: Dim, quantity: int)
    requires k <= |nodes| && Covered(nodes[..k], group, d, quantity)
    ensures Covered(nodes, group, d, quantity)
  {
    var i :| 0 <= i < k && nodes[..k][i].Present? && UpTo(nodes[..k], group, d, i) >= quantity;
    assert nodes[..k][..i + 1] == nodes[..i + 1] && nodes[i].Present?;
  }

  ghost predicate AllCovered(nodes: seq<Entry>, group: string, request: map<Dim, int>) {
    forall d :: d in request ==> Covered(nodes, group, d, request[d])
  }

  /** Succeeding at some prefix is succeeding on the whole list. */
  lemma NothingLacking(nodes: seq<Entry>, k: nat, group: string, request: map<Dim, int>)
    requires k <= |nodes| && Lacking(nodes[..k], group, request) == map[]
    ensures AllCovered(nodes, group, request)
  {
    LackingMeaning(nodes[..k], group, request);
    forall d | d in request ensures Covered(nodes, group, d, request[d]) {
      CoveredStays(nodes, k, group, d, request[d]);
    }
  }

  lemma SomethingLacking(nodes: seq<Entry>, group: string, request: map<Dim, int>)
    requires Lacking(nodes, group, request) != map[]
    ensures !AllCovered(nodes, group, request)
  {
    LackingMeaning(nodes, group, request);
    var d :| d in Lacking(nodes, group, request);
  }

  /** One entry of the node list: nothing happens for a missing node. */
  method VisitEntry(e: Entry, group: string, lacking: map<Dim, int>) returns (r: map<Dim, int>)
    requires e.Present? ==> Consistent(e.info)
    ensures r == LackingNext(lacking, e, group)
  {
    r := lacking;
    if e.Present? {
      var left := GetNodeResource(e.info, group);
      r := SubtractNode(lacking, left);
    }
  }

  lemma LackingAfter(nodes: seq<Entry>, k: nat, group: string, request: map<Dim, int>)
    requires k < |nodes|
    ensures Lacking(nodes[..k + 1], group, request) == LackingNext(Lacking(nodes[..k], group, request), nodes[k], group)
  {
    assert nodes[..k + 1][..k] == nodes[..k];
  }

  /** With its early deletions and early return, succeeds exactly when some prefix of the nodes covers each resource. */
  method CheckClusterResource(nodes: seq<Entry>, request: map<Dim, int>, group: string)
    returns (ok: bool, gap: map<Dim, int>)
    requires forall i :: 0 <= i < |nodes| && nodes[i].Present? ==> Consistent(nodes[i].info)
    ensures ok <==> HasNode(nodes) && AllCovered(nodes, group, request)
    ensures !ok ==> Lacks(nodes, group, request, gap)
  {
    gap := request;
    for k := 0 to |nodes|
      invariant gap == Lacking(nodes[..k], group, request)
      invariant gap != map[] || forall i :: 0 <= i < k ==> nodes[i].Missing?
    {
      LackingAfter(nodes, k, group, request);
      gap := VisitEntry(nodes[k], group, gap);
      if nodes[k].Missing? { continue; }
      if |gap| == 0 {
        NothingLacking(nodes, k + 1, group, request);
        return true, gap;
      }
    }
    assert nodes[..|nodes|] == nodes;
    ok := false;
    LackingMeaning(nodes, group, request);
    if gap != map[] {
      SomethingLacking(nodes, group, request);
    }
  }

  // ---- when the order of the nodes does not matter ----

  ghost function TotalLeft(nodes: seq<Entry>, group: string, d: Dim): int {
    SumSeq(nodes, LeftAt(group, d))
  }

  /** From no node on do the remaining leftovers add up to less than nothing. */
  ghost predicate NoLosingTail(nodes: seq<Entry>, group: string, d: Dim) {
    forall k :: 0 <= k < |nodes| && nodes[k].Present? ==> Behind(nodes, group, d, k) >= 0
  }

  lemma CoveredByTotal(nodes: seq<Entry>, group: string, d: Dim, quantity: int)
    requires HasNode(nodes) && TotalLeft(nodes, group, d) >= quantity
    ensures Covered(nodes, group, d, quantity)
  {
    var k := LastNode(nodes);
    MissingAddNothing(nodes[k + 1..], group, d);
    SumSeqConcat(nodes[..k + 1], nodes[k + 1..], LeftAt(group, d));
    assert nodes == nodes[..k + 1] + nodes[k + 1..];
    assert UpTo(nodes, group, d, k) >= quantity;
  }

  lemma {:induction false} LastNode(nodes: seq<Entry>) returns (k: nat)
    requires HasNode(nodes)
    ensures k < |nodes| && nodes[k].Present? && forall i :: k < i < |nodes| ==> nodes[i].Missing?
    decreases |nodes|
  {
    var n := |nodes| - 1;
    if nodes[n].Present? {
      k := n;
    } else {
      var i :| 0 <= i < |nodes| && nodes[i].Present?;
      assert nodes[..n][i].Present?;
      k := LastNode(nodes[..n]);
    }
  }

  lemma {:induction false} MissingAddNothing(nodes: seq<Entry>, group: string, d: Dim)
    requires forall i :: 0 <= i < |nodes| ==> nodes[i].Missing?
    ensures SumSeq(nodes, LeftAt(group, d)) == 0
    decreases |nodes|
  {
    if nodes != [] {
      MissingAddNothing(nodes[..|nodes| - 1], group, d);
    }
  }

  /**
   The check asks whether the whole cluster has the quantity, for every quantity, exactly when no tail of the
   node list is overcommitted as a whole. Otherwise it accepts requests the cluster cannot hold.
   */
  lemma ChecksTheTotal(nodes: seq<Entry>, group: string, d: Dim)
    requires HasNode(nodes)
    ensures (forall quantity :: Covered(nodes, group, d, quantity) <==> TotalLeft(nodes, group, d) >= quantity)
            <==> NoLosingTail(nodes, group, d)
  {
    forall k | 0 <= k < |nodes|
      ensures UpTo(nodes, group, d, k) + Behind(nodes, group, d, k) == TotalLeft(nodes, group, d)
    {
      assert nodes == nodes[..k + 1] + nodes[k + 1..];
      SumSeqConcat(nodes[..k + 1], nodes[k + 1..], LeftAt(group, d));
    }
    forall quantity | TotalLeft(nodes, group, d) >= quantity ensures Covered(nodes, group, d, quantity) {
      CoveredByTotal(nodes, group, d, quantity);
    }
    if !NoLosingTail(nodes, group, d) {
      var k :| 0 <= k < |nodes| && nodes[k].Present? && Behind(nodes, group, d, k) < 0;
      assert Covered(nodes, group, d, UpTo(nodes, group, d, k));
    }
  }

  /** With no node overcommitted, the check is about totals, whatever the order of the nodes. */
  lemma NoOvercommitment(nodes: seq<Entry>, group: string, d: Dim, quantity: int)
    requires HasNode(nodes) && NoneOvercommitted(nodes, group, d)
    ensures Covered(nodes, group, d, quantity) <==> TotalLeft(nodes, group, d) >= quantity
  {
    forall k | 0 <= k < |nodes| ensures Behind(nodes, group, d, k) >= 0 {
      SumSeqNonNegative(nodes[k + 1..], LeftAt(group, d));
    }
    ChecksTheTotal(nodes, group, d);
  }

  lemma NoOvercommitmentAnyOrder(nodes: seq<Entry>, other: seq<Entry>, group: string, d: Dim, quantity: int)
    requires HasNode(nodes) && multiset(nodes) == multiset(other) && NoneOvercommitted(nodes, group, d)
    ensures Covered(other, group, d, quantity) <==> Covered(nodes, group, d, quantity)
  {
    SameEntries(nodes, other);
    SumSeqPermutation(nodes, other, LeftAt(group, d));
    NoOvercommitment(nodes, group, d, quantity);
    NoOvercommitment(other, group, d, quantity);
  }

  lemma SameEntries(nodes: seq<Entry>, other: seq<Entry>)
    requires multiset(nodes) == multiset(other)
    ensures forall e :: e in nodes <==> e in other
    ensures HasNode(nodes) ==> HasNode(other)
  {
    forall e ensures e in nodes <==> e in other {
      assert e in nodes <==> e in multiset(nodes);
      assert e in other <==> e in multiset(other);
    }
    if i :| 0 <= i < |nodes| && nodes[i].Present? {
      assert nodes[i] in other;
      var j :| 0 <= j < |other| && other[j] == nodes[i];
    }
  }

  ghost predicate NoneOvercommitted(nodes: seq<Entry>, group: string, d: Dim) {
    forall e :: e in nodes && e.Present? ==> Leftover(e.info, group, d) >= 0
  }

  ghost predicate NoneHasRoom(nodes: seq<Entry>, group: string, d: Dim) {
    forall e :: e in nodes && e.Present? ==> Leftover(e.info, group, d) <= 0
  }

  /** Room on the nodes that have some; what the overcommitted ones owe does not count. */
  ghost function RoomAt(group: string, d: Dim): Entry -> int {
    Positive(LeftAt(group, d))
  }

  ghost function Positive<T(!new)>(f: T -> int): T -> int {
    (x: T) => if f(x) > 0 then f(x) else 0
  }

  /** No beginning of the list offers more than all the room there is. */
  lemma {:induction false} PrefixWithinRoom(nodes: seq<Entry>, k: nat, group: string, d: Dim)
    requires k <= |nodes|
    ensures SumSeq(nodes[..k], LeftAt(group, d)) <= SumSeq(nodes, RoomAt(group, d))
    decreases k
  {
    if k == 0 {
      SumSeqNonNegative(nodes, RoomAt(group, d));
    } else {
      BelowRoom(nodes[..k], group, d);
      assert nodes == nodes[..k] + nodes[k..];
      SumSeqConcat(nodes[..k], nodes[k..], RoomAt(group, d));
      SumSeqNonNegative(nodes[k..], RoomAt(group, d));
    }
  }

  lemma {:induction false} BelowRoom(nodes: seq<Entry>, group: string, d: Dim)
    ensures SumSeq(nodes, LeftAt(group, d)) <= SumSeq(nodes, RoomAt(group, d))
    decreases |nodes|
  {
    if nodes != [] {
      BelowRoom(nodes[..|nodes| - 1], group, d);
    }
  }

  /** Without room nothing positive is covered. */
  lemma {:induction false} NoRoom(nodes: seq<Entry>, group: string, d: Dim)
    requires NoneHasRoom(nodes, group, d)
    ensures SumSeq(nodes, RoomAt(group, d)) == 0
    decreases |nodes|
  {
    if nodes != [] {
      var n := |nodes| - 1;
      var e := nodes[n];
      assert e.Present? ==> Leftover(e.info, group, d) <= 0;
      NoRoom(nodes[..n], group, d);
    }
  }

  lemma BeyondRoom(nodes: seq<Entry>, group: string, d: Dim, quantity: int)
    requires quantity > SumSeq(nodes, RoomAt(group, d))
    ensures !Covered(nodes, group, d, quantity)
  {
    forall k | 0 <= k < |nodes| ensures UpTo(nodes, group, d, k) < quantity {
      PrefixWithinRoom(nodes, k + 1, group, d);
    }
  }

  /** The entries of positive value, or the others. */
  ghost function Select<T>(list: seq<T>, f: T -> int, positive: bool): seq<T> {
    if list == [] then []
    else
      var rest, x := Select(list[..|list| - 1], f, positive), list[|list| - 1];
      if (f(x) > 0) == positive then rest + [x] else rest
  }

  lemma {:induction false} SelectSplits<T>(list: seq<T>, f: T -> int)
    ensures multiset(Select(list, f, true)) + multiset(Select(list, f, false)) == multiset(list)
    decreases |list|
  {
    if list != [] {
      var n := |list| - 1;
      SelectSplits(list[..n], f);
      assert list == list[..n] + [list[n]];
    }
  }

  lemma {:induction false} SelectSum<T(!new)>(list: seq<T>, f: T -> int)
    ensures SumSeq(Select(list, f, true), f) == SumSeq(list, Positive(f))
    decreases |list|
  {
    if list != [] {
      var n := |list| - 1;
      SelectSum(list[..n], f);
      SumSeqAppend(Select(list[..n], f, true), list[n], f);
    }
  }

  lemma {:induction false} SelectedArePositive<T>(list: seq<T>, f: T -> int, i: nat)
    requires i < |Select(list, f, true)|
    ensures f(Select(list, f, true)[i]) > 0
    decreases |list|
  {
    if i < |Select(list[..|list| - 1], f, true)| {
      SelectedArePositive(list[..|list| - 1], f, i);
    }
  }

  /** With the nodes that have room first, all of it is covered. */
  lemma RoomFirstCovers(nodes: seq<Entry>, group: string, d: Dim) returns (first: seq<Entry>)
    requires !NoneHasRoom(nodes, group, d)
    ensures multiset(first) == multiset(nodes) && Covered(first, group, d, SumSeq(nodes, RoomAt(group, d)))
    ensures SumSeq(nodes, RoomAt(group, d)) > 0
  {
    var f := LeftAt(group, d);
    var roomy := Select(nodes, f, true);
    SelectSplits(nodes, f);
    SelectSum(nodes, f);
    first := roomy + Select(nodes, f, false);
    var e :| e in nodes && e.Present? && Leftover(e.info, group, d) > 0;
    var i :| 0 <= i < |nodes| && nodes[i] == e;
    SumSeqTerm(nodes, i, RoomAt(group, d));
    var k := |roomy| - 1;
    SelectedArePositive(nodes, f, k);
    assert first[..k + 1] == roomy && first[k] == roomy[k];
    assert UpTo(first, group, d, k) >= SumSeq(nodes, RoomAt(group, d));
  }

  /** With an overcommitted node first, all of the room is out of reach. */
  lemma DebtFirstMisses(nodes: seq<Entry>, group: string, d: Dim) returns (first: seq<Entry>)
    requires !NoneOvercommitted(nodes, group, d)
    ensures multiset(first) == multiset(nodes) && !Covered(first, group, d, SumSeq(nodes, RoomAt(group, d)))
  {
    var e :| e in nodes && e.Present? && Leftover(e.info, group, d) < 0;
    var i :| 0 <= i < |nodes| && nodes[i] == e;
    var rest := nodes[..i] + nodes[i + 1..];
    first := [e] + rest;
    MovedFirst(nodes, i);
    SumSeqPermutation(first, nodes, RoomAt(group, d));
    DebtStays(e, rest, group, d);
  }

  lemma MovedFirst<T>(list: seq<T>, i: nat)
    requires i < |list|
    ensures multiset([list[i]] + (list[..i] + list[i + 1..])) == multiset(list)
  {
    assert list == list[..i] + [list[i]] + list[i + 1..];
  }

  lemma DebtStays(e: Entry, rest: seq<Entry>, group: string, d: Dim)
    requires e.Present? && Leftover(e.info, group, d) < 0
    ensures !Covered([e] + rest, group, d, SumSeq([e] + rest, RoomAt(group, d)))
  {
    SumSeqConcat([e], rest, RoomAt(group, d));
    forall k | 0 <= k < |[e] + rest| ensures UpTo([e] + rest, group, d, k) < SumSeq(rest, RoomAt(group, d)) {
      assert ([e] + rest)[..k + 1] == [e] + rest[..k];
      SumSeqConcat([e], rest[..k], LeftAt(group, d));
      PrefixWithinRoom(rest, k, group, d);
    }
  }

  /** Every order of the nodes gives the same answer, for every positive quantity. */
  ghost predicate AnyOrder(nodes: seq<Entry>, group: string, d: Dim) {
    forall other, quantity :: quantity > 0 && multiset(other) == multiset(nodes) ==>
      (Covered(other, group, d, quantity) <==> Covered(nodes, group, d, quantity))
  }

  /**
   The order of the nodes does not matter exactly if no node is overcommitted, or none has room: as soon as there is
   one of each, some quantity is accepted in one order and refused in another.
   */
  lemma OrderIrrelevant(nodes: seq<Entry>, group: string, d: Dim)
    ensures AnyOrder(nodes, group, d) <==> NoneOvercommitted(nodes, group, d) || NoneHasRoom(nodes, group, d)
  {
    if NoneHasRoom(nodes, group, d) {
      forall other, quantity | quantity > 0 && multiset(other) == multiset(nodes)
        ensures !Covered(other, group, d, quantity)
      {
        SameEntries(nodes, other);
        NoRoom(other, group, d);
        BeyondRoom(other, group, d, quantity);
      }
    } else if NoneOvercommitted(nodes, group, d) {
      forall other, quantity | quantity > 0 && multiset(other) == multiset(nodes)
        ensures Covered(other, group, d, quantity) <==> Covered(nodes, group, d, quantity)
      {
        NoOvercommitmentAnyOrder(nodes, other, group, d, quantity);
      }
    } else {
      var a := RoomFirstCovers(nodes, group, d);
      var b := DebtFirstMisses(nodes, group, d);
    }
  }

  /** An overcommitted node listed last goes unnoticed: 10 left on one node, 5 owed on another, 8 accepted. */
  lemma OvercommitmentUnnoticed(a: NodeInfo, b: NodeInfo, group: string)
    requires Leftover(a, group, Memory) == 10 && Leftover(b, group, Memory) == -5
    ensures Covered([Present(a), Present(b)], group, Memory, 8)
    ensures !Covered([Present(b), Present(a)], group, Memory, 8)
    ensures TotalLeft([Present(a), Present(b)], group, Memory) < 8
  {
    var x, y := [Present(a)], [Present(b)];
    assert [] + x == x && [] + y == y && x + y == [Present(a), Present(b)] && y + x == [Present(b), Present(a)];
    CoveredNext([], Present(a), group, Memory, 8);
    CoveredNext(x, Present(b), group, Memory, 8);
    CoveredNext([], Present(b), group, Memory, 8);
    CoveredNext(y, Present(a), group, Memory, 8);
  }

  function Mem(n: int): Resource {
    Resource(0, n, 0, 0, map[])
  }

  /** A node with nothing on it, and one whose pod takes more than the node has. */
  const ROOMY := NodeInfo(Mem(10), ZERO, [])
  const OVERCOMMITTED := NodeInfo(ZERO, Mem(5), [GroupedPod("", Mem(5))])

  lemma OwnRequest(p: GroupedPod, d: Dim)
    ensures SumSeq([p], RequestOf(d)) == Amount(p.request, d)
  {
    SumSeqAppend([], p, RequestOf(d));
    assert [] + [p] == [p];
  }

  /** Such nodes exist: the check takes 8 in one order and not in the other, and the cluster has 5. */
  lemma OrderDecides(group: string)
    requires group != ""
    ensures Consistent(ROOMY) && Consistent(OVERCOMMITTED)
    ensures
      var a, b := Present(ROOMY), Present(OVERCOMMITTED);
      && Covered([a, b], group, Memory, 8) && !Covered([b, a], group, Memory, 8) && TotalLeft([a, b], group, Memory) == 5
  {
    var p := GroupedPod("", Mem(5));
    forall d ensures SumSeq([p], RequestOf(d)) == Amount(Mem(5), d) {
      OwnRequest(p, d);
    }
    assert [p][..0] == [] && Outside([p], group) == [] + [p] == [p];
    OvercommitmentUnnoticed(ROOMY, OVERCOMMITTED, group);
    var a, b := Present(ROOMY), Present(OVERCOMMITTED);
    assert [a] + [b] == [a, b];
    SumSeqAppend([a], b, LeftAt(group, Memory));
  }
}
