/** The container-scope score: containers are given combinations of NUMA nodes one after the other. */
module NumaScore {
  import opened ResourceLists
  import opened Sums
  import opened NumaFilter
  import opened LeastNuma
  import opened NumaDrain

  /** One container's turn: the nodes it found, its request, the combination it got and the ids of its nodes. */
  datatype Turn = Turn(nodes: seq<NumaNode>, request: ResourceList, combination: seq<nat>, ids: seq<nat>)

  /** The ids of a combination's nodes, in ascending order. */
  ghost predicate AreIds(nodes: seq<NumaNode>, c: seq<nat>, ids: seq<nat>)
    requires Within(c, nodes)
  {
    Ascending(ids) && Listed(ids) == IdsOf(nodes, c)
  }

  /** What the i-th turn finds; after the last one, what is left. */
  ghost function NodesAt(trace: seq<Turn>, left: seq<NumaNode>, i: nat): seq<NumaNode> {
    if i < |trace| then trace[i].nodes else left
  }

  /** A turn takes an optimal combination, and drains the positions that are its ids. */
  ghost predicate IsTurn(qos: QoS, t: Turn, after: seq<NumaNode>) {
    && IsOptimal(t.nodes, qos, t.request, t.combination) && AreIds(t.nodes, t.combination, t.ids)
    && !Overruns(t.nodes, t.ids, t.request)
    && IsDrained(t.nodes, after, Inside(t.ids, |t.nodes|), t.request)
  }

  /** How a turn leads from the nodes it found to those it leaves. */
  type Link = (Turn, seq<NumaNode>) -> bool

  ghost predicate LinkedAt(link: Link, trace: seq<Turn>, left: seq<NumaNode>, i: nat)
    requires i < |trace|
  {
    link(trace[i], NodesAt(trace, left, i + 1))
  }

  /** The turns link up: each starts from what the one before left. */
  ghost predicate IsLinked(link: Link, zones: seq<NumaNode>, trace: seq<Turn>, left: seq<NumaNode>) {
    && NodesAt(trace, left, 0) == zones
    && forall i :: 0 <= i < |trace| ==> LinkedAt(link, trace, left, i)
  }

  ghost function LinkOf(qos: QoS): Link {
    (t: Turn, after: seq<NumaNode>) => IsTurn(qos, t, after)
  }

  ghost predicate IsTrace(zones: seq<NumaNode>, qos: QoS, trace: seq<Turn>, left: seq<NumaNode>) {
    IsLinked(LinkOf(qos), zones, trace, left)
  }

  predicate OnlyNonNUMAResources(nodes: seq<NumaNode>, request: ResourceList) {
    forall name, i :: name in request && 0 <= i < |nodes| ==> name !in nodes[i].resources
  }

  /** The requests that need NUMA nodes at all. */
  ghost function NumaRequests(zones: seq<NumaNode>, containers: seq<ResourceList>): seq<ResourceList> {
    if containers == [] then []
    else
      var rest, r := NumaRequests(zones, containers[..|containers| - 1]), containers[|containers| - 1];
      if OnlyNonNUMAResources(zones, r) then rest else rest + [r]
  }

  ghost function RequestsOf(trace: seq<Turn>): seq<ResourceList> {
    seq(|trace|, i requires 0 <= i < |trace| => trace[i].request)
  }

  ghost function MostNodes(trace: seq<Turn>): nat {
    if trace == [] then 0
    else
      var m, k := MostNodes(trace[..|trace| - 1]), |trace[|trace| - 1].ids|;
      if m < k then k else m
  }

  ghost predicate AllClosest(trace: seq<Turn>) {
    forall i :: 0 <= i < |trace| ==>
      Within(trace[i].combination, trace[i].nodes) && NoneCloser(trace[i].nodes, trace[i].combination)
  }

  function NormalizeScore(count: nat, closest: bool): int {
    var perNode := MAX_NODE_SCORE / HIGHEST_NUMA_ID;
    MAX_NODE_SCORE - count * perNode + if closest then perNode / 2 else 0
  }

  /** Fewer NUMA nodes always win; with equally many, closer ones do. */
  lemma ScoreIsLexicographic(count: nat, closest: bool, count': nat, closest': bool)
    ensures NormalizeScore(count, closest) > NormalizeScore(count', closest')
            <==> count < count' || (count == count' && closest && !closest')
  {
  }

  /** For up to the eight NUMA nodes a kubelet supports, and at least one, the score is in range; for no others. */
  lemma ScoreInRange(count: nat, closest: bool)
    ensures MIN_NODE_SCORE <= NormalizeScore(count, closest) <= MAX_NODE_SCORE
            <==> count <= HIGHEST_NUMA_ID && (closest ==> 1 <= count)
    ensures 1 <= count <= HIGHEST_NUMA_ID ==> MIN_NODE_SCORE < NormalizeScore(count, closest) < MAX_NODE_SCORE
  {
  }

  // ---- conservation over the turns ----

  /** What the drained positions have less than the request. */
  ghost function Short(name: string): Turn -> int {
    (t: Turn) => Monus(Qty(t.request, name), Available(t.nodes, Inside(t.ids, |t.nodes|), name))
  }

  lemma TurnTakes(qos: QoS, t: Turn, after: seq<NumaNode>, name: string)
    requires IsTurn(qos, t, after)
    ensures Everywhere(t.nodes, name) == Everywhere(after, name) + Qty(t.request, name) - Short(name)(t)
  {
    InsideDistinct(t.ids, |t.nodes|);
    DrainConserves(t.nodes, after, Inside(t.ids, |t.nodes|), t.request, name);
  }

  lemma InsideDistinct(ids: seq<nat>, n: nat)
    requires Ascending(ids)
    ensures Distinct(Inside(ids, n))
  {
  }

  /** What each turn takes off a measure of the nodes adds up. */
  lemma {:induction false} TakenUpTo(link: Link, zones: seq<NumaNode>, trace: seq<Turn>, left: seq<NumaNode>,
                                     measure: seq<NumaNode> -> int, takes: Turn -> int, k: nat)
    requires IsLinked(link, zones, trace, left) && k <= |trace|
    requires forall t, after :: link(t, after) ==> measure(t.nodes) == measure(after) + takes(t)
    ensures measure(zones) == measure(NodesAt(trace, left, k)) + SumSeq(trace[..k], takes)
    decreases k
  {
    if k > 0 {
      TakenUpTo(link, zones, trace, left, measure, takes, k - 1);
      assert LinkedAt(link, trace, left, k - 1);
      assert trace[..k] == trace[..k - 1] + [trace[k - 1]];
      SumSeqAppend(trace[..k - 1], trace[k - 1], takes);
    }
  }

  ghost function TakenOf(name: string): Turn -> int {
    (t: Turn) => Qty(t.request, name) - Short(name)(t)
  }

  lemma {:induction false} TakenIsRequestedLessShort(trace: seq<Turn>, name: string)
    ensures SumSeq(trace, TakenOf(name)) == Total(RequestsOf(trace), name) - SumSeq(trace, Short(name))
    decreases |trace|
  {
    if trace != [] {
      var n := |trace| - 1;
      TakenIsRequestedLessShort(trace[..n], name);
      assert RequestsOf(trace)[..n] == RequestsOf(trace[..n]);
    }
  }

  lemma TraceTakes(zones: seq<NumaNode>, qos: QoS, trace: seq<Turn>, left: seq<NumaNode>, name: string)
    requires IsTrace(zones, qos, trace, left)
    ensures Everywhere(zones, name) == Everywhere(left, name) + Total(RequestsOf(trace), name) - SumSeq(trace, Short(name))
  {
    var measure := (nodes: seq<NumaNode>) => Everywhere(nodes, name);
    forall t, after | LinkOf(qos)(t, after) ensures measure(t.nodes) == measure(after) + TakenOf(name)(t) {
      TurnTakes(qos, t, after, name);
    }
    TakenUpTo(LinkOf(qos), zones, trace, left, measure, TakenOf(name), |trace|);
    TakenIsRequestedLessShort(trace, name);
    assert trace[..|trace|] == trace;
  }

  /** Every container finds its request at the positions it drains. */
  ghost predicate NeverShort(trace: seq<Turn>, name: string) {
    forall i :: 0 <= i < |trace| ==> Short(name)(trace[i]) == 0
  }

  lemma {:induction false} SumOfShorts(trace: seq<Turn>, name: string)
    ensures SumSeq(trace, Short(name)) >= 0
    ensures SumSeq(trace, Short(name)) == 0 <==> NeverShort(trace, name)
    decreases |trace|
  {
    if trace != [] {
      var n := |trace| - 1;
      SumOfShorts(trace[..n], name);
      if NeverShort(trace[..n], name) && Short(name)(trace[n]) == 0 {
        forall i | 0 <= i < |trace| ensures Short(name)(trace[i]) == 0 {
          assert i < n ==> trace[..n][i] == trace[i];
        }
      }
      if NeverShort(trace, name) {
        forall i | 0 <= i < n ensures Short(name)(trace[..n][i]) == 0 {
          assert trace[..n][i] == trace[i];
        }
      }
    }
  }

  /** What is gone from the machine is what was requested, exactly if no container drained positions that had less. */
  lemma ConservedExactly(zones: seq<NumaNode>, qos: QoS, trace: seq<Turn>, left: seq<NumaNode>, name: string)
    requires IsTrace(zones, qos, trace, left)
    ensures Everywhere(zones, name) == Everywhere(left, name) + Total(RequestsOf(trace), name) <==> NeverShort(trace, name)
  {
    TraceTakes(zones, qos, trace, left, name);
    SumOfShorts(trace, name);
  }

  /** In a list ordered by id the drained positions are those of the combination. */
  lemma IdsArePositions(nodes: seq<NumaNode>, c: seq<nat>, ids: seq<nat>)
    requires ById(nodes) && IsCombination(c, 0, |nodes|, |c|) && AreIds(nodes, c, ids)
    ensures ids == c && Inside(ids, |nodes|) == c
  {
    assert IdsOf(nodes, c) == Listed(c);
    AscendingUnique(ids, c);
    assert Inside(c, |nodes|) == c;
  }

  /** What every turn keeps holds at every point of a trace. */
  lemma {:induction false} KeptUpTo(link: Link, zones: seq<NumaNode>, trace: seq<Turn>, left: seq<NumaNode>,
                                    inv: seq<NumaNode> -> bool, k: nat)
    requires inv(zones) && IsLinked(link, zones, trace, left) && k <= |trace|
    requires forall t, after :: link(t, after) && inv(t.nodes) ==> inv(after)
    ensures inv(NodesAt(trace, left, k))
    decreases k
  {
    if k > 0 {
      KeptUpTo(link, zones, trace, left, inv, k - 1);
      assert LinkedAt(link, trace, left, k - 1);
    }
  }

  lemma OrderedIsNeverShort(t: Turn, after: seq<NumaNode>, name: string)
    requires IsTurn(Guaranteed, t, after) && ById(t.nodes)
    ensures Short(name)(t) == 0
  {
    IdsArePositions(t.nodes, t.combination, t.ids);
    WholeRequestTaken(t.nodes, t.request, t.combination, name);
  }

  /** For Guaranteed pods and nodes listed by id nothing is taken twice or lost. */
  lemma TraceConserves(zones: seq<NumaNode>, trace: seq<Turn>, left: seq<NumaNode>, name: string)
    requires IsTrace(zones, Guaranteed, trace, left) && ById(zones)
    ensures Everywhere(zones, name) == Everywhere(left, name) + Total(RequestsOf(trace), name)
  {
    var inv := (nodes: seq<NumaNode>) => ById(nodes);
    forall i | 0 <= i < |trace| ensures Short(name)(trace[i]) == 0 {
      KeptUpTo(LinkOf(Guaranteed), zones, trace, left, inv, i);
      assert LinkedAt(LinkOf(Guaranteed), trace, left, i);
      OrderedIsNeverShort(trace[i], NodesAt(trace, left, i + 1), name);
    }
    ConservedExactly(zones, Guaranteed, trace, left, name);
  }

  /** In a list in another order, a container put on one NUMA node leaves that node as it was. */
  lemma WrongNodeDrained(qos: QoS, t: Turn, after: seq<NumaNode>, p: nat)
    requires IsTurn(qos, t, after) && t.combination == [p] && p < |t.nodes| && t.nodes[p].id != p
    ensures after[p] == t.nodes[p]
  {
    assert t.combination[0] == p && IdsOf(t.nodes, t.combination) == {t.nodes[p].id};
    var ids := Inside(t.ids, |t.nodes|);
    forall i | 0 <= i < |ids| ensures ids[i] != p {
      assert t.ids[i] in Listed(t.ids);
    }
    forall name ensures Qty(after[p].resources, name) == Qty(t.nodes[p].resources, name) {
      assert DrainedOf(t.nodes, after, ids, |ids|, name, Qty(t.request, name));
      assert ids[..|ids|] == ids && p !in ids;
    }
    SameQuantities(after[p], t.nodes[p]);
  }

  ghost predicate Ascending(s: seq<nat>) {
    forall i, j :: 0 <= i < j < |s| ==> s[i] < s[j]
  }

  lemma ListedAppend(ids: seq<nat>, b: nat)
    ensures Listed(ids + [b]) == Listed(ids) + {b}
  {
    forall x | x in Listed(ids) ensures x in Listed(ids + [b]) {
      var i :| 0 <= i < |ids| && ids[i] == x;
      assert (ids + [b])[i] == x;
    }
    assert (ids + [b])[|ids|] == b;
  }

  lemma ListedEmpty(ids: seq<nat>)
    ensures Listed(ids) == {} <==> ids == []
  {
    if ids != [] {
      assert ids[0] in Listed(ids);
    }
  }

  /** BitMask.GetBits: the set bits in ascending order. */
  method GetBits(mask: set<nat>, bits: nat) returns (ids: seq<nat>)
    requires forall id: nat :: id in mask ==> id < bits
    ensures Ascending(ids) && Listed(ids) == mask
  {
    ids := [];
    for b := 0 to bits
      invariant Ascending(ids)
      invariant forall i :: 0 <= i < |ids| ==> ids[i] < b
      invariant forall id: nat :: id in Listed(ids) <==> id in mask && id < b
    {
      if b in mask {
        ListedAppend(ids, b);
        ids := ids + [b];
      }
    }
  }

  /** An ascending list is determined by its elements. */
  lemma {:induction false} AscendingUnique(a: seq<nat>, b: seq<nat>)
    requires Ascending(a) && Ascending(b) && Listed(a) == Listed(b)
    ensures a == b
    decreases |a|
  {
    ListedEmpty(a);
    ListedEmpty(b);
    if a != [] {
      assert a[|a| - 1] in Listed(b);
      var j :| 0 <= j < |b| && b[j] == a[|a| - 1];
      assert b[|b| - 1] in Listed(a);
      var i :| 0 <= i < |a| && a[i] == b[|b| - 1];
      assert a[|a| - 1] == b[|b| - 1];
      var a', b' := a[..|a| - 1], b[..|b| - 1];
      assert Listed(a') == Listed(a) - {a[|a| - 1]} by { DropLast(a); }
      assert Listed(b') == Listed(b) - {b[|b| - 1]} by { DropLast(b); }
      AscendingUnique(a', b');
    }
  }

  lemma DropLast(a: seq<nat>)
    requires Ascending(a) && a != []
    ensures Listed(a[..|a| - 1]) == Listed(a) - {a[|a| - 1]}
  {
    var rest := a[..|a| - 1];
    forall x | x in Listed(a) - {a[|a| - 1]} ensures x in Listed(rest) {
      var i :| 0 <= i < |a| && a[i] == x;
      assert rest[i] == x;
    }
  }

  /** Draining changes neither the ids nor the costs nor which resources are reported. */
  lemma ShapeKept(before: seq<NumaNode>, after: seq<NumaNode>, request: ResourceList)
    requires SameShape(before, after)
    ensures ById(before) ==> ById(after)
    ensures IdsInMask(before) ==> IdsInMask(after)
    ensures CostsAreBytes(before) ==> CostsAreBytes(after)
    ensures OnlyNonNUMAResources(after, request) == OnlyNonNUMAResources(before, request)
  {
  }

  /** How a container's turn ends. */
  datatype Service = Served | Unfit | Panicked

  /** The container fits, but draining would run off the list. */
  ghost predicate RunsOff(nodes: seq<NumaNode>, qos: QoS, request: ResourceList) {
    exists c, ids :: IsOptimal(nodes, qos, request, c) && AreIds(nodes, c, ids) && Overruns(nodes, ids, request)
  }

  /** One container: finds its combination and drains what its ids point at. */
  method ServeContainer(nodes: array<NumaNode>, qos: QoS, request: ResourceList)
    returns (service: Service, count: nat, closest: bool, ghost t: Turn)
    requires IdsInMask(nodes[..]) && CostsAreBytes(nodes[..])
    modifies nodes
    ensures service == Unfit <==> NoneFits(old(nodes[..]), qos, request)
    ensures service == Panicked <==> RunsOff(old(nodes[..]), qos, request)
    ensures service == Served ==> t.nodes == old(nodes[..]) && t.request == request && IsTurn(qos, t, nodes[..])
    ensures service == Served ==> count == |t.ids| && (closest <==> NoneCloser(t.nodes, t.combination))
  {
    ghost var before := nodes[..];
    ghost var c;
    var found, mask;
    found, mask, closest, c := NumaNodesRequired(nodes[..], qos, request);
    count, t := 0, Turn(before, request, c, []);
    if !found {
      return Unfit, count, closest, t;
    }
    forall id: nat | id in mask ensures id < MASK_BITS {
      var i :| 0 <= i < |c| && before[c[i]].id == id;
    }
    var ids := GetBits(mask, MASK_BITS);
    assert AreIds(before, c, ids);
    RunsOffExactly(before, qos, request, c, ids);
    count := |ids|;
    var panics := SubtractFromNUMAs(request, nodes, ids);
    t := Turn(before, request, c, ids);
    service := if panics then Panicked else Served;
  }

  /** The combination and its ids are determined, so they alone decide. */
  lemma RunsOffExactly(nodes: seq<NumaNode>, qos: QoS, request: ResourceList, c: seq<nat>, ids: seq<nat>)
    requires IsOptimal(nodes, qos, request, c) && AreIds(nodes, c, ids)
    ensures !NoneFits(nodes, qos, request)
    ensures RunsOff(nodes, qos, request) <==> Overruns(nodes, ids, request)
  {
    if d, ids' :| IsOptimal(nodes, qos, request, d) && AreIds(nodes, d, ids') && Overruns(nodes, ids', request) {
      OptimalIsUnique(nodes, qos, request, c, d);
      AscendingUnique(ids, ids');
    }
  }

  lemma NumaRequestsNext(zones: seq<NumaNode>, containers: seq<ResourceList>, k: nat)
    requires k < |containers|
    ensures NumaRequests(zones, containers[..k + 1])
            == NumaRequests(zones, containers[..k])
               + if OnlyNonNUMAResources(zones, containers[k]) then [] else [containers[k]]
  {
    assert containers[..k + 1][..k] == containers[..k];
  }

  /** A container is served if it names a resource of some NUMA node, even if it asks for none of it. */
  lemma {:induction false} NamingIsEnough(zones: seq<NumaNode>, containers: seq<ResourceList>, r: ResourceList)
    ensures r in NumaRequests(zones, containers)
            <==> r in containers && exists i, name :: 0 <= i < |zones| && name in r && name in zones[i].resources
    decreases |containers|
  {
    if containers != [] {
      NamingIsEnough(zones, containers[..|containers| - 1], r);
    }
  }

  lemma TraceExtends(link: Link, zones: seq<NumaNode>, trace: seq<Turn>, left: seq<NumaNode>, t: Turn)
    requires IsLinked(link, zones, trace, t.nodes) && link(t, left)
    ensures IsLinked(link, zones, trace + [t], left)
  {
    forall i | 0 <= i < |trace + [t]| ensures LinkedAt(link, trace + [t], left, i) {
      if i < |trace| {
        assert LinkedAt(link, trace, t.nodes, i);
      }
    }
  }

  lemma TotalsExtend(trace: seq<Turn>, t: Turn)
    ensures RequestsOf(trace + [t]) == RequestsOf(trace) + [t.request]
    ensures MostNodes(trace + [t]) == if MostNodes(trace) < |t.ids| then |t.ids| else MostNodes(trace)
  {
    assert (trace + [t])[..|trace|] == trace;
  }

  lemma ClosestExtends(trace: seq<Turn>, t: Turn)
    requires Within(t.combination, t.nodes)
    ensures AllClosest(trace + [t]) == (AllClosest(trace) && NoneCloser(t.nodes, t.combination))
  {
    var more := trace + [t];
    assert more[|trace|] == t;
    if AllClosest(more) {
      forall i | 0 <= i < |trace| ensures Within(trace[i].combination, trace[i].nodes) && NoneCloser(trace[i].nodes, trace[i].combination) {
        assert more[i] == trace[i];
      }
    }
  }

  /** Container k needs NUMA nodes and, after those before it, fits on no combination, or makes draining run off the list. */
  ghost predicate StuckAt(zones: seq<NumaNode>, qos: QoS, containers: seq<ResourceList>, k: nat, trace: seq<Turn>, left: seq<NumaNode>)
    requires k < |containers|
  {
    && RequestsOf(trace) == NumaRequests(zones, containers[..k]) && !OnlyNonNUMAResources(zones, containers[k])
    && StuckHere(left, qos, containers[k])
  }

  ghost predicate StuckHere(left: seq<NumaNode>, qos: QoS, request: ResourceList) {
    NoneFits(left, qos, request) || RunsOff(left, qos, request)
  }

  ghost predicate Stuck(zones: seq<NumaNode>, qos: QoS, containers: seq<ResourceList>, trace: seq<Turn>, left: seq<NumaNode>) {
    exists k :: 0 <= k < |containers| && StuckAt(zones, qos, containers, k, trace, left)
  }

  datatype Result = Score(value: int) | Panic

  ghost predicate NoneFits(nodes: seq<NumaNode>, qos: QoS, request: ResourceList) {
    forall d :: d != [] && IsCombination(d, 0, |nodes|, |d|) ==> !Fits(nodes, qos, request, d)
  }

  /**
   What a score says: the minimum if, served in turn, some container fits nowhere; the maximum if none needs
   NUMA nodes; otherwise the container that needs most and whether every one got the closest decide. There is none if
   draining runs off the list.
   */
  ghost predicate Justifies(zones: seq<NumaNode>, qos: QoS, containers: seq<ResourceList>, r: Result, trace: seq<Turn>, left: seq<NumaNode>) {
    && IsTrace(zones, qos, trace, left)
    && if Stuck(zones, qos, containers, trace, left) then
         exists k :: 0 <= k < |containers| && StuckAt(zones, qos, containers, k, trace, left) && r == AtStuck(left, qos, containers[k])
       else
         && RequestsOf(trace) == NumaRequests(zones, containers)
         && r == Score(if trace == [] then MAX_NODE_SCORE else NormalizeScore(MostNodes(trace), AllClosest(trace)))
  }

  ghost function AtStuck(left: seq<NumaNode>, qos: QoS, request: ResourceList): Result {
    if NoneFits(left, qos, request) then Score(MIN_NODE_SCORE) else Panic
  }

  ghost predicate IsScore(zones: seq<NumaNode>, qos: QoS, containers: seq<ResourceList>, r: Result) {
    exists trace, left :: Justifies(zones, qos, containers, r, trace, left)
  }

  /** The loop after k containers: the nodes left, the most ids a container needed, and whether all got the closest nodes. */
  ghost predicate Progress(zones: seq<NumaNode>, qos: QoS, containers: seq<ResourceList>, k: nat, trace: seq<Turn>,
                           now: seq<NumaNode>, most: nat, allClosest: bool)
    requires k <= |containers|
  {
    && SameShape(zones, now) && AreServed(zones, qos, containers, k, trace, now)
    && most == MostNodes(trace) && allClosest == AllClosest(trace) && (trace == [] <==> most == 0)
  }

  lemma ProgressSkip(zones: seq<NumaNode>, qos: QoS, containers: seq<ResourceList>, k: nat, trace: seq<Turn>,
                     now: seq<NumaNode>, most: nat, allClosest: bool)
    requires k < |containers| && Progress(zones, qos, containers, k, trace, now, most, allClosest)
    requires OnlyNonNUMAResources(now, containers[k])
    ensures Progress(zones, qos, containers, k + 1, trace, now, most, allClosest)
  {
    ShapeKept(zones, now, containers[k]);
    ServedSkip(zones, qos, containers, k, trace, now);
  }

  lemma ProgressTurn(zones: seq<NumaNode>, qos: QoS, containers: seq<ResourceList>, k: nat, trace: seq<Turn>, t: Turn,
                     after: seq<NumaNode>, most: nat, allClosest: bool)
    requires k < |containers| && !OnlyNonNUMAResources(t.nodes, containers[k]) && t.request == containers[k]
    requires Within(t.combination, t.nodes)
    ensures Progress(zones, qos, containers, k, trace, t.nodes, most, allClosest) && IsTurn(qos, t, after) ==>
      Progress(zones, qos, containers, k + 1, trace + [t], after,
               if |t.ids| > most then |t.ids| else most, allClosest && NoneCloser(t.nodes, t.combination))
  {
    if Progress(zones, qos, containers, k, trace, t.nodes, most, allClosest) && IsTurn(qos, t, after) {
      ShapeKept(zones, t.nodes, containers[k]);
      TurnHasIds(qos, t, after);
      ServedNext(zones, qos, containers, k, trace, t, after);
      TotalsExtend(trace, t);
      ClosestExtends(trace, t);
    }
  }

  lemma ProgressStuck(zones: seq<NumaNode>, qos: QoS, containers: seq<ResourceList>, k: nat, trace: seq<Turn>,
                      now: seq<NumaNode>, most: nat, allClosest: bool)
    requires k < |containers| && !OnlyNonNUMAResources(now, containers[k])
    ensures Progress(zones, qos, containers, k, trace, now, most, allClosest) && StuckHere(now, qos, containers[k]) ==>
      IsScore(zones, qos, containers, AtStuck(now, qos, containers[k]))
  {
    if Progress(zones, qos, containers, k, trace, now, most, allClosest) && StuckHere(now, qos, containers[k]) {
      ShapeKept(zones, now, containers[k]);
      StuckScores(zones, qos, containers, k, trace, now);
    }
  }

  lemma ProgressDone(zones: seq<NumaNode>, qos: QoS, containers: seq<ResourceList>, trace: seq<Turn>,
                     now: seq<NumaNode>, most: nat, allClosest: bool)
    requires Progress(zones, qos, containers, |containers|, trace, now, most, allClosest)
    ensures IsScore(zones, qos, containers, Score(if most == 0 then MAX_NODE_SCORE else NormalizeScore(most, allClosest)))
  {
    ServedScores(zones, qos, containers, trace, now);
  }

  /** The container-scope score of a node. */
  method LeastNUMAContainerScopeScore(zones: seq<NumaNode>, qos: QoS, containers: seq<ResourceList>) returns (r: Result)
    requires IdsInMask(zones) && CostsAreBytes(zones)
    ensures IsScore(zones, qos, containers, r)
  {
    var nodes := new NumaNode[|zones|](i requires 0 <= i < |zones| => zones[i]);
    assert nodes[..] == zones;
    var most, allClosest := 0, true;
    ghost var trace: seq<Turn> := [];
    for k := 0 to |containers|
      invariant Progress(zones, qos, containers, k, trace, nodes[..], most, allClosest)
    {
      var request := containers[k];
      ShapeKept(zones, nodes[..], request);
      ghost var before := nodes[..];
      if OnlyNonNUMAResources(nodes[..], request) {
        ProgressSkip(zones, qos, containers, k, trace, before, most, allClosest);
        continue;
      }
      ghost var t;
      var service, count, closest;
      service, count, closest, t := ServeContainer(nodes, qos, request);
      if service != Served {
        ProgressStuck(zones, qos, containers, k, trace, before, most, allClosest);
        return if service == Unfit then Score(MIN_NODE_SCORE) else Panic;
      }
      ProgressTurn(zones, qos, containers, k, trace, t, nodes[..], most, allClosest);
      trace := trace + [t];
      if !closest {
        allClosest := false;
      }
      if count > most {
        most := count;
      }
    }
    ProgressDone(zones, qos, containers, trace, nodes[..], most, allClosest);
    r := Score(if most == 0 then MAX_NODE_SCORE else NormalizeScore(most, allClosest));
  }

  lemma TurnHasIds(qos: QoS, t: Turn, after: seq<NumaNode>)
    requires IsTurn(qos, t, after)
    ensures t.ids != [] && Within(t.combination, t.nodes) && SameShape(t.nodes, after)
  {
    assert t.nodes[t.combination[0]].id in IdsOf(t.nodes, t.combination);
    ListedEmpty(t.ids);
  }

  /** The first k containers have had their turns, as far as they need NUMA nodes. */
  ghost predicate AreServed(zones: seq<NumaNode>, qos: QoS, containers: seq<ResourceList>, k: nat, trace: seq<Turn>, left: seq<NumaNode>)
    requires k <= |containers|
  {
    IsTrace(zones, qos, trace, left) && RequestsOf(trace) == NumaRequests(zones, containers[..k])
  }

  lemma ServedSkip(zones: seq<NumaNode>, qos: QoS, containers: seq<ResourceList>, k: nat, trace: seq<Turn>, left: seq<NumaNode>)
    requires k < |containers| && OnlyNonNUMAResources(zones, containers[k])
    ensures AreServed(zones, qos, containers, k, trace, left) ==> AreServed(zones, qos, containers, k + 1, trace, left)
  {
    NumaRequestsNext(zones, containers, k);
  }

  lemma ServedNext(zones: seq<NumaNode>, qos: QoS, containers: seq<ResourceList>, k: nat, trace: seq<Turn>, t: Turn, left: seq<NumaNode>)
    requires k < |containers| && !OnlyNonNUMAResources(zones, containers[k]) && t.request == containers[k]
    ensures AreServed(zones, qos, containers, k, trace, t.nodes) && IsTurn(qos, t, left) ==>
      AreServed(zones, qos, containers, k + 1, trace + [t], left)
  {
    NumaRequestsNext(zones, containers, k);
    if IsTrace(zones, qos, trace, t.nodes) && IsTurn(qos, t, left) {
      TraceExtends(LinkOf(qos), zones, trace, left, t);
    }
    assert RequestsOf(trace + [t]) == RequestsOf(trace) + [t.request];
  }

  lemma StuckScores(zones: seq<NumaNode>, qos: QoS, containers: seq<ResourceList>, k: nat, trace: seq<Turn>, left: seq<NumaNode>)
    requires k < |containers| && !OnlyNonNUMAResources(zones, containers[k])
    ensures AreServed(zones, qos, containers, k, trace, left) && StuckHere(left, qos, containers[k]) ==>
      IsScore(zones, qos, containers, AtStuck(left, qos, containers[k]))
  {
    if AreServed(zones, qos, containers, k, trace, left) && StuckHere(left, qos, containers[k]) {
      assert StuckAt(zones, qos, containers, k, trace, left);
      assert Justifies(zones, qos, containers, AtStuck(left, qos, containers[k]), trace, left);
    }
  }

  lemma ServedScores(zones: seq<NumaNode>, qos: QoS, containers: seq<ResourceList>, trace: seq<Turn>, left: seq<NumaNode>)
    ensures AreServed(zones, qos, containers, |containers|, trace, left) ==>
      IsScore(zones, qos, containers,
              Score(if trace == [] then MAX_NODE_SCORE else NormalizeScore(MostNodes(trace), AllClosest(trace))))
  {
    assert containers[..|containers|] == containers;
    if AreServed(zones, qos, containers, |containers|, trace, left) {
      NotStuck(zones, qos, containers, trace, left);
      assert Justifies(zones, qos, containers,
                       Score(if trace == [] then MAX_NODE_SCORE else NormalizeScore(MostNodes(trace), AllClosest(trace))), trace, left);
    }
  }

  lemma {:induction false} PrefixRequests(zones: seq<NumaNode>, containers: seq<ResourceList>, k: nat, n: nat)
    requires k <= n <= |containers|
    ensures NumaRequests(zones, containers[..k]) <= NumaRequests(zones, containers[..n])
    decreases n
  {
    if k < n {
      NumaRequestsNext(zones, containers, n - 1);
      PrefixRequests(zones, containers, k, n - 1);
    }
  }

  /** A trace that serves every container is stuck at none. */
  lemma NotStuck(zones: seq<NumaNode>, qos: QoS, containers: seq<ResourceList>, trace: seq<Turn>, left: seq<NumaNode>)
    requires RequestsOf(trace) == NumaRequests(zones, containers)
    ensures !Stuck(zones, qos, containers, trace, left)
  {
    forall k | 0 <= k < |containers| ensures !StuckAt(zones, qos, containers, k, trace, left) {
      if !OnlyNonNUMAResources(zones, containers[k]) {
        NumaRequestsNext(zones, containers, k);
        PrefixRequests(zones, containers, k + 1, |containers|);
        assert containers[..|containers|] == containers;
      }
    }
  }

  // ---- there is only one score ----

  lemma {:induction false} LexLessAsymmetric(a: seq<nat>, b: seq<nat>)
    requires LexLess(a, b)
    ensures !LexLess(b, a)
    decreases |a|
  {
    if a[0] == b[0] {
      LexLessAsymmetric(a[1..], b[1..]);
    }
  }

  lemma OptimalIsUnique(nodes: seq<NumaNode>, qos: QoS, request: ResourceList, c: seq<nat>, d: seq<nat>)
    requires IsOptimal(nodes, qos, request, c) && IsOptimal(nodes, qos, request, d)
    ensures c == d
  {
    if c != d {
      LexLessAsymmetric(c, d);
    }
  }

  lemma SameQuantities(a: NumaNode, b: NumaNode)
    requires a.id == b.id && a.costs == b.costs && a.resources.Keys == b.resources.Keys
    requires forall name :: Qty(a.resources, name) == Qty(b.resources, name)
    ensures a == b
  {
    forall name | name in a.resources ensures a.resources[name] == b.resources[name] {
      assert Qty(a.resources, name) == Qty(b.resources, name);
    }
    assert a.resources == b.resources;
  }

  lemma DrainedIsUnique(before: seq<NumaNode>, a: seq<NumaNode>, b: seq<NumaNode>, ids: seq<nat>, request: ResourceList)
    requires Within(ids, before) && IsDrained(before, a, ids, request) && IsDrained(before, b, ids, request)
    ensures a == b
  {
    forall p | 0 <= p < |before| ensures a[p] == b[p] {
      forall name ensures Qty(a[p].resources, name) == Qty(b[p].resources, name) {
        QuantityAfter(before, a, b, ids, name, Qty(request, name), p);
      }
      SameQuantities(a[p], b[p]);
    }
  }

  lemma QuantityAfter(before: seq<NumaNode>, a: seq<NumaNode>, b: seq<NumaNode>, ids: seq<nat>, name: string, quantity: nat, p: nat)
    requires Within(ids, before) && p < |before|
    requires DrainedOf(before, a, ids, |ids|, name, quantity) && DrainedOf(before, b, ids, |ids|, name, quantity)
    ensures Qty(a[p].resources, name) == Qty(b[p].resources, name)
  {
    assert ids[..|ids|] == ids;
    if p in ids {
      var j :| 0 <= j < |ids| && ids[j] == p;
    }
  }

  /** What a turn found and requested determines the rest of it. */
  ghost predicate Functional(link: Link) {
    forall t, after, t', after' ::
      link(t, after) && link(t', after') && t.nodes == t'.nodes && t.request == t'.request ==> t == t' && after == after'
  }

  lemma LinkIsFunctional(qos: QoS)
    ensures Functional(LinkOf(qos))
  {
    var link := LinkOf(qos);
    forall t, after, t', after' | link(t, after) && link(t', after') && t.nodes == t'.nodes && t.request == t'.request
      ensures t == t' && after == after'
    {
      SameTurn(qos, t, after, t', after');
    }
  }

  /** The requests determine the trace, and a shorter trace is the beginning of a longer one. */
  lemma {:induction false} TraceIsUnique(link: Link, zones: seq<NumaNode>, t: seq<Turn>, left: seq<NumaNode>,
                                         t': seq<Turn>, left': seq<NumaNode>, k: nat)
    requires Functional(link) && IsLinked(link, zones, t, left) && IsLinked(link, zones, t', left')
    requires k <= |t| <= |t'| && forall i :: 0 <= i < |t| ==> t[i].request == t'[i].request
    ensures NodesAt(t, left, k) == NodesAt(t', left', k)
    ensures forall i :: 0 <= i < k ==> t[i] == t'[i]
    decreases k
  {
    if k > 0 {
      TraceIsUnique(link, zones, t, left, t', left', k - 1);
      assert LinkedAt(link, t, left, k - 1) && LinkedAt(link, t', left', k - 1);
    }
  }

  lemma SameTurn(qos: QoS, t: Turn, left: seq<NumaNode>, t': Turn, left': seq<NumaNode>)
    requires t.nodes == t'.nodes && t.request == t'.request
    ensures IsTurn(qos, t, left) && IsTurn(qos, t', left') ==> t == t' && left == left'
  {
    if IsTurn(qos, t, left) && IsTurn(qos, t', left') {
      OptimalIsUnique(t.nodes, qos, t.request, t.combination, t'.combination);
      AscendingUnique(t.ids, t'.ids);
      DrainedIsUnique(t.nodes, left, left', Inside(t.ids, |t.nodes|), t.request);
    }
  }

  /** A trace that gets further than another shows the other one is not stuck. */
  lemma NotStuckBefore(zones: seq<NumaNode>, qos: QoS, containers: seq<ResourceList>, k: nat, n: nat,
                       t: seq<Turn>, left: seq<NumaNode>, t': seq<Turn>, left': seq<NumaNode>)
    requires k < n <= |containers| && IsTrace(zones, qos, t, left) && IsTrace(zones, qos, t', left')
    requires RequestsOf(t') == NumaRequests(zones, containers[..n])
    ensures !StuckAt(zones, qos, containers, k, t, left)
  {
    if RequestsOf(t) == NumaRequests(zones, containers[..k]) && !OnlyNonNUMAResources(zones, containers[k]) {
      NumaRequestsNext(zones, containers, k);
      PrefixRequests(zones, containers, k + 1, n);
      RequestsPrefix(t, t', containers[k]);
      LinkIsFunctional(qos);
      TraceIsUnique(LinkOf(qos), zones, t, left, t', left', |t|);
      assert LinkedAt(LinkOf(qos), t', left', |t|);
      var next := t'[|t|];
      RunsOffExactly(left, qos, containers[k], next.combination, next.ids);
    }
  }

  lemma RequestsPrefix(t: seq<Turn>, t': seq<Turn>, request: ResourceList)
    requires RequestsOf(t) + [request] <= RequestsOf(t')
    ensures |t| < |t'| && t'[|t|].request == request
    ensures forall i :: 0 <= i < |t| ==> t[i].request == t'[i].request
  {
    assert (RequestsOf(t) + [request])[|t|] == RequestsOf(t')[|t|];
    forall i | 0 <= i < |t| ensures t[i].request == t'[i].request {
      assert (RequestsOf(t) + [request])[i] == RequestsOf(t')[i];
    }
  }

  lemma SameRequests(t: seq<Turn>, t': seq<Turn>)
    requires RequestsOf(t) == RequestsOf(t')
    ensures |t| == |t'| && forall i :: 0 <= i < |t| ==> t[i].request == t'[i].request
  {
    forall i | 0 <= i < |t| ensures t[i].request == t'[i].request {
      assert RequestsOf(t)[i] == RequestsOf(t')[i];
    }
  }

  lemma SameEnd(zones: seq<NumaNode>, qos: QoS, t: seq<Turn>, left: seq<NumaNode>, t': seq<Turn>, left': seq<NumaNode>)
    requires IsTrace(zones, qos, t, left) && IsTrace(zones, qos, t', left') && RequestsOf(t) == RequestsOf(t')
    ensures t == t' && left == left'
  {
    SameRequests(t, t');
    LinkIsFunctional(qos);
    TraceIsUnique(LinkOf(qos), zones, t, left, t', left', |t|);
  }

  /** One way to justify a score by serving all containers excludes every way to get stuck. */
  lemma ServedExcludesStuck(zones: seq<NumaNode>, qos: QoS, containers: seq<ResourceList>,
                            t: seq<Turn>, left: seq<NumaNode>, t': seq<Turn>, left': seq<NumaNode>)
    requires IsTrace(zones, qos, t, left) && IsTrace(zones, qos, t', left')
    requires RequestsOf(t') == NumaRequests(zones, containers)
    ensures !Stuck(zones, qos, containers, t, left)
  {
    assert containers[..|containers|] == containers;
    forall k | 0 <= k < |containers| ensures !StuckAt(zones, qos, containers, k, t, left) {
      NotStuckBefore(zones, qos, containers, k, |containers|, t, left, t', left');
    }
  }

  /** Two ways to get stuck are stuck at the same container, with the same nodes left. */
  lemma StuckAlike(zones: seq<NumaNode>, qos: QoS, containers: seq<ResourceList>, k: nat, k': nat,
                   t: seq<Turn>, left: seq<NumaNode>, t': seq<Turn>, left': seq<NumaNode>)
    requires k < |containers| && k' < |containers| && IsTrace(zones, qos, t, left) && IsTrace(zones, qos, t', left')
    ensures StuckAt(zones, qos, containers, k, t, left) && StuckAt(zones, qos, containers, k', t', left') ==>
      k == k' && left == left'
  {
    if StuckAt(zones, qos, containers, k, t, left) && StuckAt(zones, qos, containers, k', t', left') {
      if k < k' {
        NotStuckBefore(zones, qos, containers, k, k', t, left, t', left');
      } else if k' < k {
        NotStuckBefore(zones, qos, containers, k', k, t', left', t, left);
      } else {
        SameEnd(zones, qos, t, left, t', left');
      }
    }
  }

  /** The score is determined by the zones, the quality of service and the containers. */
  lemma ScoreIsUnique(zones: seq<NumaNode>, qos: QoS, containers: seq<ResourceList>, r: Result, r': Result)
    ensures IsScore(zones, qos, containers, r) && IsScore(zones, qos, containers, r') ==> r == r'
  {
    forall t, left, t', left' | Justifies(zones, qos, containers, r, t, left) && Justifies(zones, qos, containers, r', t', left')
      ensures r == r'
    {
      JustifiedAlike(zones, qos, containers, r, t, left, r', t', left');
    }
  }

  lemma JustifiedAlike(zones: seq<NumaNode>, qos: QoS, containers: seq<ResourceList>, r: Result, t: seq<Turn>, left: seq<NumaNode>,
                       r': Result, t': seq<Turn>, left': seq<NumaNode>)
    ensures Justifies(zones, qos, containers, r, t, left) && Justifies(zones, qos, containers, r', t', left') ==> r == r'
  {
    if Justifies(zones, qos, containers, r, t, left) && Justifies(zones, qos, containers, r', t', left') {
      if !Stuck(zones, qos, containers, t, left) {
        ServedExcludesStuck(zones, qos, containers, t', left', t, left);
        SameEnd(zones, qos, t, left, t', left');
      } else if !Stuck(zones, qos, containers, t', left') {
        ServedExcludesStuck(zones, qos, containers, t, left, t', left');
      } else {
        var k :| 0 <= k < |containers| && StuckAt(zones, qos, containers, k, t, left) && r == AtStuck(left, qos, containers[k]);
        var k' :| 0 <= k' < |containers| && StuckAt(zones, qos, containers, k', t', left') && r' == AtStuck(left', qos, containers[k']);
        StuckAlike(zones, qos, containers, k, k', t, left, t', left');
      }
    }
  }

  // ---- when draining stays on the list ----

  /** All ids are positions of the list, in whatever order. */
  ghost predicate IdsOnList(nodes: seq<NumaNode>) {
    forall i :: 0 <= i < |nodes| ==> nodes[i].id < |nodes|
  }

  lemma NeverRunsOff(nodes: seq<NumaNode>, qos: QoS, request: ResourceList)
    requires IdsOnList(nodes)
    ensures !RunsOff(nodes, qos, request)
  {
    forall c, ids | IsOptimal(nodes, qos, request, c) && AreIds(nodes, c, ids) ensures Inside(ids, |nodes|) == ids {
      forall i | 0 <= i < |ids| ensures ids[i] < |nodes| {
        assert ids[i] in Listed(ids);
      }
    }
  }

  /** With all ids on the list the score never panics. */
  lemma NeverPanics(zones: seq<NumaNode>, qos: QoS, containers: seq<ResourceList>)
    requires IdsOnList(zones)
    ensures !IsScore(zones, qos, containers, Panic)
  {
    var inv := (nodes: seq<NumaNode>) => IdsOnList(nodes);
    forall trace, left | Justifies(zones, qos, containers, Panic, trace, left) ensures false {
      KeptUpTo(LinkOf(qos), zones, trace, left, inv, |trace|);
      var k :| 0 <= k < |containers| && StuckAt(zones, qos, containers, k, trace, left) && Panic == AtStuck(left, qos, containers[k]);
      NeverRunsOff(left, qos, containers[k]);
    }
  }

  /** A list of one NUMA node with id 1: its only position is 0, and draining position 1 panics. */
  lemma MissingNodePanics(available: nat, wanted: nat)
    requires 0 < wanted <= available
    ensures
      var zones, request := [NumaNode(1, map["cpu" := available], map[])], map["cpu" := wanted];
      IsScore(zones, Guaranteed, [request], Panic)
  {
    var zones, request := [NumaNode(1, map["cpu" := available], map[])], map["cpu" := wanted];
    OnlyNodeIsOptimal(zones, request);
    assert [0][..0] == [];
    assert IdsOf(zones, [0]) == {1} && Listed([1]) == {1};
    assert AreIds(zones, [0], [1]);
    assert Inside([1], 1) == [];
    assert Overruns(zones, [1], request) by {
      assert request["cpu"] > Available(zones, [], "cpu");
    }
    assert "cpu" in request && "cpu" in zones[0].resources;
    RunsOffExactly(zones, Guaranteed, request, [0], [1]);
    FirstPanics(zones, Guaranteed, request);
  }

  lemma FirstPanics(zones: seq<NumaNode>, qos: QoS, request: ResourceList)
    requires !OnlyNonNUMAResources(zones, request)
    ensures RunsOff(zones, qos, request) && !NoneFits(zones, qos, request) ==> IsScore(zones, qos, [request], Panic)
  {
    if RunsOff(zones, qos, request) && !NoneFits(zones, qos, request) {
      assert IsTrace(zones, qos, [], zones);
      assert [request][..0] == [] && RequestsOf([]) == [];
      StuckScores(zones, qos, [request], 0, [], zones);
    }
  }

  lemma OnlyNodeIsOptimal(zones: seq<NumaNode>, request: ResourceList)
    requires |zones| == 1 && request.Keys == {"cpu"} && "cpu" in zones[0].resources && request["cpu"] <= zones[0].resources["cpu"]
    ensures IsOptimal(zones, Guaranteed, request, [0])
  {
    assert [0][..0] == [];
    assert Available(zones, [0], "cpu") == Available(zones, [], "cpu") + Qty(zones[0].resources, "cpu");
    forall d | d != [] && IsCombination(d, 0, 1, |d|) ensures d == [0] {
      CombinationSize(d, 0, 1);
    }
  }
}
