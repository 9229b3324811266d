/** For which lists of NUMA nodes the container-scope score takes from the machine what the containers get. */
module NumaOrder {
  import opened ResourceLists
  import opened Sums
  import opened NumaFilter
  import opened LeastNuma
  import opened NumaDrain
  import opened NumaScore

  /** Every combination's ids are its positions exactly in a list ordered by id. */
  lemma PositionsExactly(nodes: seq<NumaNode>)
    ensures (forall c, ids :: IsCombination(c, 0, |nodes|, |c|) && AreIds(nodes, c, ids) ==> ids == c) <==> ById(nodes)
  {
    if ById(nodes) {
      forall c, ids | IsCombination(c, 0, |nodes|, |c|) && AreIds(nodes, c, ids) ensures ids == c {
        IdsArePositions(nodes, c, ids);
      }
    } else {
      var p :| 0 <= p < |nodes| && nodes[p].id != p;
      SingleIds(nodes, p);
      assert IsCombination([p], 0, |nodes|, 1);
    }
  }

  lemma SingleIds(nodes: seq<NumaNode>, p: nat)
    requires p < |nodes|
    ensures AreIds(nodes, [p], [nodes[p].id])
  {
    var c, ids := [p], [nodes[p].id];
    assert nodes[c[0]].id in IdsOf(nodes, c) && ids[0] in Listed(ids);
    assert IdsOf(nodes, c) == {nodes[p].id};
    assert Listed(ids) == {nodes[p].id};
  }

  ghost predicate HasSome(node: NumaNode) {
    exists name :: Qty(node.resources, name) > 0
  }

  /** Every node that has something is at the position that is its id. */
  ghost predicate InPlace(nodes: seq<NumaNode>) {
    forall p :: 0 <= p < |nodes| && HasSome(nodes[p]) ==> nodes[p].id == p
  }

  /** Every node that has something has an id that is a position. */
  ghost predicate OnList(nodes: seq<NumaNode>) {
    forall p :: 0 <= p < |nodes| && HasSome(nodes[p]) ==> nodes[p].id < |nodes|
  }

  // ---- what an optimal combination holds ----

  ghost predicate AsksForNothing(request: ResourceList) {
    forall name :: Qty(request, name) == 0
  }

  lemma AvailableWithout(nodes: seq<NumaNode>, c: seq<nat>, i: nat, name: string)
    requires IsCombination(c, 0, |nodes|, |c|) && i < |c|
    ensures Within(c[..i] + c[i + 1..], nodes)
    ensures Available(nodes, c, name) == Available(nodes, c[..i] + c[i + 1..], name) + Qty(nodes[c[i]].resources, name)
  {
    var d := c[..i] + c[i + 1..];
    OneFewer(c, i, |nodes|);
    ListedWithout(c, i);
    AvailableIsSum(nodes, c, name);
    AvailableIsSum(nodes, d, name);
    SumSetInsert(Listed(d), c[i], QtyAt(nodes, name));
  }

  lemma OneFewer(c: seq<nat>, i: nat, n: nat)
    requires IsCombination(c, 0, n, |c|) && i < |c|
    ensures IsCombination(c[..i] + c[i + 1..], 0, n, |c| - 1)
  {
    var d := c[..i] + c[i + 1..];
    forall k | 0 <= k < |d| ensures d[k] == c[if k < i then k else k + 1] {}
  }

  lemma ListedWithout(c: seq<nat>, i: nat)
    requires Ascending(c) && i < |c|
    ensures c[i] !in Listed(c[..i] + c[i + 1..]) && Listed(c) == Listed(c[..i] + c[i + 1..]) + {c[i]}
  {
    var d := c[..i] + c[i + 1..];
    forall k | 0 <= k < |c| && k != i ensures c[k] in Listed(d) {
      assert d[if k < i then k else k - 1] == c[k];
    }
    forall k | 0 <= k < |d| ensures d[k] in Listed(c) && d[k] != c[i] {
      assert d[k] == c[if k < i then k else k + 1];
    }
  }

  /** A node that has nothing is in an optimal combination only if nothing is asked for. */
  lemma EmptyNodeUnneeded(nodes: seq<NumaNode>, request: ResourceList, c: seq<nat>, i: nat)
    requires IsOptimal(nodes, Guaranteed, request, c) && i < |c| && !HasSome(nodes[c[i]])
    ensures AsksForNothing(request)
  {
    var d := c[..i] + c[i + 1..];
    OneFewer(c, i, |nodes|);
    forall name ensures Available(nodes, c, name) == Available(nodes, d, name) {
      AvailableWithout(nodes, c, i, name);
    }
    if d != [] {
      StillFits(nodes, request, c, i);
    }
    assert d == [];
    forall name ensures Qty(request, name) == 0 {
      WholeRequestTaken(nodes, request, c, name);
      assert Available(nodes, d, name) == 0;
    }
  }

  lemma StillFits(nodes: seq<NumaNode>, request: ResourceList, c: seq<nat>, i: nat)
    requires IsCombination(c, 0, |nodes|, |c|) && Fits(nodes, Guaranteed, request, c) && i < |c|
    requires IsCombination(c[..i] + c[i + 1..], 0, |nodes|, |c| - 1)
    requires forall name :: Available(nodes, c, name) == Available(nodes, c[..i] + c[i + 1..], name)
    ensures Fits(nodes, Guaranteed, request, c[..i] + c[i + 1..])
  {
    var d := c[..i] + c[i + 1..];
    forall k, name | 0 <= k < |d| && name in request ensures name in nodes[d[k]].resources {
      assert d[k] == c[if k < i then k else k + 1];
    }
  }

  /** Unless nothing is asked for, every node of an optimal combination has something. */
  lemma AllHaveSome(nodes: seq<NumaNode>, request: ResourceList, c: seq<nat>)
    requires IsOptimal(nodes, Guaranteed, request, c) && !AsksForNothing(request)
    ensures forall i :: 0 <= i < |c| ==> HasSome(nodes[c[i]])
  {
    forall i | 0 <= i < |c| ensures HasSome(nodes[c[i]]) {
      if !HasSome(nodes[c[i]]) {
        EmptyNodeUnneeded(nodes, request, c, i);
      }
    }
  }

  // ---- in place: nothing goes wrong ----

  lemma NothingOverruns(nodes: seq<NumaNode>, ids: seq<nat>, request: ResourceList)
    requires AsksForNothing(request)
    ensures !Overruns(nodes, ids, request)
  {
    forall name | name in request ensures request[name] == 0 {
      assert Qty(request, name) == 0;
    }
  }

  lemma DrainsEnough(nodes: seq<NumaNode>, request: ResourceList, c: seq<nat>, ids: seq<nat>)
    requires InPlace(nodes) && IsOptimal(nodes, Guaranteed, request, c) && AreIds(nodes, c, ids)
    ensures !Overruns(nodes, ids, request)
    ensures forall name :: Qty(request, name) <= Available(nodes, Inside(ids, |nodes|), name)
  {
    if AsksForNothing(request) {
      NothingOverruns(nodes, ids, request);
    } else {
      AllHaveSome(nodes, request, c);
      assert IdsOf(nodes, c) == Listed(c);
      AscendingUnique(ids, c);
      assert Inside(ids, |nodes|) == ids;
      forall name ensures Qty(request, name) <= Available(nodes, c, name) {
        WholeRequestTaken(nodes, request, c, name);
      }
    }
  }

  lemma OnlyLess(qos: QoS, t: Turn, after: seq<NumaNode>, p: nat)
    requires IsTurn(qos, t, after) && p < |after| && HasSome(after[p])
    ensures p < |t.nodes| && after[p].id == t.nodes[p].id && HasSome(t.nodes[p])
  {
    var ids := Inside(t.ids, |t.nodes|);
    var name :| Qty(after[p].resources, name) > 0;
    assert DrainedOf(t.nodes, after, ids, |ids|, name, Qty(t.request, name));
    assert ids[..|ids|] == ids;
    if p in ids {
      var j :| 0 <= j < |ids| && ids[j] == p;
    }
  }

  lemma InPlaceStays(qos: QoS, t: Turn, after: seq<NumaNode>)
    requires IsTurn(qos, t, after)
    ensures InPlace(t.nodes) ==> InPlace(after)
    ensures OnList(t.nodes) ==> OnList(after)
  {
    forall p | 0 <= p < |after| && HasSome(after[p]) ensures after[p].id == t.nodes[p].id && HasSome(t.nodes[p]) {
      OnlyLess(qos, t, after, p);
    }
  }

  ghost predicate Conserves(zones: seq<NumaNode>, trace: seq<Turn>, left: seq<NumaNode>, name: string) {
    Everywhere(zones, name) == Everywhere(left, name) + Total(RequestsOf(trace), name)
  }

  ghost predicate NoneRunsOff(nodes: seq<NumaNode>) {
    forall request :: !RunsOff(nodes, Guaranteed, request)
  }

  /** Whatever Guaranteed containers are served: what is gone is what they requested, and none makes draining run off. */
  ghost predicate NeverWrong(zones: seq<NumaNode>) {
    forall trace, left :: IsTrace(zones, Guaranteed, trace, left) ==>
      NoneRunsOff(left) && forall name :: Conserves(zones, trace, left, name)
  }

  lemma InPlaceUpTo(zones: seq<NumaNode>, trace: seq<Turn>, left: seq<NumaNode>, k: nat)
    requires InPlace(zones) && IsTrace(zones, Guaranteed, trace, left) && k <= |trace|
    ensures InPlace(NodesAt(trace, left, k))
  {
    var inv := (nodes: seq<NumaNode>) => InPlace(nodes);
    forall t, after | LinkOf(Guaranteed)(t, after) && inv(t.nodes) ensures inv(after) {
      InPlaceStays(Guaranteed, t, after);
    }
    KeptUpTo(LinkOf(Guaranteed), zones, trace, left, inv, k);
  }

  lemma InPlaceConserves(zones: seq<NumaNode>, trace: seq<Turn>, left: seq<NumaNode>, name: string)
    requires InPlace(zones) && IsTrace(zones, Guaranteed, trace, left)
    ensures Conserves(zones, trace, left, name)
  {
    forall i | 0 <= i < |trace| ensures Short(name)(trace[i]) == 0 {
      InPlaceUpTo(zones, trace, left, i);
      assert LinkedAt(LinkOf(Guaranteed), trace, left, i);
      var t := trace[i];
      DrainsEnough(t.nodes, t.request, t.combination, t.ids);
    }
    ConservedExactly(zones, Guaranteed, trace, left, name);
  }

  lemma InPlaceStaysOn(zones: seq<NumaNode>, trace: seq<Turn>, left: seq<NumaNode>)
    requires InPlace(zones) && IsTrace(zones, Guaranteed, trace, left)
    ensures NoneRunsOff(left)
  {
    InPlaceUpTo(zones, trace, left, |trace|);
    forall request, c, ids | IsOptimal(left, Guaranteed, request, c) && AreIds(left, c, ids) ensures !Overruns(left, ids, request) {
      DrainsEnough(left, request, c, ids);
    }
  }

  // ---- out of place: one unit at a time, something does ----

  ghost function Unit(name: string): ResourceList {
    map[name := 1]
  }

  lemma UnitFits(nodes: seq<NumaNode>, name: string, p: nat)
    requires p < |nodes|
    ensures Fits(nodes, Guaranteed, Unit(name), [p]) <==> Qty(nodes[p].resources, name) > 0
  {
    assert [p][..0] == [];
    assert Available(nodes, [p], name) == Available(nodes, [], name) + Qty(nodes[p].resources, name);
  }

  /** The node with some of the resource that is closest to itself, and of those the first. */
  lemma {:induction false} BestSingle(nodes: seq<NumaNode>, name: string, k: nat, p: nat) returns (b: nat)
    requires p < k <= |nodes| && Qty(nodes[p].resources, name) > 0
    ensures b < k && Qty(nodes[b].resources, name) > 0
    ensures forall i :: 0 <= i < k && Qty(nodes[i].resources, name) > 0 ==>
      Distance(nodes, [b]) <= Distance(nodes, [i]) && (Distance(nodes, [b]) == Distance(nodes, [i]) ==> b <= i)
    decreases k
  {
    var n := k - 1;
    if i :| 0 <= i < n && Qty(nodes[i].resources, name) > 0 {
      b := BestSingle(nodes, name, n, i);
      if Qty(nodes[n].resources, name) > 0 && Distance(nodes, [n]) < Distance(nodes, [b]) {
        b := n;
      }
    } else {
      b := p;
    }
  }

  lemma BestIsOptimalSingle(nodes: seq<NumaNode>, name: string, b: nat)
    requires b < |nodes| && Qty(nodes[b].resources, name) > 0
    requires forall i :: 0 <= i < |nodes| && Qty(nodes[i].resources, name) > 0 ==>
               Distance(nodes, [b]) <= Distance(nodes, [i]) && (Distance(nodes, [b]) == Distance(nodes, [i]) ==> b <= i)
    ensures IsOptimal(nodes, Guaranteed, Unit(name), [b])
  {
    UnitFits(nodes, name, b);
    forall d | d != [] && IsCombination(d, 0, |nodes|, |d|) && Fits(nodes, Guaranteed, Unit(name), d)
      ensures 1 <= |d|
      ensures |d| == 1 ==> Distance(nodes, [b]) <= Distance(nodes, d)
      ensures |d| == 1 && Distance(nodes, [b]) == Distance(nodes, d) && [b] != d ==> LexLess([b], d)
    {
      if |d| == 1 {
        assert d == [d[0]];
        UnitFits(nodes, name, d[0]);
      }
    }
  }

  /** One unit less at a position that has one. */
  ghost function TakeOne(nodes: seq<NumaNode>, q: nat, name: string): seq<NumaNode>
    requires q < |nodes|
  {
    var n := nodes[q];
    if Qty(n.resources, name) == 0 then nodes
    else nodes[q := n.(resources := n.resources[name := n.resources[name] - 1])]
  }

  lemma OneTaken(nodes: seq<NumaNode>, q: nat, name: string)
    requires q < |nodes|
    ensures IsDrained(nodes, TakeOne(nodes, q, name), [q], Unit(name))
  {
    var after := TakeOne(nodes, q, name);
    assert [q][..0] == [] && [q][..1] == [q];
    forall other ensures DrainedOf(nodes, after, [q], 1, other, Qty(Unit(name), other)) {
      assert Taken(nodes, [q], other, Qty(Unit(name), other), 0) == Min(Qty(nodes[q].resources, other), Qty(Unit(name), other));
    }
  }

  lemma UnitTurn(nodes: seq<NumaNode>, name: string, b: nat)
    requires b < |nodes| && nodes[b].id < |nodes| && IsOptimal(nodes, Guaranteed, Unit(name), [b])
    ensures
      var q := nodes[b].id;
      var t := Turn(nodes, Unit(name), [b], [q]);
      IsTurn(Guaranteed, t, TakeOne(nodes, q, name)) && Short(name)(t) == if Qty(nodes[q].resources, name) == 0 then 1 else 0
  {
    var q := nodes[b].id;
    SingleIds(nodes, b);
    assert Inside([q], |nodes|) == [q];
    OneTaken(nodes, q, name);
    assert [q][..0] == [];
    assert Available(nodes, [q], name) == Available(nodes, [], name) + Qty(nodes[q].resources, name);
  }

  lemma UnitRunsOff(nodes: seq<NumaNode>, name: string, b: nat)
    requires b < |nodes| && nodes[b].id >= |nodes| && IsOptimal(nodes, Guaranteed, Unit(name), [b])
    ensures RunsOff(nodes, Guaranteed, Unit(name))
  {
    var q := nodes[b].id;
    SingleIds(nodes, b);
    assert Inside([q], |nodes|) == [];
    assert Unit(name)[name] > Available(nodes, [], name);
    assert Overruns(nodes, [q], Unit(name));
  }

  lemma {:induction false} TotalCons(r: ResourceList, rs: seq<ResourceList>, name: string)
    ensures Total([r] + rs, name) == Qty(r, name) + Total(rs, name)
    decreases |rs|
  {
    if rs == [] {
      assert [r] + rs == [r] && [r][..0] == [];
    } else {
      TotalCons(r, rs[..|rs| - 1], name);
      assert ([r] + rs)[..|rs|] == [r] + rs[..|rs| - 1];
    }
  }

  lemma TurnFirst(link: Link, t: Turn, after: seq<NumaNode>, trace: seq<Turn>, left: seq<NumaNode>)
    requires link(t, after) && IsLinked(link, after, trace, left)
    ensures IsLinked(link, t.nodes, [t] + trace, left)
    ensures RequestsOf([t] + trace) == [t.request] + RequestsOf(trace)
  {
    forall i | 0 <= i < |trace| + 1 ensures LinkedAt(link, [t] + trace, left, i) {
      if i > 0 {
        assert LinkedAt(link, trace, left, i - 1);
      }
    }
  }

  /** Something of the resource has gone wrong, or does with one more unit. */
  ghost predicate WrongBy(zones: seq<NumaNode>, name: string, trace: seq<Turn>, left: seq<NumaNode>) {
    && IsTrace(zones, Guaranteed, trace, left)
    && (RunsOff(left, Guaranteed, Unit(name)) || !Conserves(zones, trace, left, name))
  }

  lemma WrongLater(nodes: seq<NumaNode>, name: string, t: Turn, after: seq<NumaNode>, trace: seq<Turn>, left: seq<NumaNode>)
    requires t.nodes == nodes && t.request == Unit(name) && Short(name)(t) == 0
    ensures IsTurn(Guaranteed, t, after) && WrongBy(after, name, trace, left) ==> WrongBy(nodes, name, [t] + trace, left)
  {
    if IsTurn(Guaranteed, t, after) && WrongBy(after, name, trace, left) {
      TurnFirst(LinkOf(Guaranteed), t, after, trace, left);
      TotalCons(t.request, RequestsOf(trace), name);
      TurnTakes(Guaranteed, t, after, name);
    }
  }

  lemma WrongNow(nodes: seq<NumaNode>, name: string, t: Turn, after: seq<NumaNode>)
    requires IsTurn(Guaranteed, t, after) && t.nodes == nodes && Short(name)(t) == 1
    ensures WrongBy(nodes, name, [t], after)
  {
    TurnFirst(LinkOf(Guaranteed), t, after, [], after);
    assert [t] + [] == [t];
    TotalCons(t.request, RequestsOf([]), name);
    TurnTakes(Guaranteed, t, after, name);
    assert [t.request] + RequestsOf([]) == RequestsOf([t]);
  }

  lemma EverywhereIsNat(nodes: seq<NumaNode>, name: string)
    ensures Everywhere(nodes, name) >= 0
  {
    SumSetNonNegative(FullMask(|nodes|), QtyAt(nodes, name));
  }

  /** Units are handed out from the best node. One out of place never gets less, so its units are handed out again and again. */
  lemma {:induction false} OutOfPlaceGoesWrong(nodes: seq<NumaNode>, name: string, p: nat, total: nat)
    returns (trace: seq<Turn>, left: seq<NumaNode>)
    requires p < |nodes| && nodes[p].id != p && Qty(nodes[p].resources, name) > 0 && Everywhere(nodes, name) <= total
    ensures WrongBy(nodes, name, trace, left)
    decreases total
  {
    var b := BestSingle(nodes, name, |nodes|, p);
    BestIsOptimalSingle(nodes, name, b);
    var q := nodes[b].id;
    if q >= |nodes| {
      UnitRunsOff(nodes, name, b);
      trace, left := [], nodes;
    } else {
      var t, after := Turn(nodes, Unit(name), [b], [q]), TakeOne(nodes, q, name);
      UnitTurn(nodes, name, b);
      if Qty(nodes[q].resources, name) == 0 {
        WrongNow(nodes, name, t, after);
        trace, left := [t], after;
      } else {
        TurnTakes(Guaranteed, t, after, name);
        EverywhereIsNat(after, name);
        trace, left := OutOfPlaceGoesWrong(after, name, if q == p then b else p, total - 1);
        WrongLater(nodes, name, t, after, trace, left);
        trace := [t] + trace;
      }
    }
  }

  /** Nothing ever goes wrong for Guaranteed pods if and only if every node that has something is at the position of its id. */
  lemma RightExactly(zones: seq<NumaNode>)
    ensures NeverWrong(zones) <==> InPlace(zones)
  {
    if InPlace(zones) {
      forall trace, left | IsTrace(zones, Guaranteed, trace, left)
        ensures NoneRunsOff(left) && forall name :: Conserves(zones, trace, left, name)
      {
        InPlaceStaysOn(zones, trace, left);
        forall name ensures Conserves(zones, trace, left, name) {
          InPlaceConserves(zones, trace, left, name);
        }
      }
    } else {
      var p :| 0 <= p < |zones| && HasSome(zones[p]) && zones[p].id != p;
      var name :| Qty(zones[p].resources, name) > 0;
      EverywhereIsNat(zones, name);
      var trace, left := OutOfPlaceGoesWrong(zones, name, p, Everywhere(zones, name));
    }
  }

  /** Two containers get the same 4 units: the node that has them is at position 0 with id 1, and position 1 has nothing to lose. */
  lemma HandedOutTwice()
    ensures
      var zones := [NumaNode(1, map["cpu" := 4], map[]), NumaNode(0, map["cpu" := 0], map[])];
      var t := Turn(zones, map["cpu" := 4], [0], [1]);
      IsTrace(zones, Guaranteed, [t, t], zones) && !Conserves(zones, [t, t], zones, "cpu")
  {
    var zones := [NumaNode(1, map["cpu" := 4], map[]), NumaNode(0, map["cpu" := 0], map[])];
    var t := Turn(zones, map["cpu" := 4], [0], [1]);
    FirstOfTwo(zones, t.request);
    SingleIds(zones, 0);
    NothingToLose(zones, t.request);
    assert IsTurn(Guaranteed, t, zones);
    TurnFirst(LinkOf(Guaranteed), t, zones, [], zones);
    assert [t] + [] == [t];
    TurnFirst(LinkOf(Guaranteed), t, zones, [t], zones);
    assert [t] + [t] == [t, t] && RequestsOf([t, t]) == [t.request] + [t.request];
    TotalCons(t.request, [t.request], "cpu");
    TotalCons(t.request, [], "cpu");
    assert [t.request] + [] == [t.request];
  }

  lemma FirstOfTwo(zones: seq<NumaNode>, request: ResourceList)
    requires |zones| == 2 && request.Keys == {"cpu"} && "cpu" in zones[0].resources
    requires Qty(zones[1].resources, "cpu") < request["cpu"] <= zones[0].resources["cpu"]
    ensures IsOptimal(zones, Guaranteed, request, [0])
  {
    assert [0][..0] == [] && [1][..0] == [];
    assert Available(zones, [0], "cpu") == Available(zones, [], "cpu") + Qty(zones[0].resources, "cpu");
    assert Available(zones, [1], "cpu") == Available(zones, [], "cpu") + Qty(zones[1].resources, "cpu");
    forall d | d != [] && IsCombination(d, 0, 2, |d|) && Fits(zones, Guaranteed, request, d) ensures d == [0] || |d| > 1 {
      if |d| == 1 {
        assert d == [0] || d == [1];
      }
    }
  }

  lemma NothingToLose(zones: seq<NumaNode>, request: ResourceList)
    requires |zones| == 2 && request.Keys == {"cpu"} && forall name :: Qty(zones[1].resources, name) == 0
    ensures !Overruns(zones, [1], request) && Inside([1], 2) == [1] && IsDrained(zones, zones, [1], request)
  {
    assert Inside([1], 2) == [1];
    forall name ensures DrainedOf(zones, zones, [1], 1, name, Qty(request, name)) {
    }
  }

  // ---- exactly when the score panics ----

  lemma StaysOnList(nodes: seq<NumaNode>, request: ResourceList)
    requires OnList(nodes)
    ensures !RunsOff(nodes, Guaranteed, request)
  {
    forall c, ids | IsOptimal(nodes, Guaranteed, request, c) && AreIds(nodes, c, ids) ensures !Overruns(nodes, ids, request) {
      if AsksForNothing(request) {
        NothingOverruns(nodes, ids, request);
      } else {
        AllHaveSome(nodes, request, c);
        forall i | 0 <= i < |ids| ensures ids[i] < |nodes| {
          assert ids[i] in Listed(ids);
        }
        assert Inside(ids, |nodes|) == ids;
      }
    }
  }

  lemma OnListNeverPanics(zones: seq<NumaNode>, containers: seq<ResourceList>)
    requires OnList(zones)
    ensures !IsScore(zones, Guaranteed, containers, Panic)
  {
    var inv := (nodes: seq<NumaNode>) => OnList(nodes);
    forall t, after | LinkOf(Guaranteed)(t, after) && inv(t.nodes) ensures inv(after) {
      InPlaceStays(Guaranteed, t, after);
    }
    forall trace, left | Justifies(zones, Guaranteed, containers, Panic, trace, left) ensures false {
      KeptUpTo(LinkOf(Guaranteed), zones, trace, left, inv, |trace|);
      var k :| 0 <= k < |containers| && StuckAt(zones, Guaranteed, containers, k, trace, left)
               && Panic == AtStuck(left, Guaranteed, containers[k]);
      StaysOnList(left, containers[k]);
    }
  }

  /** The first k positions that have some of a resource. */
  ghost function Holders(nodes: seq<NumaNode>, name: string, k: nat): seq<nat>
    requires k <= |nodes|
  {
    if k == 0 then []
    else if Qty(nodes[k - 1].resources, name) > 0 then Holders(nodes, name, k - 1) + [k - 1]
    else Holders(nodes, name, k - 1)
  }

  lemma {:induction false} HoldersHold(nodes: seq<NumaNode>, name: string, k: nat)
    requires k <= |nodes|
    ensures IsCombination(Holders(nodes, name, k), 0, k, |Holders(nodes, name, k)|)
    ensures forall p: nat :: p in Listed(Holders(nodes, name, k)) <==> p < k && Qty(nodes[p].resources, name) > 0
    decreases k
  {
    if k > 0 {
      var last: nat := k - 1;
      HoldersHold(nodes, name, last);
      ListedAppend(Holders(nodes, name, last), last);
    }
  }

  lemma {:induction false} HoldersHaveAll(nodes: seq<NumaNode>, name: string, k: nat)
    requires k <= |nodes| && Within(Holders(nodes, name, k), nodes)
    ensures Available(nodes, Holders(nodes, name, k), name) == SumSet(FullMask(k), QtyAt(nodes, name))
    decreases k
  {
    if k > 0 {
      var last: nat := k - 1;
      var rest := Holders(nodes, name, last);
      HoldersHold(nodes, name, last);
      HoldersHaveAll(nodes, name, last);
      SumSetInsert(FullMask(last), last, QtyAt(nodes, name));
      assert FullMask(k) == FullMask(last) + {last};
      assert (rest + [last])[..|rest|] == rest;
    }
  }

  lemma {:induction false} ListedSize(ids: seq<nat>)
    requires Ascending(ids)
    ensures |Listed(ids)| == |ids|
    decreases |ids|
  {
    if ids == [] {
      assert Listed(ids) == {};
    } else {
      ListedSize(ids[..|ids| - 1]);
      DropLast(ids);
      assert Listed(ids) == Listed(ids[..|ids| - 1]) + {ids[|ids| - 1]};
    }
  }

  /** Positions that do not include some holder do not have all there is. */
  lemma HolderMissing(nodes: seq<NumaNode>, d: seq<nat>, h: nat, name: string)
    requires Within(d, nodes) && Ascending(d) && h < |nodes| && h !in Listed(d) && Qty(nodes[h].resources, name) > 0
    ensures Available(nodes, d, name) < Everywhere(nodes, name)
  {
    AvailableIsSum(nodes, d, name);
    SumSetInsert(Listed(d), h, QtyAt(nodes, name));
    SumSetSubset(Listed(d) + {h}, FullMask(|nodes|), QtyAt(nodes, name));
  }

  lemma Subset(a: set<nat>, b: set<nat>)
    requires a <= b
    ensures |a| <= |b| && (|a| == |b| ==> a == b)
  {
    assert b == a + (b - a) && a !! (b - a);
  }

  /** A container that asks for all there is gets all holders. */
  lemma HoldersAreOptimal(nodes: seq<NumaNode>, name: string, c: seq<nat>, request: ResourceList)
    requires c == Holders(nodes, name, |nodes|) && c != []
    requires request.Keys == {name} && request[name] == Everywhere(nodes, name)
    ensures IsOptimal(nodes, Guaranteed, request, c)
  {
    HoldersHold(nodes, name, |nodes|);
    HoldersHaveAll(nodes, name, |nodes|);
    forall i | 0 <= i < |c| ensures name in nodes[c[i]].resources {
      assert c[i] in Listed(c);
    }
    forall d | d != [] && IsCombination(d, 0, |nodes|, |d|) && Fits(nodes, Guaranteed, request, d)
      ensures |c| < |d| || c == d
    {
      WholeRequestTaken(nodes, request, d, name);
      NeedsAllHolders(nodes, name, c, d);
    }
  }

  lemma NeedsAllHolders(nodes: seq<NumaNode>, name: string, c: seq<nat>, d: seq<nat>)
    requires c == Holders(nodes, name, |nodes|) && IsCombination(d, 0, |nodes|, |d|)
    requires Available(nodes, d, name) >= Everywhere(nodes, name)
    ensures |c| < |d| || c == d
  {
    HoldersHold(nodes, name, |nodes|);
    forall h | h in Listed(c) ensures h in Listed(d) {
      if h !in Listed(d) {
        HolderMissing(nodes, d, h, name);
      }
    }
    ListedSize(c);
    ListedSize(d);
    Subset(Listed(c), Listed(d));
    if |c| == |d| {
      AscendingUnique(c, d);
    }
  }

  lemma {:induction false} IdsOfSize(nodes: seq<NumaNode>, c: seq<nat>)
    requires Within(c, nodes)
    ensures |IdsOf(nodes, c)| <= |c|
    decreases |c|
  {
    if c == [] {
      assert IdsOf(nodes, c) == {};
    } else {
      var rest := c[..|c| - 1];
      IdsOfSize(nodes, rest);
      assert IdsOf(nodes, c) == IdsOf(nodes, rest) + {nodes[c[|c| - 1]].id};
    }
  }

  lemma {:induction false} SortedIds(s: set<nat>) returns (ids: seq<nat>)
    ensures Ascending(ids) && Listed(ids) == s
    decreases |s|
  {
    if s == {} {
      ids := [];
    } else {
      var m := Largest(s);
      var rest := SortedIds(s - {m});
      ids := rest + [m];
      ListedAppend(rest, m);
      forall i | 0 <= i < |rest| ensures rest[i] < m {
        assert rest[i] in Listed(rest);
      }
    }
  }

  lemma {:induction false} Largest(s: set<nat>) returns (m: nat)
    requires s != {}
    ensures m in s && forall x :: x in s ==> x <= m
    decreases |s|
  {
    var x :| x in s;
    var rest := s - {x};
    assert s == rest + {x};
    m := x;
    if rest != {} {
      var r := Largest(rest);
      m := if r > x then r else x;
    }
  }

  /** With an id that is no position, the positions drained are fewer than the holders. */
  lemma AllIsTooMuch(nodes: seq<NumaNode>, name: string, c: seq<nat>, ids: seq<nat>, p: nat)
    requires c == Holders(nodes, name, |nodes|) && Within(c, nodes) && AreIds(nodes, c, ids)
    requires p < |nodes| && Qty(nodes[p].resources, name) > 0 && nodes[p].id >= |nodes|
    ensures Inside(ids, |nodes|) != ids && Available(nodes, Inside(ids, |nodes|), name) < Everywhere(nodes, name)
  {
    HoldersHold(nodes, name, |nodes|);
    assert p in Listed(c) && nodes[p].id in IdsOf(nodes, c);
    var inside := Inside(ids, |nodes|);
    var k :| 0 <= k < |ids| && ids[k] == nodes[p].id;
    assert inside != ids;
    IdsOfSize(nodes, c);
    ListedSize(c);
    ListedSize(ids);
    ListedSize(inside);
    if Listed(c) <= Listed(inside) {
      Subset(Listed(c), Listed(inside));
    } else {
      var h :| h in Listed(c) && h !in Listed(inside);
      HolderMissing(nodes, inside, h, name);
    }
  }

  lemma AllRunsOff(zones: seq<NumaNode>, name: string, p: nat, request: ResourceList)
    requires p < |zones| && Qty(zones[p].resources, name) > 0 && zones[p].id >= |zones|
    requires request.Keys == {name} && request[name] == Everywhere(zones, name)
    ensures RunsOff(zones, Guaranteed, request) && !NoneFits(zones, Guaranteed, request)
  {
    var c := Holders(zones, name, |zones|);
    HoldersHold(zones, name, |zones|);
    assert p in Listed(c);
    HoldersAreOptimal(zones, name, c, request);
    var ids := SortedIds(IdsOf(zones, c));
    AllIsTooMuch(zones, name, c, ids, p);
    assert Overruns(zones, ids, request);
    RunsOffExactly(zones, Guaranteed, request, c, ids);
  }

  lemma OffListPanics(zones: seq<NumaNode>, name: string, p: nat) returns (request: ResourceList)
    requires p < |zones| && Qty(zones[p].resources, name) > 0 && zones[p].id >= |zones|
    ensures IsScore(zones, Guaranteed, [request], Panic)
  {
    EverywhereIsNat(zones, name);
    request := map[name := Everywhere(zones, name) as nat];
    AllRunsOff(zones, name, p, request);
    assert name in request && name in zones[p].resources;
    FirstPanics(zones, Guaranteed, request);
  }

  /** Some Guaranteed pod's score panics if and only if a node that has something has an id that is no position. */
  lemma PanicsExactly(zones: seq<NumaNode>)
    ensures (exists containers :: IsScore(zones, Guaranteed, containers, Panic)) <==> !OnList(zones)
  {
    if OnList(zones) {
      forall containers ensures !IsScore(zones, Guaranteed, containers, Panic) {
        OnListNeverPanics(zones, containers);
      }
    } else {
      var p :| 0 <= p < |zones| && HasSome(zones[p]) && zones[p].id >= |zones|;
      var name :| Qty(zones[p].resources, name) > 0;
      var request := OffListPanics(zones, name, p);
    }
  }

  /** Where every NUMA node has something, no pod of any class panics if and only if all ids are positions. */
  lemma NeverPanicsExactly(zones: seq<NumaNode>)
    requires forall p :: 0 <= p < |zones| ==> HasSome(zones[p])
    ensures (forall qos, containers :: !IsScore(zones, qos, containers, Panic)) <==> IdsOnList(zones)
  {
    if IdsOnList(zones) {
      forall qos, containers ensures !IsScore(zones, qos, containers, Panic) {
        NeverPanics(zones, qos, containers);
      }
    } else {
      PanicsExactly(zones);
    }
  }

  // ---- the ends of the scale ----

  lemma TurnSize(qos: QoS, t: Turn, after: seq<NumaNode>)
    requires IsTurn(qos, t, after)
    ensures 1 <= |t.ids| <= |t.nodes|
  {
    ListedSize(t.ids);
    IdsOfSize(t.nodes, t.combination);
    CombinationSize(t.combination, 0, |t.nodes|);
    assert t.nodes[t.combination[0]].id in Listed(t.ids);
  }

  lemma {:induction false} MostWithin(trace: seq<Turn>, n: nat)
    requires forall i :: 0 <= i < |trace| ==> 1 <= |trace[i].ids| <= n
    ensures trace != [] ==> 1 <= MostNodes(trace) <= n
    decreases |trace|
  {
    if trace != [] {
      MostWithin(trace[..|trace| - 1], n);
      assert 1 <= |trace[|trace| - 1].ids| <= n;
    }
  }

  lemma TraceSize(zones: seq<NumaNode>, qos: QoS, trace: seq<Turn>, left: seq<NumaNode>)
    requires IsTrace(zones, qos, trace, left)
    ensures trace != [] ==> 1 <= MostNodes(trace) <= |zones|
  {
    var inv := (nodes: seq<NumaNode>) => |nodes| == |zones|;
    forall i | 0 <= i < |trace| ensures 1 <= |trace[i].ids| <= |zones| {
      KeptUpTo(LinkOf(qos), zones, trace, left, inv, i);
      assert LinkedAt(LinkOf(qos), trace, left, i);
      TurnSize(qos, trace[i], NodesAt(trace, left, i + 1));
    }
    MostWithin(trace, |zones|);
  }

  /**
   Up to eight NUMA nodes, a score is in range; it is the lowest exactly if some container, in its turn, fits nowhere, and
   the highest exactly if no container names a resource of a NUMA node.
   */
  lemma WorstAndBestScores(zones: seq<NumaNode>, qos: QoS, containers: seq<ResourceList>, trace: seq<Turn>, left: seq<NumaNode>, value: int)
    requires |zones| <= HIGHEST_NUMA_ID && Justifies(zones, qos, containers, Score(value), trace, left)
    ensures 0 <= value <= 100
    ensures value == 0 <==> Stuck(zones, qos, containers, trace, left)
    ensures value == 100 <==> NumaRequests(zones, containers) == []
  {
    TraceSize(zones, qos, trace, left);
    if Stuck(zones, qos, containers, trace, left) {
      var k :| 0 <= k < |containers| && StuckAt(zones, qos, containers, k, trace, left);
      NumaRequestsNext(zones, containers, k);
      PrefixRequests(zones, containers, k + 1, |containers|);
      assert containers[..|containers|] == containers;
    } else {
      ScoreInRange(MostNodes(trace), AllClosest(trace));
      assert |RequestsOf(trace)| == |trace|;
    }
  }
}
