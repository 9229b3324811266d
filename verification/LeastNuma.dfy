/** Scoring nodes by how few, and how close, NUMA nodes a pod needs. */
module LeastNuma {
  import opened ResourceLists
  import opened NumaFilter

  const MAX_DISTANCE: nat := 255
  const MIN_NODE_SCORE: int := 0
  const MAX_NODE_SCORE: int := 100

  // ---- combinations ----

  /** The lists of one sequence, each with x put in front, and then those of another. */
  function Join(x: nat, first: seq<seq<nat>>, second: seq<seq<nat>>): (cs: seq<seq<nat>>)
    ensures |cs| == |first| + |second|
  {
    seq(|first|, i requires 0 <= i < |first| => [x] + first[i]) + second
  }

  /** combin.Combinations: the k-element subsets of lo..n-1 as ascending lists, in lexicographic order. */
  function Combinations(lo: nat, n: nat, k: nat): seq<seq<nat>>
    decreases n - lo
  {
    if k == 0 then [[]]
    else if lo >= n then []
    else Join(lo, Combinations(lo + 1, n, k - 1), Combinations(lo + 1, n, k))
  }

  ghost predicate IsCombination(c: seq<nat>, lo: nat, n: nat, k: nat) {
    && |c| == k
    && (forall i :: 0 <= i < |c| ==> lo <= c[i] < n)
    && (forall i, j :: 0 <= i < j < |c| ==> c[i] < c[j])
  }

  ghost predicate LexLess(a: seq<nat>, b: seq<nat>) {
    a != [] && b != [] && (a[0] < b[0] || (a[0] == b[0] && LexLess(a[1..], b[1..])))
  }

  lemma JoinAt(x: nat, first: seq<seq<nat>>, second: seq<seq<nat>>, i: nat)
    requires i < |first| + |second|
    ensures Join(x, first, second)[i] == if i < |first| then [x] + first[i] else second[i - |first|]
  {
  }

  ghost predicate AllCombinations(cs: seq<seq<nat>>, lo: nat, n: nat, k: nat) {
    forall i :: 0 <= i < |cs| ==> IsCombination(cs[i], lo, n, k)
  }

  lemma {:induction false} CombinationsSound(lo: nat, n: nat, k: nat)
    ensures AllCombinations(Combinations(lo, n, k), lo, n, k)
    decreases n - lo
  {
    if k != 0 && lo < n {
      CombinationsSound(lo + 1, n, k - 1);
      CombinationsSound(lo + 1, n, k);
      JoinSound(lo, n, k, Combinations(lo + 1, n, k - 1), Combinations(lo + 1, n, k));
    }
  }

  lemma JoinSound(lo: nat, n: nat, k: nat, first: seq<seq<nat>>, second: seq<seq<nat>>)
    requires 0 < k && lo < n && AllCombinations(first, lo + 1, n, k - 1) && AllCombinations(second, lo + 1, n, k)
    ensures AllCombinations(Join(lo, first, second), lo, n, k)
  {
    forall i | 0 <= i < |first| + |second| ensures IsCombination(Join(lo, first, second)[i], lo, n, k) {
      JoinAt(lo, first, second, i);
      if i < |first| {
        Prepended(lo, n, k, first[i]);
      }
    }
  }

  lemma Prepended(lo: nat, n: nat, k: nat, c: seq<nat>)
    requires 0 < k && lo < n && IsCombination(c, lo + 1, n, k - 1)
    ensures IsCombination([lo] + c, lo, n, k)
  {
  }

  lemma SplitCombination(lo: nat, n: nat, k: nat, c: seq<nat>)
    requires 0 < k && IsCombination(c, lo, n, k)
    ensures lo <= c[0] < n
    ensures c[0] == lo ==> IsCombination(c[1..], lo + 1, n, k - 1) && c == [lo] + c[1..]
    ensures c[0] != lo ==> IsCombination(c, lo + 1, n, k)
  {
  }

  lemma JoinHas(x: nat, first: seq<seq<nat>>, second: seq<seq<nat>>, c: seq<nat>)
    ensures c in first ==> [x] + c in Join(x, first, second)
    ensures c in second ==> c in Join(x, first, second)
  {
    if c in first {
      var i :| 0 <= i < |first| && first[i] == c;
      JoinAt(x, first, second, i);
    }
    if c in second {
      var i :| 0 <= i < |second| && second[i] == c;
      JoinAt(x, first, second, |first| + i);
    }
  }

  lemma {:induction false} CombinationsComplete(lo: nat, n: nat, k: nat, c: seq<nat>)
    requires IsCombination(c, lo, n, k)
    ensures c in Combinations(lo, n, k)
    decreases n - lo
  {
    if k != 0 {
      SplitCombination(lo, n, k, c);
      var first, second := Combinations(lo + 1, n, k - 1), Combinations(lo + 1, n, k);
      if c[0] == lo {
        CombinationsComplete(lo + 1, n, k - 1, c[1..]);
        JoinHas(lo, first, second, c[1..]);
      } else {
        CombinationsComplete(lo + 1, n, k, c);
        JoinHas(lo, first, second, c);
      }
    }
  }

  ghost predicate Ascends(cs: seq<seq<nat>>) {
    forall i, j :: 0 <= i < j < |cs| ==> LexLess(cs[i], cs[j])
  }

  ghost predicate StartAbove(cs: seq<seq<nat>>, x: nat) {
    forall i :: 0 <= i < |cs| ==> cs[i] != [] && x < cs[i][0]
  }

  lemma {:induction false} CombinationsAscend(lo: nat, n: nat, k: nat)
    ensures Ascends(Combinations(lo, n, k))
    decreases n - lo
  {
    if k != 0 && lo < n {
      CombinationsAscend(lo + 1, n, k - 1);
      CombinationsAscend(lo + 1, n, k);
      CombinationsStart(lo, n, k);
      JoinAscends(lo, Combinations(lo + 1, n, k - 1), Combinations(lo + 1, n, k));
    }
  }

  lemma CombinationsStart(lo: nat, n: nat, k: nat)
    requires 0 < k
    ensures StartAbove(Combinations(lo + 1, n, k), lo)
  {
    CombinationsSound(lo + 1, n, k);
  }

  lemma JoinAscends(x: nat, first: seq<seq<nat>>, second: seq<seq<nat>>)
    requires Ascends(first) && Ascends(second) && StartAbove(second, x)
    ensures Ascends(Join(x, first, second))
  {
    var cs := Join(x, first, second);
    forall i, j | 0 <= i < j < |cs| ensures LexLess(cs[i], cs[j]) {
      JoinAt(x, first, second, i);
      JoinAt(x, first, second, j);
      if j < |first| {
        LexLessUnder(x, first[i], first[j]);
      }
    }
  }

  lemma LexLessUnder(x: nat, a: seq<nat>, b: seq<nat>)
    ensures LexLess(a, b) ==> LexLess([x] + a, [x] + b)
  {
    assert ([x] + a)[1..] == a && ([x] + b)[1..] == b;
  }

  // ---- distances ----

  /** Costs are entries of a system locality table: bytes. */
  ghost predicate CostsAreBytes(nodes: seq<NumaNode>) {
    forall i, id :: 0 <= i < |nodes| && id in nodes[i].costs ==> nodes[i].costs[id] <= MAX_DISTANCE
  }

  ghost predicate Within(c: seq<nat>, nodes: seq<NumaNode>) {
    forall i :: 0 <= i < |c| ==> c[i] < |nodes|
  }

  function Cost(nodes: seq<NumaNode>, a: nat, b: nat): nat
    requires a < |nodes| && b < |nodes|
  {
    if nodes[b].id in nodes[a].costs then nodes[a].costs[nodes[b].id] else MAX_DISTANCE
  }

  ghost function RowCost(nodes: seq<NumaNode>, a: nat, c: seq<nat>): nat
    requires a < |nodes| && Within(c, nodes)
  {
    if c == [] then 0 else RowCost(nodes, a, c[..|c| - 1]) + Cost(nodes, a, c[|c| - 1])
  }

  /** Sum of the costs from the nodes in rows to the nodes in c. */
  ghost function TotalCost(nodes: seq<NumaNode>, rows: seq<nat>, c: seq<nat>): nat
    requires Within(rows, nodes) && Within(c, nodes)
  {
    if rows == [] then 0 else TotalCost(nodes, rows[..|rows| - 1], c) + RowCost(nodes, rows[|rows| - 1], c)
  }

  /** The average cost over all ordered pairs of the combination. */
  ghost function Distance(nodes: seq<NumaNode>, c: seq<nat>): real
    requires Within(c, nodes)
  {
    if c == [] then MAX_DISTANCE as real
    else TotalCost(nodes, c, c) as real / (|c| * |c|) as real
  }

  method NodesAvgDistance(nodes: seq<NumaNode>, c: seq<nat>) returns (d: real)
    requires Within(c, nodes)
    ensures d == Distance(nodes, c)
  {
    if |c| == 0 {
      return MAX_DISTANCE as real;
    }
    var accu := 0;
    for i := 0 to |c|
      invariant accu == TotalCost(nodes, c[..i], c)
    {
      var start := accu;
      for j := 0 to |c|
        invariant accu == start + RowCost(nodes, c[i], c[..j])
      {
        assert c[..j + 1][..j] == c[..j];
        accu := accu + Cost(nodes, c[i], c[j]);
      }
      assert c[..|c|] == c;
      assert c[..i + 1][..i] == c[..i];
    }
    assert c[..|c|] == c;
    d := accu as real / (|c| * |c|) as real;
  }

  lemma {:induction false} RowCostBound(nodes: seq<NumaNode>, a: nat, c: seq<nat>)
    requires a < |nodes| && Within(c, nodes) && CostsAreBytes(nodes)
    ensures RowCost(nodes, a, c) <= MAX_DISTANCE * |c|
    decreases |c|
  {
    if c != [] {
      RowCostBound(nodes, a, c[..|c| - 1]);
    }
  }

  lemma {:induction false} TotalCostBound(nodes: seq<NumaNode>, rows: seq<nat>, c: seq<nat>)
    requires Within(rows, nodes) && Within(c, nodes) && CostsAreBytes(nodes)
    ensures TotalCost(nodes, rows, c) <= MAX_DISTANCE * |c| * |rows|
    decreases |rows|
  {
    if rows != [] {
      TotalCostBound(nodes, rows[..|rows| - 1], c);
      RowCostBound(nodes, rows[|rows| - 1], c);
      var m, r := MAX_DISTANCE * |c|, |rows|;
      assert m * r == m * (r - 1) + m;
    }
  }

  lemma DistanceBound(nodes: seq<NumaNode>, c: seq<nat>)
    requires Within(c, nodes) && CostsAreBytes(nodes)
    ensures Distance(nodes, c) <= MAX_DISTANCE as real
  {
    if c != [] {
      TotalCostBound(nodes, c, c);
      var k := |c| * |c|;
      assert MAX_DISTANCE * |c| * |c| == MAX_DISTANCE * k;
      Quotient(TotalCost(nodes, c, c), k, MAX_DISTANCE);
    }
  }

  lemma Quotient(total: nat, k: nat, bound: nat)
    requires k > 0 && total <= bound * k
    ensures total as real / k as real <= bound as real
  {
    var q := total as real / k as real;
    assert q * (k as real) == total as real;
    assert total as real <= (bound as real) * (k as real);
    if q > bound as real {
      assert q * (k as real) > (bound as real) * (k as real);
    }
  }

  lemma QuotientOrder(a: real, b: real, k: real)
    requires k > 0.0
    ensures a / k <= b / k <==> a <= b
  {
    var x, y := a / k, b / k;
    assert x * k == a && y * k == b;
    if x <= y {
      assert (y - x) * k >= 0.0;
    } else {
      assert (x - y) * k > 0.0;
    }
  }

  /** Among combinations of one size, comparing averages is comparing totals. */
  lemma DistanceOrder(nodes: seq<NumaNode>, c: seq<nat>, d: seq<nat>)
    requires Within(c, nodes) && Within(d, nodes) && |c| == |d| > 0
    ensures Distance(nodes, c) <= Distance(nodes, d) <==> TotalCost(nodes, c, c) <= TotalCost(nodes, d, d)
  {
    QuotientOrder(TotalCost(nodes, c, c) as real, TotalCost(nodes, d, d) as real, (|c| * |c|) as real);
  }

  // ---- distances are those reported ----

  /** The costs from one node to others grow with the single ones, and stay the same only if all of these do. */
  lemma {:induction false} RowRaised(nodes: seq<NumaNode>, nodes': seq<NumaNode>, a: nat, c: seq<nat>)
    requires |nodes'| == |nodes| && a < |nodes| && Within(c, nodes)
    requires forall b :: 0 <= b < |nodes| ==> Cost(nodes, a, b) <= Cost(nodes', a, b)
    ensures RowCost(nodes, a, c) <= RowCost(nodes', a, c)
    ensures RowCost(nodes, a, c) < RowCost(nodes', a, c)
            <==> exists j :: 0 <= j < |c| && Cost(nodes, a, c[j]) < Cost(nodes', a, c[j])
    decreases |c|
  {
    if c != [] {
      var n := |c| - 1;
      RowRaised(nodes, nodes', a, c[..n]);
      if j :| 0 <= j < n && Cost(nodes, a, c[j]) < Cost(nodes', a, c[j]) {
        assert c[..n][j] == c[j];
      }
    }
  }

  ghost predicate SomeRaised(nodes: seq<NumaNode>, nodes': seq<NumaNode>, a: nat, c: seq<nat>)
    requires |nodes'| == |nodes| && a < |nodes| && Within(c, nodes)
  {
    exists j :: 0 <= j < |c| && Cost(nodes, a, c[j]) < Cost(nodes', a, c[j])
  }

  lemma {:induction false} TotalRaised(nodes: seq<NumaNode>, nodes': seq<NumaNode>, rows: seq<nat>, c: seq<nat>)
    requires |nodes'| == |nodes| && Within(rows, nodes) && Within(c, nodes)
    requires forall a, b :: 0 <= a < |nodes| && 0 <= b < |nodes| ==> Cost(nodes, a, b) <= Cost(nodes', a, b)
    ensures TotalCost(nodes, rows, c) <= TotalCost(nodes', rows, c)
    ensures TotalCost(nodes, rows, c) < TotalCost(nodes', rows, c)
            <==> exists i :: 0 <= i < |rows| && SomeRaised(nodes, nodes', rows[i], c)
    decreases |rows|
  {
    if rows != [] {
      var n := |rows| - 1;
      TotalRaised(nodes, nodes', rows[..n], c);
      RowRaised(nodes, nodes', rows[n], c);
      if i :| 0 <= i < n && SomeRaised(nodes, nodes', rows[i], c) {
        assert rows[..n][i] == rows[i];
      }
    }
  }

  lemma DistanceRaised(nodes: seq<NumaNode>, nodes': seq<NumaNode>, c: seq<nat>)
    requires |nodes'| == |nodes| && Within(c, nodes)
    requires forall a, b :: 0 <= a < |nodes| && 0 <= b < |nodes| ==> Cost(nodes, a, b) <= Cost(nodes', a, b)
    ensures Distance(nodes, c) <= Distance(nodes', c)
    ensures Distance(nodes, c) < Distance(nodes', c) <==> exists i :: 0 <= i < |c| && SomeRaised(nodes, nodes', c[i], c)
  {
    TotalRaised(nodes, nodes', c, c);
    if c != [] {
      var low, high := TotalCost(nodes, c, c) as real, TotalCost(nodes', c, c) as real;
      QuotientOrder(low, high, (|c| * |c|) as real);
      QuotientOrder(high, low, (|c| * |c|) as real);
    }
  }

  /** The node reports this cost to that id. */
  ghost function Reporting(nodes: seq<NumaNode>, a: nat, id: nat, cost: nat): seq<NumaNode>
    requires a < |nodes|
  {
    nodes[a := nodes[a].(costs := nodes[a].costs[id := cost])]
  }

  /** The combination holds the node and one with that id. */
  ghost predicate HoldsPair(nodes: seq<NumaNode>, c: seq<nat>, a: nat, id: nat)
    requires Within(c, nodes)
  {
    a in c && exists j :: 0 <= j < |c| && nodes[c[j]].id == id
  }

  /** Reporting a larger cost takes exactly the combinations that hold the pair farther apart, and leaves the others alone. */
  lemma LargerCostIsFarther(nodes: seq<NumaNode>, a: nat, id: nat, cost: nat, c: seq<nat>)
    requires a < |nodes| && id in nodes[a].costs && nodes[a].costs[id] < cost && Within(c, nodes)
    ensures
      var nodes' := Reporting(nodes, a, id, cost);
      if HoldsPair(nodes, c, a, id) then Distance(nodes, c) < Distance(nodes', c) else Distance(nodes, c) == Distance(nodes', c)
  {
    var nodes' := Reporting(nodes, a, id, cost);
    DistanceRaised(nodes, nodes', c);
    if HoldsPair(nodes, c, a, id) {
      var i :| 0 <= i < |c| && c[i] == a;
      var j :| 0 <= j < |c| && nodes[c[j]].id == id;
      assert Cost(nodes, c[i], c[j]) < Cost(nodes', c[i], c[j]);
      assert SomeRaised(nodes, nodes', c[i], c);
    }
  }

  /** A cost that is not reported counts as one of 255. */
  lemma UnreportedIsFarthest(nodes: seq<NumaNode>, a: nat, id: nat, c: seq<nat>)
    requires a < |nodes| && id !in nodes[a].costs && Within(c, nodes)
    ensures Distance(nodes, c) == Distance(Reporting(nodes, a, id, 255), c)
  {
    DistanceRaised(nodes, Reporting(nodes, a, id, 255), c);
    DistanceRaised(Reporting(nodes, a, id, 255), nodes, c);
  }

  lemma RowOfTwo(nodes: seq<NumaNode>, x: nat, a: nat, b: nat)
    requires x < |nodes| && a < |nodes| && b < |nodes|
    ensures RowCost(nodes, x, [a, b]) == Cost(nodes, x, a) + Cost(nodes, x, b)
  {
    assert [a, b][..1] == [a] && [a][..0] == [];
    assert RowCost(nodes, x, [a]) == RowCost(nodes, x, []) + Cost(nodes, x, a);
  }

  /** The distance of two nodes that report all costs is the mean of the four. */
  lemma MeanOfFour(nodes: seq<NumaNode>, a: nat, b: nat)
    requires a < |nodes| && b < |nodes|
    requires nodes[a].id in nodes[a].costs && nodes[b].id in nodes[a].costs
    requires nodes[a].id in nodes[b].costs && nodes[b].id in nodes[b].costs
    ensures
      var from, to := nodes[a], nodes[b];
      Distance(nodes, [a, b])
      == (from.costs[from.id] + from.costs[to.id] + to.costs[from.id] + to.costs[to.id]) as real / 4.0
  {
    var c := [a, b];
    assert c[..1] == [a] && [a][..0] == [];
    RowOfTwo(nodes, a, a, b);
    RowOfTwo(nodes, b, a, b);
    assert TotalCost(nodes, c, c) == TotalCost(nodes, [a], c) + RowCost(nodes, b, c);
    assert TotalCost(nodes, [a], c) == TotalCost(nodes, [], c) + RowCost(nodes, a, c);
    assert |c| * |c| == 4;
  }

  // ---- fitting a request on a combination ----

  ghost function Available(nodes: seq<NumaNode>, c: seq<nat>, name: string): nat
    requires Within(c, nodes)
  {
    if c == [] then 0
    else Available(nodes, c[..|c| - 1], name) + Qty(nodes[c[|c| - 1]].resources, name)
  }

  predicate IsValidCombineResources(nodes: seq<NumaNode>, request: ResourceList, c: seq<nat>)
    requires forall i :: 0 <= i < |c| ==> c[i] < |nodes|
  {
    forall i, name :: 0 <= i < |c| && name in request ==> name in nodes[c[i]].resources
  }

  predicate CheckResourcesFit(qos: QoS, request: ResourceList, combined: ResourceList) {
    forall name :: name in request ==>
      request[name] == 0 || IsResourceSetSuitable(qos, name, request[name], Qty(combined, name))
  }

  /** Every node of the combination reports every requested resource, and together they have enough. */
  ghost predicate Fits(nodes: seq<NumaNode>, qos: QoS, request: ResourceList, c: seq<nat>)
    requires Within(c, nodes)
  {
    && (forall i, name :: 0 <= i < |c| && name in request ==> name in nodes[c[i]].resources)
    && (forall name :: name in request ==>
          request[name] == 0 || IsResourceSetSuitable(qos, name, request[name], Available(nodes, c, name)))
  }

  method CombineResources(nodes: seq<NumaNode>, c: seq<nat>) returns (r: ResourceList)
    requires Within(c, nodes)
    ensures forall name :: Qty(r, name) == Available(nodes, c, name)
  {
    r := map[];
    for i := 0 to |c|
      invariant forall name :: Qty(r, name) == Available(nodes, c[..i], name)
    {
      assert c[..i + 1][..i] == c[..i];
      r := AddTo(r, nodes[c[i]].resources);
    }
    assert c[..|c|] == c;
  }

  method FitsCombination(nodes: seq<NumaNode>, qos: QoS, request: ResourceList, c: seq<nat>) returns (fits: bool)
    requires Within(c, nodes)
    ensures fits == Fits(nodes, qos, request, c)
  {
    if !IsValidCombineResources(nodes, request, c) {
      return false;
    }
    var combined := CombineResources(nodes, c);
    fits := CheckResourcesFit(qos, request, combined);
  }

  // ---- the search ----

  ghost predicate AllWithin(combos: seq<seq<nat>>, nodes: seq<NumaNode>) {
    forall i :: 0 <= i < |combos| ==> Within(combos[i], nodes)
  }

  method MinAvgDistanceInCombinations(nodes: seq<NumaNode>, combos: seq<seq<nat>>) returns (min: real)
    requires AllWithin(combos, nodes) && CostsAreBytes(nodes) && combos != []
    ensures forall i :: 0 <= i < |combos| ==> min <= Distance(nodes, combos[i])
    ensures exists i :: 0 <= i < |combos| && min == Distance(nodes, combos[i])
  {
    min := MAX_DISTANCE as real;
    for k := 0 to |combos|
      invariant forall i :: 0 <= i < k ==> min <= Distance(nodes, combos[i])
      invariant min == MAX_DISTANCE as real || exists i :: 0 <= i < k && min == Distance(nodes, combos[i])
    {
      var d := NodesAvgDistance(nodes, combos[k]);
      if d < min {
        min := d;
      }
    }
    DistanceBound(nodes, combos[0]);
    assert min <= Distance(nodes, combos[0]);
  }

  /** combos[b] is the first, in the order given, of the least distant combinations that fit. */
  ghost predicate IsBest(nodes: seq<NumaNode>, qos: QoS, request: ResourceList, combos: seq<seq<nat>>, b: nat)
    requires AllWithin(combos, nodes)
  {
    && b < |combos|
    && Fits(nodes, qos, request, combos[b])
    && (forall i :: 0 <= i < |combos| && Fits(nodes, qos, request, combos[i]) ==>
          Distance(nodes, combos[b]) <= Distance(nodes, combos[i]))
    && (forall i :: 0 <= i < b && Fits(nodes, qos, request, combos[i]) ==>
          Distance(nodes, combos[b]) < Distance(nodes, combos[i]))
  }

  method FindSuitableCombination(nodes: seq<NumaNode>, qos: QoS, request: ResourceList, combos: seq<seq<nat>>)
    returns (found: bool, c: seq<nat>, isMinDistance: bool, ghost b: nat)
    requires AllWithin(combos, nodes) && CostsAreBytes(nodes) && combos != []
    ensures !found ==> forall i :: 0 <= i < |combos| ==> !Fits(nodes, qos, request, combos[i])
    ensures found ==> IsBest(nodes, qos, request, combos, b) && c == combos[b]
    ensures found ==> (isMinDistance <==>
      forall i :: 0 <= i < |combos| ==> Distance(nodes, c) <= Distance(nodes, combos[i]))
  {
    var minAvg := MinAvgDistanceInCombinations(nodes, combos);
    found, c, isMinDistance, b := false, [], false, 0;
    var minDistance := 256.0;
    for k := 0 to |combos|
      invariant !found ==> minDistance == 256.0
      invariant !found ==> forall i :: 0 <= i < k ==> !Fits(nodes, qos, request, combos[i])
      invariant found ==> b < k && c == combos[b] && minDistance == Distance(nodes, c)
      invariant found ==> Fits(nodes, qos, request, combos[b])
      invariant found ==> forall i :: 0 <= i < k && Fits(nodes, qos, request, combos[i]) ==>
                                        minDistance <= Distance(nodes, combos[i])
      invariant found ==> forall i :: 0 <= i < b && Fits(nodes, qos, request, combos[i]) ==>
                                        minDistance < Distance(nodes, combos[i])
      invariant forall i :: 0 <= i < k && Fits(nodes, qos, request, combos[i]) ==>
                              minAvg < Distance(nodes, combos[i])
    {
      var fits := FitsCombination(nodes, qos, request, combos[k]);
      if fits {
        var distance := NodesAvgDistance(nodes, combos[k]);
        if distance == minAvg {
          return true, combos[k], true, k;
        }
        DistanceBound(nodes, combos[k]);
        if distance < minDistance {
          minDistance, c, found, b := distance, combos[k], true, k;
        }
      }
    }
  }

  /** Nonempty and optimal: fewest NUMA nodes, then closest, then lexicographically first. */
  ghost predicate IsOptimal(nodes: seq<NumaNode>, qos: QoS, request: ResourceList, c: seq<nat>) {
    && IsCombination(c, 0, |nodes|, |c|) && c != []
    && Fits(nodes, qos, request, c)
    && forall d :: d != [] && IsCombination(d, 0, |nodes|, |d|) && Fits(nodes, qos, request, d) ==>
         && |c| <= |d|
         && (|c| == |d| ==> Distance(nodes, c) <= Distance(nodes, d))
         && (|c| == |d| && Distance(nodes, c) == Distance(nodes, d) && c != d ==> LexLess(c, d))
  }

  ghost predicate NoneCloser(nodes: seq<NumaNode>, c: seq<nat>)
    requires Within(c, nodes)
  {
    forall d :: IsCombination(d, 0, |nodes|, |c|) ==> Distance(nodes, c) <= Distance(nodes, d)
  }

  lemma AllCombinationsWithin(nodes: seq<NumaNode>, k: nat)
    ensures AllWithin(Combinations(0, |nodes|, k), nodes)
    ensures k <= |nodes| ==> Combinations(0, |nodes|, k) != []
  {
    CombinationsSound(0, |nodes|, k);
    if k <= |nodes| {
      var c := seq(k, i => i);
      CombinationsComplete(0, |nodes|, k, c);
    }
  }

  /** In a list in lexicographic order, the best entry beats or precedes every other that fits. */
  lemma BestBeats(nodes: seq<NumaNode>, qos: QoS, request: ResourceList, combos: seq<seq<nat>>, b: nat, d: seq<nat>)
    requires AllWithin(combos, nodes) && IsBest(nodes, qos, request, combos, b) && Ascends(combos)
    requires d in combos && Fits(nodes, qos, request, d)
    ensures Distance(nodes, combos[b]) <= Distance(nodes, d)
    ensures Distance(nodes, combos[b]) == Distance(nodes, d) && combos[b] != d ==> LexLess(combos[b], d)
  {
    var i :| 0 <= i < |combos| && combos[i] == d;
    if b < i {
      assert LexLess(combos[b], combos[i]);
    }
  }

  lemma BestIsOptimal(nodes: seq<NumaNode>, qos: QoS, request: ResourceList, k: nat, combos: seq<seq<nat>>, b: nat)
    requires 0 < k && combos == Combinations(0, |nodes|, k) && AllWithin(combos, nodes)
    requires IsBest(nodes, qos, request, combos, b)
    requires forall d :: d != [] && IsCombination(d, 0, |nodes|, |d|) && |d| < k ==> !Fits(nodes, qos, request, d)
    ensures IsOptimal(nodes, qos, request, combos[b])
  {
    var c := combos[b];
    CombinationsSound(0, |nodes|, k);
    CombinationsAscend(0, |nodes|, k);
    forall d | d != [] && IsCombination(d, 0, |nodes|, |d|) && Fits(nodes, qos, request, d)
      ensures |c| <= |d|
      ensures |c| == |d| ==> Distance(nodes, c) <= Distance(nodes, d)
      ensures |c| == |d| && Distance(nodes, c) == Distance(nodes, d) && c != d ==> LexLess(c, d)
    {
      if |d| == k {
        CombinationsComplete(0, |nodes|, k, d);
        BestBeats(nodes, qos, request, combos, b, d);
      }
    }
  }

  lemma NoneOfSizeFits(nodes: seq<NumaNode>, qos: QoS, request: ResourceList, k: nat)
    requires AllWithin(Combinations(0, |nodes|, k), nodes)
    requires forall i :: 0 <= i < |Combinations(0, |nodes|, k)| ==> !Fits(nodes, qos, request, Combinations(0, |nodes|, k)[i])
    ensures forall d :: IsCombination(d, 0, |nodes|, k) ==> !Fits(nodes, qos, request, d)
  {
    forall d | IsCombination(d, 0, |nodes|, k) ensures !Fits(nodes, qos, request, d) {
      CombinationsComplete(0, |nodes|, k, d);
    }
  }

  lemma ListedMeansAll(nodes: seq<NumaNode>, combos: seq<seq<nat>>, c: seq<nat>)
    requires Within(c, nodes) && combos == Combinations(0, |nodes|, |c|) && AllWithin(combos, nodes)
    ensures (forall i :: 0 <= i < |combos| ==> Distance(nodes, c) <= Distance(nodes, combos[i])) <==> NoneCloser(nodes, c)
  {
    if NoneCloser(nodes, c) {
      CombinationsSound(0, |nodes|, |c|);
    } else {
      var d :| IsCombination(d, 0, |nodes|, |c|) && Distance(nodes, c) > Distance(nodes, d);
      CombinationsComplete(0, |nodes|, |c|, d);
      var i :| 0 <= i < |combos| && combos[i] == d;
      assert Distance(nodes, c) > Distance(nodes, combos[i]);
    }
  }

  ghost function IdsOf(nodes: seq<NumaNode>, c: seq<nat>): set<nat>
    requires Within(c, nodes)
  {
    set i | 0 <= i < |c| :: nodes[c[i]].id
  }

  method BitMaskOf(nodes: seq<NumaNode>, c: seq<nat>) returns (mask: set<nat>)
    requires Within(c, nodes)
    ensures mask == IdsOf(nodes, c)
  {
    mask := {};
    for i := 0 to |c|
      invariant mask == IdsOf(nodes, c[..i])
    {
      mask := mask + {nodes[c[i]].id};
    }
    assert c[..|c|] == c;
  }

  /** Searches sizes upwards; nothing found means that no combination of any size fits. */
  method NumaNodesRequired(nodes: seq<NumaNode>, qos: QoS, request: ResourceList)
    returns (found: bool, mask: set<nat>, isMinDistance: bool, ghost c: seq<nat>)
    requires CostsAreBytes(nodes)
    ensures found ==> IsOptimal(nodes, qos, request, c) && mask == IdsOf(nodes, c)
    ensures found ==> (isMinDistance <==> NoneCloser(nodes, c))
    ensures !found ==> forall d :: d != [] && IsCombination(d, 0, |nodes|, |d|) ==> !Fits(nodes, qos, request, d)
  {
    for size := 1 to |nodes| + 1
      invariant forall d :: d != [] && IsCombination(d, 0, |nodes|, |d|) && |d| < size ==> !Fits(nodes, qos, request, d)
    {
      var combos := Combinations(0, |nodes|, size);
      AllCombinationsWithin(nodes, size);
      ghost var b;
      var best;
      found, best, isMinDistance, b := FindSuitableCombination(nodes, qos, request, combos);
      if found {
        BestIsOptimal(nodes, qos, request, size, combos, b);
        CombinationsSound(0, |nodes|, size);
        ListedMeansAll(nodes, combos, best);
        c := best;
        mask := BitMaskOf(nodes, best);
        return;
      }
      NoneOfSizeFits(nodes, qos, request, size);
    }
    forall d | d != [] && IsCombination(d, 0, |nodes|, |d|) ensures |d| < |nodes| + 1 {
      CombinationSize(d, 0, |nodes|);
    }
    found, mask, isMinDistance, c := false, {}, false, [];
  }

  lemma {:induction false} CombinationSize(d: seq<nat>, lo: nat, n: nat)
    requires lo <= n && IsCombination(d, lo, n, |d|)
    ensures |d| <= n - lo
    decreases |d|
  {
    if d != [] {
      CombinationSize(d[1..], d[0] + 1, n);
    }
  }

  // ---- the closest pair ----

  /** Three NUMA nodes with 4 of the CPU each; 0 and 1 are close to each other, 2 is far from both. */
  function Trio(): seq<NumaNode> {
    [NumaNode(0, map["cpu" := 4], map[0 := 10, 1 := 12, 2 := 31]),
     NumaNode(1, map["cpu" := 4], map[0 := 12, 1 := 10, 2 := 31]),
     NumaNode(2, map["cpu" := 4], map[0 := 31, 1 := 31, 2 := 10])]
  }

  lemma TrioDistances()
    ensures Distance(Trio(), [0, 1]) == 11.0 && Distance(Trio(), [0, 2]) == 20.5 && Distance(Trio(), [1, 2]) == 20.5
  {
    MeanOfFour(Trio(), 0, 1);
    MeanOfFour(Trio(), 0, 2);
    MeanOfFour(Trio(), 1, 2);
  }

  lemma AvailableOfTwo(nodes: seq<NumaNode>, a: nat, b: nat, name: string)
    requires a < |nodes| && b < |nodes|
    ensures Available(nodes, [a], name) == Qty(nodes[a].resources, name)
    ensures Available(nodes, [a, b], name) == Qty(nodes[a].resources, name) + Qty(nodes[b].resources, name)
  {
    assert [a][..0] == [] && [a, b][..1] == [a];
  }

  lemma PairOfThree(d: seq<nat>)
    requires IsCombination(d, 0, 3, |d|) && |d| == 2
    ensures d == [0, 1] || d == [0, 2] || d == [1, 2]
  {
    assert d == [d[0], d[1]];
  }

  /** Of three nodes of which each two have enough and none alone, the closest pair is optimal. */
  lemma ClosestOfThree(nodes: seq<NumaNode>, request: ResourceList, each: nat)
    requires |nodes| == 3 && request.Keys == {"cpu"} && each < request["cpu"] <= 2 * each
    requires forall i :: 0 <= i < 3 ==> "cpu" in nodes[i].resources && nodes[i].resources["cpu"] == each
    requires Distance(nodes, [0, 1]) < Distance(nodes, [0, 2]) && Distance(nodes, [0, 1]) < Distance(nodes, [1, 2])
    ensures IsOptimal(nodes, Guaranteed, request, [0, 1])
  {
    AvailableOfTwo(nodes, 0, 1, "cpu");
    forall d | IsCombination(d, 0, 3, 1) ensures !Fits(nodes, Guaranteed, request, d) {
      assert d == [d[0]];
      AvailableOfTwo(nodes, d[0], 0, "cpu");
    }
    forall d | IsCombination(d, 0, 3, 2) ensures d == [0, 1] || d == [0, 2] || d == [1, 2] {
      PairOfThree(d);
    }
  }

  /** A request for 8 gets the two close ones. */
  lemma ClosestPairWins()
    ensures IsOptimal(Trio(), Guaranteed, map["cpu" := 8], [0, 1])
  {
    TrioDistances();
    ClosestOfThree(Trio(), map["cpu" := 8], 4);
  }
}
