/** Taking a container's request from the NUMA nodes it was given, position by position. */
module NumaDrain {
  import opened ResourceLists
  import opened Sums
  import opened NumaFilter
  import opened LeastNuma

  /** Ids that fit a bit mask. */
  ghost predicate IdsInMask(nodes: seq<NumaNode>) {
    forall i :: 0 <= i < |nodes| ==> nodes[i].id < MASK_BITS
  }

  /** Position i of the list holds NUMA id i, which subtractFromNUMAs relies on. */
  ghost predicate ById(nodes: seq<NumaNode>) {
    forall i :: 0 <= i < |nodes| ==> nodes[i].id == i
  }

  ghost predicate Distinct(ids: seq<nat>) {
    forall i, j :: 0 <= i < j < |ids| ==> ids[i] != ids[j]
  }

  // ---- draining ----

  /** The positions before the first one that is not in a list of n. */
  ghost function Inside(ids: seq<nat>, n: nat): (inside: seq<nat>)
    ensures |inside| <= |ids| && inside == ids[..|inside|] && forall i :: 0 <= i < |inside| ==> inside[i] < n
    ensures |inside| < |ids| ==> ids[|inside|] >= n
  {
    if ids == [] then []
    else
      var rest := Inside(ids[..|ids| - 1], n);
      if |rest| == |ids| - 1 && ids[|ids| - 1] < n then ids else rest
  }

  /** Draining reaches a position that is not in the list: some resource is not used up before. */
  ghost predicate Overruns(nodes: seq<NumaNode>, ids: seq<nat>, request: ResourceList) {
    && Inside(ids, |nodes|) != ids
    && exists name :: name in request && request[name] > Available(nodes, Inside(ids, |nodes|), name)
  }

  /** What the j-th listed node gives: all it has, or what the nodes before it left of the quantity. */
  ghost function Taken(nodes: seq<NumaNode>, ids: seq<nat>, name: string, quantity: nat, j: nat): nat
    requires Within(ids, nodes) && j < |ids|
  {
    Min(Qty(nodes[ids[j]].resources, name), Monus(quantity, Available(nodes, ids[..j], name)))
  }

  /** Same nodes reporting the same resources. */
  ghost predicate SameShape(before: seq<NumaNode>, after: seq<NumaNode>) {
    && |after| == |before|
    && forall p :: 0 <= p < |before| ==>
         && after[p].id == before[p].id && after[p].costs == before[p].costs
         && after[p].resources.Keys == before[p].resources.Keys
  }

  ghost predicate Untouched(before: seq<NumaNode>, after: seq<NumaNode>, name: string) {
    && |after| == |before|
    && forall p :: 0 <= p < |before| ==> Qty(after[p].resources, name) == Qty(before[p].resources, name)
  }

  /** The first k listed nodes are drained of one resource, in order; all others keep theirs. */
  ghost predicate DrainedOf(before: seq<NumaNode>, after: seq<NumaNode>, ids: seq<nat>, k: nat, name: string, quantity: nat)
    requires Within(ids, before) && k <= |ids|
  {
    && |after| == |before|
    && (forall p :: 0 <= p < |before| && p !in ids[..k] ==> Qty(after[p].resources, name) == Qty(before[p].resources, name))
    && (forall j :: 0 <= j < k ==>
          Qty(after[ids[j]].resources, name) == Qty(before[ids[j]].resources, name) - Taken(before, ids, name, quantity, j))
  }

  /** Listed nodes are drained of the whole request. */
  ghost predicate IsDrained(before: seq<NumaNode>, after: seq<NumaNode>, ids: seq<nat>, request: ResourceList)
    requires Within(ids, before)
  {
    SameShape(before, after) && forall name :: DrainedOf(before, after, ids, |ids|, name, Qty(request, name))
  }

  lemma {:induction false} AvailableGrows(nodes: seq<NumaNode>, ids: seq<nat>, i: nat, j: nat, name: string)
    requires Within(ids, nodes) && i <= j <= |ids|
    ensures Available(nodes, ids[..i], name) <= Available(nodes, ids[..j], name)
    decreases j
  {
    if i < j {
      AvailableGrows(nodes, ids, i, j - 1, name);
      assert ids[..j][..j - 1] == ids[..j - 1];
    }
  }

  lemma AvailableNext(nodes: seq<NumaNode>, ids: seq<nat>, j: nat, name: string)
    requires Within(ids, nodes) && j < |ids|
    ensures Available(nodes, ids[..j + 1], name) == Available(nodes, ids[..j], name) + Qty(nodes[ids[j]].resources, name)
  {
    assert ids[..j + 1][..j] == ids[..j];
  }

  /** Once the quantity is used up, the remaining listed nodes give nothing. */
  lemma DrainedEarly(before: seq<NumaNode>, after: seq<NumaNode>, ids: seq<nat>, k: nat, name: string, quantity: nat)
    requires Within(ids, before) && k <= |ids| && Distinct(ids)
    requires DrainedOf(before, after, ids, k, name, quantity)
    requires quantity <= Available(before, ids[..k], name)
    ensures DrainedOf(before, after, ids, |ids|, name, quantity)
  {
    forall j | k <= j < |ids|
      ensures Taken(before, ids, name, quantity, j) == 0
      ensures Qty(after[ids[j]].resources, name) == Qty(before[ids[j]].resources, name)
    {
      AvailableGrows(before, ids, k, j, name);
      assert ids[j] !in ids[..k];
    }
    assert ids[..|ids|] == ids;
  }

  /** After j listed positions: this resource is drained so far, and no other is touched. */
  ghost predicate Draining(before: seq<NumaNode>, now: seq<NumaNode>, ids: seq<nat>, j: nat, name: string, wanted: nat, quantity: nat)
    requires Within(ids, before) && j <= |ids|
  {
    && SameShape(before, now)
    && (forall other :: other != name ==> Untouched(before, now, other))
    && quantity == Monus(wanted, Available(before, ids[..j], name))
    && DrainedOf(before, now, ids, j, name, wanted)
  }

  /** The node at p gives the quantity of one resource, or all it has, whichever is less; nothing else changes. */
  ghost predicate Gives(before: seq<NumaNode>, after: seq<NumaNode>, p: nat, name: string, quantity: nat) {
    && p < |before| && SameShape(before, after)
    && (forall i :: 0 <= i < |before| && i != p ==> after[i] == before[i])
    && (forall other :: other != name ==> Untouched(before, after, other))
    && Qty(after[p].resources, name) == Qty(before[p].resources, name) - Min(Qty(before[p].resources, name), quantity)
  }

  lemma DrainingNext(before: seq<NumaNode>, mid: seq<NumaNode>, after: seq<NumaNode>, ids: seq<nat>, j: nat, name: string,
                     wanted: nat, quantity: nat)
    requires Within(ids, before) && Distinct(ids) && j < |ids| && Draining(before, mid, ids, j, name, wanted, quantity)
    requires Gives(mid, after, ids[j], name, quantity)
    ensures Draining(before, after, ids, j + 1, name, wanted, quantity - Min(Qty(mid[ids[j]].resources, name), quantity))
  {
    assert ids[j] !in ids[..j];
    AvailableNext(before, ids, j, name);
    DrainStep(before, mid, after, ids, name, wanted, j);
    forall other | other != name ensures Untouched(before, after, other) {
      UntouchedTransitive(before, mid, after, other);
    }
  }

  /** Draining one resource has ended, by a panic or at the last position that gives something. */
  ghost predicate Drains(before: seq<NumaNode>, after: seq<NumaNode>, ids: seq<nat>, name: string, wanted: nat, panics: bool) {
    var inside := Inside(ids, |before|);
    && SameShape(before, after)
    && (forall other :: other != name ==> Untouched(before, after, other))
    && (panics <==> inside != ids && wanted > Available(before, inside, name))
    && (!panics ==> DrainedOf(before, after, inside, |inside|, name, wanted))
  }

  lemma DrainingEnds(before: seq<NumaNode>, now: seq<NumaNode>, ids: seq<nat>, j: nat, name: string, wanted: nat, quantity: nat)
    requires Within(ids, before) && Distinct(ids) && j <= |ids| && Draining(before, now, ids, j, name, wanted, quantity)
    ensures quantity == 0 ==> wanted <= Available(before, ids, name)
    ensures j == |ids| ==> quantity == Monus(wanted, Available(before, ids, name))
    ensures quantity == 0 || j == |ids| ==> DrainedOf(before, now, ids, |ids|, name, wanted)
  {
    if quantity == 0 {
      DrainedEarly(before, now, ids, j, name, wanted);
    }
    AvailableGrows(before, ids, j, |ids|, name);
    assert ids[..|ids|] == ids;
  }

  lemma InsideEnds(ids: seq<nat>, n: nat, j: nat)
    requires j <= |Inside(ids, n)|
    ensures j == |ids| ==> Inside(ids, n) == ids
    ensures j < |ids| && ids[j] >= n ==> j == |Inside(ids, n)| && Inside(ids, n) != ids
    ensures j < |ids| && ids[j] < n ==> j < |Inside(ids, n)|
  {
  }

  lemma InsideWithin(ids: seq<nat>, nodes: seq<NumaNode>)
    requires Distinct(ids)
    ensures Within(Inside(ids, |nodes|), nodes) && Distinct(Inside(ids, |nodes|))
  {
  }

  /** It ends when the quantity is used up, all positions have been seen, or the next one is not on the list. */
  lemma DrainingDone(before: seq<NumaNode>, now: seq<NumaNode>, ids: seq<nat>, j: nat, name: string, wanted: nat, quantity: nat)
    requires Distinct(ids) && j <= |Inside(ids, |before|)|
    requires Draining(before, now, Inside(ids, |before|), j, name, wanted, quantity)
    ensures quantity == 0 || j == |ids| ==> Drains(before, now, ids, name, wanted, false)
    ensures quantity > 0 && j < |ids| && ids[j] >= |before| ==> Drains(before, now, ids, name, wanted, true)
    ensures j < |ids| && ids[j] < |before| ==> j < |Inside(ids, |before|)|
  {
    InsideWithin(ids, before);
    InsideEnds(ids, |before|, j);
    DrainingEnds(before, now, Inside(ids, |before|), j, name, wanted, quantity);
  }

  lemma DrainingStart(before: seq<NumaNode>, ids: seq<nat>, name: string, wanted: nat)
    requires Within(ids, before)
    ensures Draining(before, before, ids, 0, name, wanted, wanted)
  {
  }

  /** The inner loop: one resource over the listed positions; indexing beyond the list panics. */
  method DrainResource(nodes: array<NumaNode>, ids: seq<nat>, name: string, wanted: nat) returns (panics: bool)
    requires Distinct(ids)
    modifies nodes
    ensures Drains(old(nodes[..]), nodes[..], ids, name, wanted, panics)
  {
    ghost var before := nodes[..];
    ghost var inside := Inside(ids, nodes.Length);
    InsideWithin(ids, before);
    DrainingStart(before, inside, name, wanted);
    var quantity := wanted;
    for j := 0 to |ids|
      invariant j <= |inside| && Draining(before, nodes[..], inside, j, name, wanted, quantity)
    {
      DrainingDone(before, nodes[..], ids, j, name, wanted, quantity);
      if quantity == 0 {
        return false;
      }
      if ids[j] >= nodes.Length {
        return true;
      }
      ghost var mid := nodes[..];
      var left := DrainNode(nodes, ids[j], name, quantity);
      DrainingNext(before, mid, nodes[..], inside, j, name, wanted, quantity);
      quantity := left;
    }
    DrainingDone(before, nodes[..], ids, |ids|, name, wanted, quantity);
    panics := false;
  }

  lemma UntouchedTransitive(before: seq<NumaNode>, mid: seq<NumaNode>, after: seq<NumaNode>, name: string)
    requires Untouched(before, mid, name) && Untouched(mid, after, name)
    ensures Untouched(before, after, name)
  {
  }

  lemma NewPosition(ids: seq<nat>, j: nat)
    requires Distinct(ids) && j < |ids|
    ensures ids[j] !in ids[..j]
    ensures forall p :: p in ids[..j + 1] <==> p in ids[..j] || p == ids[j]
  {
    assert ids[..j + 1] == ids[..j] + [ids[j]];
  }

  lemma DrainStep(before: seq<NumaNode>, mid: seq<NumaNode>, after: seq<NumaNode>, ids: seq<nat>, name: string, wanted: nat, j: nat)
    requires Within(ids, before) && Distinct(ids) && j < |ids|
    requires DrainedOf(before, mid, ids, j, name, wanted) && |after| == |mid|
    requires forall p :: 0 <= p < |mid| && p != ids[j] ==> after[p] == mid[p]
    requires Qty(after[ids[j]].resources, name)
             == Qty(mid[ids[j]].resources, name)
                - Min(Qty(mid[ids[j]].resources, name), Monus(wanted, Available(before, ids[..j], name)))
    ensures DrainedOf(before, after, ids, j + 1, name, wanted)
  {
    NewPosition(ids, j);
    forall p | 0 <= p < |before| && p !in ids[..j + 1] ensures Qty(after[p].resources, name) == Qty(before[p].resources, name) {
    }
    forall i | 0 <= i < j + 1
      ensures Qty(after[ids[i]].resources, name) == Qty(before[ids[i]].resources, name) - Taken(before, ids, name, wanted, i)
    {
      DrainedPosition(before, mid, after, ids, name, wanted, j, i);
    }
  }

  lemma DrainedPosition(before: seq<NumaNode>, mid: seq<NumaNode>, after: seq<NumaNode>, ids: seq<nat>, name: string, wanted: nat,
                        j: nat, i: nat)
    requires Within(ids, before) && Distinct(ids) && i <= j < |ids|
    requires DrainedOf(before, mid, ids, j, name, wanted) && |after| == |mid|
    requires forall p :: 0 <= p < |mid| && p != ids[j] ==> after[p] == mid[p]
    requires Qty(after[ids[j]].resources, name)
             == Qty(mid[ids[j]].resources, name)
                - Min(Qty(mid[ids[j]].resources, name), Monus(wanted, Available(before, ids[..j], name)))
    ensures Qty(after[ids[i]].resources, name) == Qty(before[ids[i]].resources, name) - Taken(before, ids, name, wanted, i)
  {
    if i == j {
      NewPosition(ids, j);
    } else {
      assert after[ids[i]] == mid[ids[i]];
    }
  }

  /** The three-way comparison: the node gives the quantity, or all it has, whichever is less. */
  method DrainNode(nodes: array<NumaNode>, p: nat, name: string, quantity: nat) returns (left: nat)
    requires p < nodes.Length
    modifies nodes
    ensures Gives(old(nodes[..]), nodes[..], p, name, quantity)
    ensures left == quantity - Min(Qty(old(nodes[p]).resources, name), quantity)
  {
    left := quantity;
    var resources := nodes[p].resources;
    if name in resources {
      var available := resources[name];
      if quantity == available {
        left := quantity - available;
        resources := resources[name := 0];
      } else if quantity > available {
        left := quantity - available;
        resources := resources[name := 0];
      } else {
        available := available - quantity;
        left := 0;
        resources := resources[name := available];
      }
      nodes[p] := nodes[p].(resources := resources);
    }
  }

  lemma {:induction false} AvailableSame(a: seq<NumaNode>, b: seq<NumaNode>, ids: seq<nat>, name: string)
    requires Within(ids, a) && Untouched(a, b, name)
    ensures Available(a, ids, name) == Available(b, ids, name)
    decreases |ids|
  {
    if ids != [] {
      AvailableSame(a, b, ids[..|ids| - 1], name);
    }
  }

  /** Draining one resource after or before leaving it alone is draining it. */
  lemma DrainedThenUntouched(before: seq<NumaNode>, mid: seq<NumaNode>, after: seq<NumaNode>, ids: seq<nat>, name: string, quantity: nat)
    requires Within(ids, before)
    requires DrainedOf(before, mid, ids, |ids|, name, quantity) && Untouched(mid, after, name)
    ensures DrainedOf(before, after, ids, |ids|, name, quantity)
  {
  }

  lemma UntouchedThenDrained(before: seq<NumaNode>, mid: seq<NumaNode>, after: seq<NumaNode>, ids: seq<nat>, name: string, quantity: nat)
    requires Within(ids, before)
    requires Untouched(before, mid, name) && DrainedOf(mid, after, ids, |ids|, name, quantity)
    ensures DrainedOf(before, after, ids, |ids|, name, quantity)
  {
    forall j | 0 <= j < |ids| ensures Taken(mid, ids, name, quantity, j) == Taken(before, ids, name, quantity, j) {
      AvailableSame(before, mid, ids[..j], name);
    }
  }

  lemma UntouchedIsDrainedOfZero(before: seq<NumaNode>, after: seq<NumaNode>, ids: seq<nat>, name: string)
    requires Within(ids, before) && Untouched(before, after, name)
    ensures DrainedOf(before, after, ids, |ids|, name, 0)
  {
  }

  ghost predicate DrainedSoFar(before: seq<NumaNode>, after: seq<NumaNode>, ids: seq<nat>, request: ResourceList, done: set<string>)
    requires Within(ids, before)
  {
    && SameShape(before, after)
    && (forall name :: name in done ==> DrainedOf(before, after, ids, |ids|, name, Qty(request, name)))
    && (forall name :: name !in done ==> Untouched(before, after, name))
  }

  lemma DrainedOneMore(before: seq<NumaNode>, mid: seq<NumaNode>, after: seq<NumaNode>, ids: seq<nat>, request: ResourceList,
                       done: set<string>, name: string)
    requires Within(ids, before) && name !in done
    requires DrainedSoFar(before, mid, ids, request, done)
    requires SameShape(mid, after) && DrainedOf(mid, after, ids, |ids|, name, Qty(request, name))
    requires forall other :: other != name ==> Untouched(mid, after, other)
    ensures DrainedSoFar(before, after, ids, request, done + {name})
  {
    UntouchedThenDrained(before, mid, after, ids, name, Qty(request, name));
    forall other | other in done ensures DrainedOf(before, after, ids, |ids|, other, Qty(request, other)) {
      assert other != name;
      DrainedThenUntouched(before, mid, after, ids, other, Qty(request, other));
    }
    forall other | other !in done + {name} ensures Untouched(before, after, other) {
      UntouchedTransitive(before, mid, after, other);
    }
  }

  /** Drains the listed positions, in place, of everything the container requests. */
  method SubtractFromNUMAs(request: ResourceList, nodes: array<NumaNode>, ids: seq<nat>) returns (panics: bool)
    requires Distinct(ids)
    modifies nodes
    ensures panics <==> Overruns(old(nodes[..]), ids, request)
    ensures !panics ==> IsDrained(old(nodes[..]), nodes[..], Inside(ids, nodes.Length), request)
  {
    ghost var before := nodes[..];
    ghost var inside := Inside(ids, nodes.Length);
    ghost var done: set<string> := {};
    var todo := request.Keys;
    while todo != {}
      invariant todo <= request.Keys && done == request.Keys - todo
      invariant nodes.Length == |before|
      invariant DrainedSoFar(before, nodes[..], inside, request, done)
      invariant forall name :: name in done ==> inside == ids || request[name] <= Available(before, inside, name)
      decreases todo
    {
      var name :| name in todo;
      ghost var mid := nodes[..];
      AvailableSame(before, mid, inside, name);
      panics := DrainResource(nodes, ids, name, request[name]);
      if panics {
        return;
      }
      DrainedOneMore(before, mid, nodes[..], inside, request, done, name);
      done := done + {name};
      todo := todo - {name};
    }
    forall name ensures DrainedOf(before, nodes[..], inside, |inside|, name, Qty(request, name)) {
      if name !in request {
        UntouchedIsDrainedOfZero(before, nodes[..], inside, name);
      }
    }
    panics := false;
  }

  // ---- conservation ----

  ghost function QtyAt(nodes: seq<NumaNode>, name: string): nat -> int {
    (p: nat) => if p < |nodes| then Qty(nodes[p].resources, name) else 0
  }

  /** All the machine has left of a resource. */
  ghost function Everywhere(nodes: seq<NumaNode>, name: string): int {
    SumSet(FullMask(|nodes|), QtyAt(nodes, name))
  }

  ghost function Listed(ids: seq<nat>): set<nat> {
    set i | 0 <= i < |ids| :: ids[i]
  }

  lemma {:induction false} AvailableIsSum(nodes: seq<NumaNode>, ids: seq<nat>, name: string)
    requires Within(ids, nodes) && Distinct(ids)
    ensures Available(nodes, ids, name) == SumSet(Listed(ids), QtyAt(nodes, name))
    decreases |ids|
  {
    if ids == [] {
      assert Listed(ids) == {};
    } else {
      var n := |ids| - 1;
      var rest := ids[..n];
      AvailableIsSum(nodes, rest, name);
      assert Listed(ids) == Listed(rest) + {ids[n]};
      SumSetInsert(Listed(rest), ids[n], QtyAt(nodes, name));
    }
  }

  /** Of each resource exactly the requested quantity is taken, or all there is on the listed nodes. */
  lemma {:induction false} DrainTakes(before: seq<NumaNode>, after: seq<NumaNode>, ids: seq<nat>, request: ResourceList, name: string, k: nat)
    requires Within(ids, before) && IsDrained(before, after, ids, request) && k <= |ids|
    ensures Available(after, ids[..k], name)
            == Available(before, ids[..k], name) - Min(Qty(request, name), Available(before, ids[..k], name))
    decreases k
  {
    if k > 0 {
      assert DrainedOf(before, after, ids, |ids|, name, Qty(request, name));
      DrainTakes(before, after, ids, request, name, k - 1);
      AvailableNext(before, ids, k - 1, name);
      AvailableNext(after, ids, k - 1, name);
    }
  }

  lemma DrainConserves(before: seq<NumaNode>, after: seq<NumaNode>, ids: seq<nat>, request: ResourceList, name: string)
    requires Within(ids, before) && Distinct(ids) && IsDrained(before, after, ids, request)
    ensures Everywhere(after, name)
            == Everywhere(before, name) - Min(Qty(request, name), Available(before, ids, name))
  {
    assert ids[..|ids|] == ids;
    assert DrainedOf(before, after, ids, |ids|, name, Qty(request, name));
    DrainTakes(before, after, ids, request, name, |ids|);
    AvailableIsSum(before, ids, name);
    AvailableIsSum(after, ids, name);
    var others := FullMask(|before|) - Listed(ids);
    assert FullMask(|before|) == others + Listed(ids);
    SumSetSplit(others, Listed(ids), QtyAt(before, name));
    SumSetSplit(others, Listed(ids), QtyAt(after, name));
    SumSetEq(others, QtyAt(before, name), QtyAt(after, name));
  }

  /** A Guaranteed container's combination always has the whole request: nothing of it is left over. */
  lemma WholeRequestTaken(nodes: seq<NumaNode>, request: ResourceList, c: seq<nat>, name: string)
    requires Within(c, nodes) && Fits(nodes, Guaranteed, request, c)
    ensures Min(Qty(request, name), Available(nodes, c, name)) == Qty(request, name)
  {
  }
}
