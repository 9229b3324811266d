/** The single-NUMA-node filter: first-fit alignment of containers with in-place accounting. */
module NumaFilter {
  import opened ResourceLists

  const HIGHEST_NUMA_ID: nat := 8
  const MASK_BITS: nat := 64

  datatype NumaNode = NumaNode(id: nat, resources: ResourceList, costs: map<nat, nat>)

  /** NUMA ids are distinct and fit the bit mask. */
  ghost predicate WellFormed(nodes: seq<NumaNode>) {
    && (forall i :: 0 <= i < |nodes| ==> nodes[i].id < MASK_BITS)
    && (forall i, j :: 0 <= i < j < |nodes| ==> nodes[i].id != nodes[j].id)
  }

  predicate Reported(nodes: seq<NumaNode>, name: string) {
    exists i :: 0 <= i < |nodes| && name in nodes[i].resources
  }

  /** A resource the machine has, but no NUMA node reports, and none has to. */
  predicate HostOnly(nodes: seq<NumaNode>, name: string) {
    !Reported(nodes, name) && IsHostLevelResource(name)
  }

  /** The NUMA node with this id can serve the quantity. */
  predicate Serves(nodes: seq<NumaNode>, qos: QoS, name: string, quantity: nat, id: nat) {
    exists i :: 0 <= i < |nodes| && nodes[i].id == id && name in nodes[i].resources
                && IsResourceSetSuitable(qos, name, quantity, nodes[i].resources[name])
  }

  predicate Admits(nodes: seq<NumaNode>, qos: QoS, name: string, quantity: nat, id: nat) {
    quantity == 0 || HostOnly(nodes, name) || Serves(nodes, qos, name, quantity, id)
  }

  /** The whole request can be aligned on the NUMA node with this id. */
  ghost predicate Aligns(nodes: seq<NumaNode>, alloc: set<string>, qos: QoS, request: ResourceList, id: nat) {
    && id < MASK_BITS
    && forall name :: name in request ==>
         && (request[name] != 0 ==> name in alloc)
         && Admits(nodes, qos, name, request[name], id)
  }

  ghost predicate Alignable(nodes: seq<NumaNode>, alloc: set<string>, qos: QoS, request: ResourceList) {
    exists id: nat :: Aligns(nodes, alloc, qos, request, id)
  }

  /** The lowest id the request aligns on: the node the kubelet would pick. */
  ghost predicate FirstFit(nodes: seq<NumaNode>, alloc: set<string>, qos: QoS, request: ResourceList, id: nat) {
    Aligns(nodes, alloc, qos, request, id) && forall k: nat :: Aligns(nodes, alloc, qos, request, k) ==> id <= k
  }

  ghost predicate IsVendorDevice(name: string, domain: string, device: string) {
    && '/' !in domain && '/' !in device && !EndsWith(domain, "kubernetes.io")
    && name == domain + "/" + device
  }

  /** A request for CPU, memory or huge pages that no NUMA node reports cannot be aligned. */
  lemma UnreportedIsFatal(nodes: seq<NumaNode>, alloc: set<string>, qos: QoS, request: ResourceList, name: string)
    requires name in request && request[name] > 0 && !Reported(nodes, name)
    requires name == "cpu" || name == "memory" || ("hugepages-" <= name && '/' !in name)
    ensures !Alignable(nodes, alloc, qos, request)
  {
    ResourceKinds(name, "", "");
  }

  /** Storage and vendors' devices that no NUMA node reports are no obstacle, as long as the node has them. */
  lemma UnreportedIsHarmless(nodes: seq<NumaNode>, alloc: set<string>, qos: QoS, request: ResourceList, name: string,
                             domain: string, device: string, id: nat)
    requires name in request && request[name] > 0 && !Reported(nodes, name)
    requires name == "ephemeral-storage" || name == "storage" || IsVendorDevice(name, domain, device)
    ensures Aligns(nodes, alloc, qos, request, id) <==> name in alloc && Aligns(nodes, alloc, qos, request - {name}, id)
  {
    assert IsHostLevelResource(name) by {
      if IsVendorDevice(name, domain, device) {
        ResourceKinds(name, domain, device);
      } else {
        ResourceKinds(name, "", "");
      }
    }
    var rest := request - {name};
    assert forall n :: n in request <==> n in rest || n == name;
    assert forall n :: n in rest ==> rest[n] == request[n];
  }

  /** How much CPU, memory and huge pages it asks for makes no difference to a pod that is not Guaranteed. */
  lemma UnpinnedAmounts(nodes: seq<NumaNode>, alloc: set<string>, qos: QoS, request: ResourceList, other: ResourceList, id: nat)
    requires qos != Guaranteed && request.Keys == other.Keys
    requires forall name :: name in request ==>
      || other[name] == request[name]
      || ((name == "cpu" || name == "memory" || "hugepages-" <= name) && (request[name] == 0 <==> other[name] == 0))
    ensures Aligns(nodes, alloc, qos, request, id) <==> Aligns(nodes, alloc, qos, other, id)
  {
  }

  /** Bits of the NUMA nodes that can serve one resource, and whether any node reports it. */
  method FeasibleNodes(nodes: seq<NumaNode>, qos: QoS, name: string, quantity: nat)
    returns (mask: set<nat>, affine: bool)
    requires WellFormed(nodes)
    ensures affine == Reported(nodes, name)
    ensures forall id: nat :: id in mask <==> id < MASK_BITS && Serves(nodes, qos, name, quantity, id)
  {
    mask, affine := {}, false;
    for i := 0 to |nodes|
      invariant affine == Reported(nodes[..i], name)
      invariant forall id: nat :: id in mask <==> id < MASK_BITS && Serves(nodes[..i], qos, name, quantity, id)
    {
      assert nodes[..i + 1] == nodes[..i] + [nodes[i]];
      if name !in nodes[i].resources { continue; }
      affine := true;
      if !IsResourceSetSuitable(qos, name, quantity, nodes[i].resources[name]) { continue; }
      assert Serves(nodes[..i + 1], qos, name, quantity, nodes[i].id);
      mask := mask + {nodes[i].id};
    }
    assert nodes[..|nodes|] == nodes;
  }

  /** BitMask.Fill. */
  function FullMask(bits: nat): (mask: set<nat>)
    ensures forall id: nat :: id in mask <==> id < bits
  {
    if bits == 0 then {} else FullMask(bits - 1) + {bits - 1}
  }

  /** BitMask.GetBits()[0]. */
  method LowestBit(mask: set<nat>) returns (bit: nat)
    requires mask != {} && forall id: nat :: id in mask ==> id < MASK_BITS
    ensures bit in mask && forall id: nat :: id in mask ==> bit <= id
  {
    bit := 0;
    while bit !in mask
      invariant forall id: nat :: id in mask ==> bit <= id
      invariant bit <= MASK_BITS
      decreases MASK_BITS - bit
    {
      assert exists id: nat :: id in mask;
      bit := bit + 1;
    }
  }

  /** The part of a request with these names can be aligned on the id. */
  ghost predicate AlignsPart(nodes: seq<NumaNode>, alloc: set<string>, qos: QoS, request: ResourceList,
                             names: set<string>, id: nat) {
    forall name :: name in names && name in request ==>
      (request[name] != 0 ==> name in alloc) && Admits(nodes, qos, name, request[name], id)
  }

  /** The mask holds exactly the ids that can still serve everything visited so far. */
  ghost predicate MaskOf(mask: set<nat>, nodes: seq<NumaNode>, alloc: set<string>, qos: QoS, request: ResourceList,
                         names: set<string>) {
    forall id: nat :: id in mask <==> id < MASK_BITS && AlignsPart(nodes, alloc, qos, request, names, id)
  }

  /** One resource more narrows the mask by the ids that admit it. */
  lemma MaskNarrows(mask: set<nat>, mask': set<nat>, nodes: seq<NumaNode>, alloc: set<string>, qos: QoS,
                    request: ResourceList, names: set<string>, name: string)
    requires MaskOf(mask, nodes, alloc, qos, request, names)
    requires name in request && (request[name] != 0 ==> name in alloc)
    requires forall id: nat :: id in mask' <==> id in mask && Admits(nodes, qos, name, request[name], id)
    ensures MaskOf(mask', nodes, alloc, qos, request, names + {name})
  {
    forall id: nat
      ensures AlignsPart(nodes, alloc, qos, request, names + {name}, id)
              <==> AlignsPart(nodes, alloc, qos, request, names, id) && Admits(nodes, qos, name, request[name], id)
    {
    }
  }

  lemma AlignedIsInMask(mask: set<nat>, nodes: seq<NumaNode>, alloc: set<string>, qos: QoS, request: ResourceList,
                        names: set<string>, name: string, id: nat)
    requires MaskOf(mask, nodes, alloc, qos, request, names) && name in request
    ensures Aligns(nodes, alloc, qos, request, id) ==>
      id in mask && (request[name] != 0 ==> name in alloc) && Admits(nodes, qos, name, request[name], id)
  {
    if Aligns(nodes, alloc, qos, request, id) {
      assert AlignsPart(nodes, alloc, qos, request, names, id);
    }
  }

  /** A resource that no id of the mask admits refuses the whole request. */
  lemma NoneAligns(mask: set<nat>, nodes: seq<NumaNode>, alloc: set<string>, qos: QoS, request: ResourceList,
                   names: set<string>, name: string)
    requires MaskOf(mask, nodes, alloc, qos, request, names) && name in request && request[name] != 0
    requires name !in alloc || forall id: nat :: id in mask ==> !Admits(nodes, qos, name, request[name], id)
    ensures !Alignable(nodes, alloc, qos, request)
  {
    forall id: nat ensures !Aligns(nodes, alloc, qos, request, id) {
      AlignedIsInMask(mask, nodes, alloc, qos, request, names, name, id);
    }
  }

  /** With all resources visited the mask holds the ids the request aligns on, and its lowest is the answer. */
  lemma LowestAligns(mask: set<nat>, nodes: seq<NumaNode>, alloc: set<string>, qos: QoS, request: ResourceList, bit: nat)
    requires MaskOf(mask, nodes, alloc, qos, request, request.Keys)
    requires bit in mask && forall id: nat :: id in mask ==> bit <= id
    ensures Alignable(nodes, alloc, qos, request) && FirstFit(nodes, alloc, qos, request, bit)
  {
    forall id: nat ensures id in mask <==> Aligns(nodes, alloc, qos, request, id) {
    }
  }

  /** One round of the filter's loop over resources: the ids left after this resource, or an early verdict. */
  method NarrowBy(mask: set<nat>, nodes: seq<NumaNode>, alloc: set<string>, qos: QoS, name: string, quantity: nat)
    returns (mask': set<nat>, verdict: bool)
    requires WellFormed(nodes) && mask != {} && forall id: nat :: id in mask ==> id < MASK_BITS
    ensures verdict ==> forall id: nat :: id in mask' <==> id in mask && Admits(nodes, qos, name, quantity, id)
    ensures verdict ==> mask' != {} && (quantity != 0 ==> name in alloc)
    ensures !verdict ==> quantity != 0
                         && (name !in alloc || forall id: nat :: id in mask ==> !Admits(nodes, qos, name, quantity, id))
  {
    if quantity == 0 {
      return mask, true;
    }
    if name !in alloc {
      return mask, false;
    }
    var resourceMask, affine := FeasibleNodes(nodes, qos, name, quantity);
    if !affine && IsHostLevelResource(name) {
      return mask, true;
    }
    mask' := mask * resourceMask;
    verdict := mask' != {};
    if !verdict {
      forall id: nat | id in mask ensures !Admits(nodes, qos, name, quantity, id) {
        assert id !in mask';
      }
    }
  }

  /** Finds the lowest NUMA id the request aligns on, whatever order the resources are visited in. */
  method ResourcesAvailableInAnyNUMANodes(nodes: seq<NumaNode>, alloc: set<string>, qos: QoS, request: ResourceList)
    returns (numaID: nat, suitable: bool)
    requires WellFormed(nodes)
    ensures suitable <==> Alignable(nodes, alloc, qos, request)
    ensures suitable ==> FirstFit(nodes, alloc, qos, request, numaID)
    ensures !suitable ==> numaID == HIGHEST_NUMA_ID
  {
    var mask := FullMask(MASK_BITS);
    assert 0 in mask;
    ghost var done := {};
    var todo := request.Keys;
    while todo != {}
      invariant todo <= request.Keys && done == request.Keys - todo && mask != {}
      invariant MaskOf(mask, nodes, alloc, qos, request, done)
      decreases todo
    {
      var name :| name in todo;
      todo := todo - {name};
      var mask', verdict := NarrowBy(mask, nodes, alloc, qos, name, request[name]);
      if !verdict {
        NoneAligns(mask, nodes, alloc, qos, request, done, name);
        return HIGHEST_NUMA_ID, false;
      }
      MaskNarrows(mask, mask', nodes, alloc, qos, request, done, name);
      mask, done := mask', done + {name};
    }
    assert done == request.Keys;
    numaID := LowestBit(mask);
    LowestAligns(mask, nodes, alloc, qos, request, numaID);
    suitable := true;
  }

  // ---- accounting ----

  /** The node has room for everything of the request it is charged for. */
  predicate Covers(node: NumaNode, qos: QoS, request: ResourceList) {
    forall name :: name in node.resources ==> Charge(qos, name, request) <= node.resources[name]
  }

  /** The node after the request is taken from it. */
  function Take(node: NumaNode, qos: QoS, request: ResourceList): NumaNode
    requires Covers(node, qos, request)
  {
    node.(resources := map name | name in node.resources :: node.resources[name] - Charge(qos, name, request))
  }

  function TakeAt(nodes: seq<NumaNode>, id: nat, qos: QoS, request: ResourceList): seq<NumaNode>
    requires forall i :: 0 <= i < |nodes| && nodes[i].id == id ==> Covers(nodes[i], qos, request)
  {
    seq(|nodes|, i requires 0 <= i < |nodes| =>
          if nodes[i].id == id then Take(nodes[i], qos, request) else nodes[i])
  }

  /** Charges one node, resource by resource; reports failure instead of going negative. */
  method SubtractFromNode(node: NumaNode, qos: QoS, request: ResourceList) returns (node': NumaNode, ok: bool)
    ensures ok <==> Covers(node, qos, request)
    ensures ok ==> node' == Take(node, qos, request)
    ensures node'.id == node.id
  {
    node', ok := node, true;
    var todo := request.Keys;
    while todo != {}
      invariant todo <= request.Keys
      invariant node'.id == node.id && node'.costs == node.costs && node'.resources.Keys == node.resources.Keys
      invariant forall name :: name in node.resources && name in todo ==> node'.resources[name] == node.resources[name]
      invariant forall name :: name in node.resources && name !in todo ==>
        && Charge(qos, name, request) <= node.resources[name]
        && node'.resources[name] == node.resources[name] - Charge(qos, name, request)
      decreases todo
    {
      var name :| name in todo;
      todo := todo - {name};
      if qos != Guaranteed && IsNUMAAffineResource(name) { continue; }
      if request[name] == 0 { continue; }
      if name !in node'.resources { continue; }
      var have: int, wanted: int := node'.resources[name], request[name];
      var left := have - wanted;
      if left < 0 {
        assert Charge(qos, name, request) > node.resources[name];
        return node', false;
      }
      node' := node'.(resources := node'.resources[name := left]);
    }
  }

  /** Charges, in place, every node that carries the id. */
  method SubtractResourcesFromNUMANodeList(nodes: array<NumaNode>, numaID: nat, qos: QoS, request: ResourceList)
    returns (ok: bool)
    modifies nodes
    ensures ok <==> forall i :: 0 <= i < nodes.Length && old(nodes[i]).id == numaID ==> Covers(old(nodes[i]), qos, request)
    ensures ok ==> nodes[..] == TakeAt(old(nodes[..]), numaID, qos, request)
  {
    ghost var before := nodes[..];
    for i := 0 to nodes.Length
      invariant forall k :: i <= k < nodes.Length ==> nodes[k] == before[k]
      invariant forall k :: 0 <= k < i ==>
        && (before[k].id == numaID ==> Covers(before[k], qos, request))
        && nodes[k] == if before[k].id == numaID then Take(before[k], qos, request) else before[k]
    {
      if nodes[i].id != numaID { continue; }
      var node;
      node, ok := SubtractFromNode(nodes[i], qos, request);
      nodes[i] := node;
      if !ok {
        return false;
      }
    }
    ok := true;
  }

  /** A node the filter chose always has room: the accounting that follows cannot fail. */
  lemma AlignedNodeCovers(nodes: seq<NumaNode>, alloc: set<string>, qos: QoS, request: ResourceList, id: nat, i: nat)
    requires WellFormed(nodes) && i < |nodes| && nodes[i].id == id
    requires Aligns(nodes, alloc, qos, request, id)
    ensures Covers(nodes[i], qos, request)
  {
    forall name | name in nodes[i].resources
      ensures Charge(qos, name, request) <= nodes[i].resources[name]
    {
      if name in request && request[name] != 0 {
        assert Reported(nodes, name);
        assert Serves(nodes, qos, name, request[name], id);
      }
    }
  }

  // ---- placing a pod's containers ----

  datatype Placement = Refused | Placed(at: seq<nat>, left: seq<NumaNode>)

  /** Containers in order, each on the lowest node it aligns on with what the earlier ones left. */
  ghost function Place(nodes: seq<NumaNode>, alloc: set<string>, qos: QoS, containers: seq<ResourceList>): (p: Placement)
    requires WellFormed(nodes)
    ensures p.Placed? ==> WellFormed(p.left) && |p.left| == |nodes| && |p.at| == |containers|
    ensures p.Placed? ==> forall i :: 0 <= i < |nodes| ==>
      p.left[i].id == nodes[i].id && p.left[i].resources.Keys == nodes[i].resources.Keys
  {
    if containers == [] then Placed([], nodes)
    else
      var p := Place(nodes, alloc, qos, containers[..|containers| - 1]);
      var request := containers[|containers| - 1];
      if p.Refused? then Refused
      else if id: nat :| FirstFit(p.left, alloc, qos, request, id) then
        (forall i | 0 <= i < |p.left| && p.left[i].id == id ensures Covers(p.left[i], qos, request) {
           AlignedNodeCovers(p.left, alloc, qos, request, id, i);
         }
         Placed(p.at + [id], TakeAt(p.left, id, qos, request)))
      else Refused
  }

  /** Init containers run alone and before the others: each must align on the untouched nodes. */
  ghost predicate InitAligns(nodes: seq<NumaNode>, alloc: set<string>, qos: QoS, init: seq<ResourceList>) {
    forall k :: 0 <= k < |init| ==> Alignable(nodes, alloc, qos, init[k])
  }

  ghost predicate ContainerScopeAccepts(nodes: seq<NumaNode>, alloc: set<string>, qos: QoS,
                                        init: seq<ResourceList>, app: seq<ResourceList>)
    requires WellFormed(nodes)
  {
    InitAligns(nodes, alloc, qos, init) && Place(nodes, alloc, qos, app).Placed?
  }

  datatype Status = Ok | CannotAlignInit | CannotAlign | InconsistentAccounting

  lemma PlaceNext(nodes: seq<NumaNode>, alloc: set<string>, qos: QoS, app: seq<ResourceList>, k: nat, id: nat)
    requires WellFormed(nodes) && k < |app|
    requires Place(nodes, alloc, qos, app[..k]).Placed?
    ensures
      var p := Place(nodes, alloc, qos, app[..k]);
      && (FirstFit(p.left, alloc, qos, app[k], id) ==>
            && (forall i :: 0 <= i < |p.left| && p.left[i].id == id ==> Covers(p.left[i], qos, app[k]))
            && Place(nodes, alloc, qos, app[..k + 1]) == Placed(p.at + [id], TakeAt(p.left, id, qos, app[k])))
      && ((forall j: nat :: !Aligns(p.left, alloc, qos, app[k], j)) ==> Place(nodes, alloc, qos, app[..k + 1]).Refused?)
  {
    var p := Place(nodes, alloc, qos, app[..k]);
    assert app[..k + 1][..k] == app[..k];
    if FirstFit(p.left, alloc, qos, app[k], id) {
      forall i | 0 <= i < |p.left| && p.left[i].id == id ensures Covers(p.left[i], qos, app[k]) {
        AlignedNodeCovers(p.left, alloc, qos, app[k], id, i);
      }
    }
  }

  /** Once a prefix is refused the whole pod is. */
  lemma {:induction false} RefusalStays(nodes: seq<NumaNode>, alloc: set<string>, qos: QoS, app: seq<ResourceList>, k: nat)
    requires WellFormed(nodes) && k <= |app|
    requires Place(nodes, alloc, qos, app[..k]).Refused?
    ensures Place(nodes, alloc, qos, app).Refused?
    decreases |app| - k
  {
    if k < |app| {
      assert app[..k + 1][..k] == app[..k];
      RefusalStays(nodes, alloc, qos, app, k + 1);
    } else {
      assert app[..k] == app;
    }
  }

  /** The container-scope handler. Its internal-error branch is never taken. */
  method SingleNUMAContainerLevelHandler(zones: seq<NumaNode>, alloc: set<string>, qos: QoS,
                                         init: seq<ResourceList>, app: seq<ResourceList>)
    returns (status: Status)
    requires WellFormed(zones)
    ensures status != InconsistentAccounting
    ensures status == Ok <==> ContainerScopeAccepts(zones, alloc, qos, init, app)
    ensures status == CannotAlignInit <==> !InitAligns(zones, alloc, qos, init)
  {
    for k := 0 to |init|
      invariant InitAligns(zones, alloc, qos, init[..k])
    {
      var _, suitable := ResourcesAvailableInAnyNUMANodes(zones, alloc, qos, init[k]);
      if !suitable {
        return CannotAlignInit;
      }
    }
    assert init[..|init|] == init;
    status := PlaceContainers(zones, alloc, qos, app);
  }

  /** The loop over the app containers, each charged to its NUMA node before the next is placed. */
  method PlaceContainers(zones: seq<NumaNode>, alloc: set<string>, qos: QoS, app: seq<ResourceList>) returns (status: Status)
    requires WellFormed(zones)
    ensures status == if Place(zones, alloc, qos, app).Placed? then Ok else CannotAlign
  {
    var nodes := new NumaNode[|zones|](i requires 0 <= i < |zones| => zones[i]);
    assert nodes[..] == zones;
    for k := 0 to |app|
      invariant Place(zones, alloc, qos, app[..k]).Placed?
      invariant nodes[..] == Place(zones, alloc, qos, app[..k]).left
    {
      var numaID, suitable := ResourcesAvailableInAnyNUMANodes(nodes[..], alloc, qos, app[k]);
      PlaceNext(zones, alloc, qos, app, k, numaID);
      if !suitable {
        RefusalStays(zones, alloc, qos, app, k + 1);
        return CannotAlign;
      }
      var ok := SubtractResourcesFromNUMANodeList(nodes, numaID, qos, app[k]);
      if !ok {
        return InconsistentAccounting;
      }
    }
    assert app[..|app|] == app;
    status := Ok;
  }

  ghost predicate PodScopeAccepts(nodes: seq<NumaNode>, alloc: set<string>, qos: QoS,
                                  init: seq<ResourceList>, app: seq<ResourceList>) {
    Alignable(nodes, alloc, qos, EffectiveOf(init, app))
  }

  /** The pod-scope handler: one node for the whole effective request. */
  method SingleNUMAPodLevelHandler(zones: seq<NumaNode>, alloc: set<string>, qos: QoS,
                                   init: seq<ResourceList>, app: seq<ResourceList>)
    returns (accepted: bool)
    requires WellFormed(zones)
    ensures accepted <==> PodScopeAccepts(zones, alloc, qos, init, app)
  {
    var resources := GetPodEffectiveRequest(init, app);
    EffectiveIsUnique(init, app, resources);
    var numaID;
    numaID, accepted := ResourcesAvailableInAnyNUMANodes(zones, alloc, qos, resources);
  }

  // ---- what acceptance means ----

  /** What the containers placed on one node take from it in total. */
  ghost function Assigned(at: seq<nat>, app: seq<ResourceList>, qos: QoS, name: string, id: nat): nat
    requires |at| == |app|
  {
    if app == [] then 0
    else
      var n := |app| - 1;
      Assigned(at[..n], app[..n], qos, name, id) + if at[n] == id then Charge(qos, name, app[n]) else 0
  }

  /**
   Conservation: on every node and resource the initial availability is what is left plus what the containers
   assigned there take; being natural numbers, neither part goes below zero.
   */
  lemma {:induction false} PlacementConserves(nodes: seq<NumaNode>, alloc: set<string>, qos: QoS, app: seq<ResourceList>,
                                              i: nat, name: string)
    requires WellFormed(nodes) && i < |nodes| && name in nodes[i].resources
    requires Place(nodes, alloc, qos, app).Placed?
    ensures
      var p := Place(nodes, alloc, qos, app);
      nodes[i].resources[name] == p.left[i].resources[name] + Assigned(p.at, app, qos, name, nodes[i].id)
    decreases |app|
  {
    if app != [] {
      var n := |app| - 1;
      PlacementConserves(nodes, alloc, qos, app[..n], i, name);
      var p, p' := Place(nodes, alloc, qos, app[..n]), Place(nodes, alloc, qos, app);
      assert p'.at[..n] == p.at;
    }
  }

  lemma {:induction false} AssignedAtMostTotal(at: seq<nat>, app: seq<ResourceList>, qos: QoS, name: string, id: nat)
    requires |at| == |app|
    ensures Assigned(at, app, qos, name, id) <= Total(app, name)
    decreases |app|
  {
    if app != [] {
      var n := |app| - 1;
      AssignedAtMostTotal(at[..n], app[..n], qos, name, id);
    }
  }

  /** After k containers, a node that could take the whole pod can still take the next container. */
  lemma StillAligns(nodes: seq<NumaNode>, alloc: set<string>, qos: QoS, init: seq<ResourceList>, app: seq<ResourceList>,
                    request: ResourceList, id: nat, k: nat)
    requires WellFormed(nodes) && k < |app|
    requires IsEffective(init, app, request) && Aligns(nodes, alloc, qos, request, id)
    requires Place(nodes, alloc, qos, app[..k]).Placed?
    ensures Aligns(Place(nodes, alloc, qos, app[..k]).left, alloc, qos, app[k], id)
  {
    var p := Place(nodes, alloc, qos, app[..k]);
    forall name | name in app[k] && app[k][name] != 0
      ensures name in alloc && Admits(p.left, qos, name, app[k][name], id)
    {
      TotalOfPrefix(app, k, name);
      if name !in request {
        NamesMatter(app, name);
      }
      assert name in request && request[name] >= Total(app, name) > 0;
      assert Reported(p.left, name) == Reported(nodes, name) by { SameReports(nodes, p.left, name); }
      if !HostOnly(nodes, name) {
        assert Serves(nodes, qos, name, request[name], id);
        var i :| 0 <= i < |nodes| && nodes[i].id == id && name in nodes[i].resources
                 && IsResourceSetSuitable(qos, name, request[name], nodes[i].resources[name]);
        PlacementConserves(nodes, alloc, qos, app[..k], i, name);
        AssignedAtMostTotal(p.at, app[..k], qos, name, id);
        assert IsResourceSetSuitable(qos, name, app[k][name], p.left[i].resources[name]);
      }
    }
  }

  lemma SameReports(nodes: seq<NumaNode>, left: seq<NumaNode>, name: string)
    requires |nodes| == |left|
    requires forall i :: 0 <= i < |nodes| ==> left[i].resources.Keys == nodes[i].resources.Keys
    ensures Reported(left, name) == Reported(nodes, name)
  {
    if i :| 0 <= i < |nodes| && name in nodes[i].resources {
      assert name in left[i].resources;
    }
    if i :| 0 <= i < |left| && name in left[i].resources {
      assert name in nodes[i].resources;
    }
  }

  lemma {:induction false} PodScopePlaces(nodes: seq<NumaNode>, alloc: set<string>, qos: QoS, init: seq<ResourceList>,
                                          app: seq<ResourceList>, request: ResourceList, id: nat, k: nat)
    requires WellFormed(nodes) && k <= |app|
    requires IsEffective(init, app, request) && Aligns(nodes, alloc, qos, request, id)
    ensures Place(nodes, alloc, qos, app[..k]).Placed?
    decreases k
  {
    if k > 0 {
      PodScopePlaces(nodes, alloc, qos, init, app, request, id, k - 1);
      StillAligns(nodes, alloc, qos, init, app, request, id, k - 1);
      var left := Place(nodes, alloc, qos, app[..k - 1]).left;
      var lowest := LeastAligned(left, alloc, qos, app[k - 1], id);
      PlaceNext(nodes, alloc, qos, app, k - 1, lowest);
    }
  }

  lemma {:induction false} LeastAligned(nodes: seq<NumaNode>, alloc: set<string>, qos: QoS, request: ResourceList, id: nat)
    returns (lowest: nat)
    requires Aligns(nodes, alloc, qos, request, id)
    ensures FirstFit(nodes, alloc, qos, request, lowest)
    decreases id
  {
    if k: nat :| k < id && Aligns(nodes, alloc, qos, request, k) {
      lowest := LeastAligned(nodes, alloc, qos, request, k);
    } else {
      lowest := id;
    }
  }

  /** A pod accepted as a whole is also accepted container by container. */
  lemma PodScopeImpliesContainerScope(nodes: seq<NumaNode>, alloc: set<string>, qos: QoS, init: seq<ResourceList>,
                                      app: seq<ResourceList>)
    requires WellFormed(nodes)
    ensures PodScopeAccepts(nodes, alloc, qos, init, app) ==> ContainerScopeAccepts(nodes, alloc, qos, init, app)
  {
    if !PodScopeAccepts(nodes, alloc, qos, init, app) {
      return;
    }
    var request := EffectiveOf(init, app);
    var id: nat :| Aligns(nodes, alloc, qos, request, id);
    forall k | 0 <= k < |init| ensures Alignable(nodes, alloc, qos, init[k]) {
      InitStillAligns(nodes, alloc, qos, init, app, request, id, k);
    }
    PodScopePlaces(nodes, alloc, qos, init, app, request, id, |app|);
    assert app[..|app|] == app;
  }

  lemma InitStillAligns(nodes: seq<NumaNode>, alloc: set<string>, qos: QoS, init: seq<ResourceList>, app: seq<ResourceList>,
                        request: ResourceList, id: nat, k: nat)
    requires IsEffective(init, app, request) && Aligns(nodes, alloc, qos, request, id) && k < |init|
    ensures Aligns(nodes, alloc, qos, init[k], id)
  {
    forall name | name in init[k] && init[k][name] != 0
      ensures name in alloc && Admits(nodes, qos, name, init[k][name], id)
    {
      WidestBounds(init, k, name);
      if name !in request {
        NamesMatter(init, name);
      }
      if !HostOnly(nodes, name) {
        assert Serves(nodes, qos, name, request[name], id);
        var i :| 0 <= i < |nodes| && nodes[i].id == id && name in nodes[i].resources
                 && IsResourceSetSuitable(qos, name, request[name], nodes[i].resources[name]);
        assert IsResourceSetSuitable(qos, name, init[k][name], nodes[i].resources[name]);
      }
    }
  }
}
