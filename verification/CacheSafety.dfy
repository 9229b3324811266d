/**
 Why over-reserving is safe: whatever zones the reserved pods really land on, the cache never shows a zone as
 roomier than it is, and so the filter never accepts a pod for room that is not there.
 */
module CacheSafety {
  import opened ResourceLists
  import opened Sums
  import opened NrtCache
  import NumaFilter

  /** What a pod really takes of each resource in each zone. */
  type Use = (nat, string) -> nat

  /** What each zone of each node really has. */
  type Capacity = (string, nat, string) -> int

  /** The cache next to the pods that really run on each node. */
  datatype World = World(cache: Cache, running: map<string, map<PodId, Use>>)

  ghost function On(w: World, node: string): map<PodId, Use> {
    if node in w.running then w.running[node] else map[]
  }

  ghost function TakesAt(pods: map<PodId, Use>, zone: nat, name: string): PodId -> int {
    (id: PodId) => if id in pods then pods[id](zone, name) else 0
  }

  /** What is really left of a resource in a zone. */
  ghost function Left(cap: Capacity, w: World, node: string, zone: nat, name: string): int {
    cap(node, zone, name) - SumSet(On(w, node).Keys, TakesAt(On(w, node), zone, name))
  }

  /** However its request is spread over the zones, a pod takes no more than it requested from any of them. */
  ghost predicate Spread(use: Use, request: ResourceList) {
    forall zone, name :: use(zone, name) <= Qty(request, name)
  }

  /** No entry promises more of a resource than a bound, and one of nothing promises nothing. */
  ghost predicate PromisesAtMost(zones: seq<Zone>, bound: (nat, string) -> int) {
    forall z, i :: 0 <= z < |zones| && 0 <= i < |zones[z].resources| ==>
      || zones[z].resources[i].available == 0
      || zones[z].resources[i].available <= bound(zones[z].id, zones[z].resources[i].name)
  }

  /** The reported data already accounts for every pod running on the node: it promises only what is really left. */
  ghost predicate Accounts(cap: Capacity, w: World, node: string, zones: seq<Zone>) {
    PromisesAtMost(zones, (zone: nat, name: string) => Left(cap, w, node, zone, name))
  }

  /**
   What can happen: the scheduler places a pod and reserves for it, a reservation is cancelled, a pod ends,
   another scheduler's pod appears and is noticed, a node is filtered out, or a node is resynchronised.
   */
  datatype Happening =
    | Start(node: string, pod: Pod, use: Use)
    | Cancel(node: string, pod: Pod)
    | End(node: string, id: PodId)
    | ForeignStart(node: string, id: PodId, use: Use)
    | FilteredOut(node: string)
    | Resync(node: string, zones: seq<Zone>)

  ghost predicate Possible(cap: Capacity, w: World, h: Happening) {
    match h
    case Start(node, pod, use) => Slashless(IdOf(pod)) && Spread(use, EffectiveOf(pod.init, pod.app))
    case Cancel(node, pod) => Slashless(IdOf(pod))
    case ForeignStart(node, id, use) => Slashless(id) && Key(id) !in ReservedOn(w.cache, node)
    case Resync(node, zones) => Accounts(cap, w, node, zones)
    case _ => true
  }

  ghost function Next(w: World, h: Happening): World {
    match h
    case Start(node, pod, use) =>
      World(Apply(w.cache, Step.Reserve(node, KeyOf(pod), EffectiveOf(pod.init, pod.app))),
            w.running[node := On(w, node)[IdOf(pod) := use]])
    case Cancel(node, pod) =>
      World(Apply(w.cache, Step.Unreserve(node, KeyOf(pod))), w.running[node := On(w, node) - {IdOf(pod)}])
    case End(node, id) => w.(running := w.running[node := On(w, node) - {id}])
    case ForeignStart(node, id, use) =>
      World(Apply(w.cache, MarkForeign(node)), w.running[node := On(w, node)[id := use]])
    case FilteredOut(node) => w.(cache := Apply(w.cache, Discard(node)))
    case Resync(node, zones) => w.(cache := Apply(w.cache, Flush([(node, zones)])))
  }

  /** Pods the stored data does not yet count are exactly the reserved ones. */
  ghost function Counted(w: World, node: string): set<PodId> {
    set id | id in On(w, node) && Key(id) !in ReservedOn(w.cache, node)
  }

  ghost function LeftByCounted(cap: Capacity, w: World, node: string, zone: nat, name: string): int {
    cap(node, zone, name) - SumSet(Counted(w, node), TakesAt(On(w, node), zone, name))
  }

  /** The pods on a node are in namespaces that Kubernetes admits. */
  ghost predicate Named(w: World, node: string) {
    forall id :: id in On(w, node) ==> Slashless(id)
  }

  ghost predicate NodeSafe(cap: Capacity, w: World, node: string) {
    && (node in w.cache.nrts && node !in w.cache.foreign ==>
          PromisesAtMost(w.cache.nrts[node], (zone: nat, name: string) => LeftByCounted(cap, w, node, zone, name)))
    && (forall id :: id in On(w, node) && Key(id) in ReservedOn(w.cache, node) ==>
          Spread(On(w, node)[id], ReservedOn(w.cache, node)[Key(id)]))
  }

  /** The invariant: on every node not marked foreign, stored data minus the counted pods is really there. */
  ghost predicate Safe(cap: Capacity, w: World) {
    forall node :: Named(w, node) && NodeSafe(cap, w, node)
  }

  /** Nothing changes for a node whose data, reservations, marks and pods stay the same. */
  lemma NodeUntouched(cap: Capacity, w: World, w': World, node: string)
    requires NodeSafe(cap, w, node)
    requires On(w', node) == On(w, node)
    requires ReservedOn(w'.cache, node) == ReservedOn(w.cache, node)
    requires node in w'.cache.nrts ==> node in w.cache.nrts && w'.cache.nrts[node] == w.cache.nrts[node]
    requires node in w.cache.foreign ==> node in w'.cache.foreign
    ensures NodeSafe(cap, w', node)
  {
  }

  /** If the counted pods shrink and keep taking what they took, the room left by them grows. */
  lemma CountedShrinks(cap: Capacity, w: World, w': World, node: string, zone: nat, name: string)
    requires Counted(w', node) <= Counted(w, node)
    requires forall id :: id in Counted(w', node) ==> On(w', node)[id] == On(w, node)[id]
    ensures LeftByCounted(cap, w, node, zone, name) <= LeftByCounted(cap, w', node, zone, name)
  {
    SumSetEq(Counted(w', node), TakesAt(On(w', node), zone, name), TakesAt(On(w, node), zone, name));
    SumSetSubset(Counted(w', node), Counted(w, node), TakesAt(On(w, node), zone, name));
  }

  lemma NodeSafeWhenCountedShrinks(cap: Capacity, w: World, w': World, node: string)
    requires NodeSafe(cap, w, node)
    requires w'.cache.nrts == w.cache.nrts && w'.cache.foreign == w.cache.foreign
    requires Counted(w', node) <= Counted(w, node)
    requires forall id :: id in Counted(w', node) ==> On(w', node)[id] == On(w, node)[id]
    requires forall id :: id in On(w', node) && Key(id) in ReservedOn(w'.cache, node) ==>
               Spread(On(w', node)[id], ReservedOn(w'.cache, node)[Key(id)])
    ensures NodeSafe(cap, w', node)
  {
    if node in w'.cache.nrts && node !in w'.cache.foreign {
      forall zone, name ensures LeftByCounted(cap, w, node, zone, name) <= LeftByCounted(cap, w', node, zone, name) {
        CountedShrinks(cap, w, w', node, zone, name);
      }
    }
  }

  lemma FlushSingle(c: Cache, node: string, zones: seq<Zone>)
    ensures Apply(c, Flush([(node, zones)])) == FlushOne(c, node, zones)
  {
    var updates := [(node, zones)];
    assert updates[..|updates| - 1] == [];
    assert FlushAll(c, updates) == FlushOne(FlushAll(c, []), node, zones);
  }

  /** Flushing a node leaves it safe exactly when the new data accounts for what runs there. */
  lemma ResyncSafe(cap: Capacity, w: World, node: string, zones: seq<Zone>)
    ensures NodeSafe(cap, Next(w, Resync(node, zones)), node) <==> Accounts(cap, w, node, zones)
  {
    var w' := Next(w, Resync(node, zones));
    FlushSingle(w.cache, node, zones);
    assert Counted(w', node) == On(w, node).Keys;
    assert On(w', node) == On(w, node);
    forall zone, name ensures LeftByCounted(cap, w', node, zone, name) == Left(cap, w, node, zone, name)
    {
    }
  }

  /** Right after it readers get the new data itself, so they are not deceived exactly when it accounts for what runs there. */
  lemma ResyncShown(cap: Capacity, w: World, node: string, zones: seq<Zone>)
    ensures Reads(Next(w, Resync(node, zones)).cache, node, Copy(zones))
    ensures Accounts(cap, Next(w, Resync(node, zones)), node, zones) <==> Accounts(cap, w, node, zones)
  {
    var w' := Next(w, Resync(node, zones));
    FlushSingle(w.cache, node, zones);
    forall zone, name ensures Left(cap, w', node, zone, name) == Left(cap, w, node, zone, name)
    {
    }
  }

  lemma OtherNodesUntouched(cap: Capacity, w: World, h: Happening, other: string)
    requires NodeSafe(cap, w, other) && h.node != other
    ensures NodeSafe(cap, Next(w, h), other)
  {
    var w' := Next(w, h);
    if h.Resync? {
      FlushSingle(w.cache, h.node, h.zones);
    }
    NodeUntouched(cap, w, w', other);
  }

  lemma StepSafe(cap: Capacity, w: World, h: Happening)
    requires Safe(cap, w) && Possible(cap, w, h)
    ensures Safe(cap, Next(w, h))
  {
    var w' := Next(w, h);
    forall node ensures Named(w', node) && NodeSafe(cap, w', node) {
      assert Named(w, node) && NodeSafe(cap, w, node);
      if node != h.node {
        OtherNodesUntouched(cap, w, h, node);
      } else {
        match h
        case Resync(_, zones) => ResyncSafe(cap, w, node, zones);
        case ForeignStart(_, id, use) => ForeignSafe(cap, w, node, id, use);
        case Start(_, pod, use) => StartSafe(cap, w, node, pod, use);
        case Cancel(_, pod) => CancelSafe(cap, w, node, pod);
        case End(_, id) => NodeSafeWhenCountedShrinks(cap, w, w', node);
        case FilteredOut(_) => NodeUntouched(cap, w, w', node);
      }
    }
  }

  /** A pod's reservation is its own: no other pod that runs has its key. */
  lemma OthersKeepTheirKeys(w: World, node: string, id: PodId)
    requires Named(w, node) && Slashless(id)
    ensures forall other :: other in On(w, node) && Key(other) == Key(id) ==> other == id
  {
    forall other | other in On(w, node) && Key(other) == Key(id) ensures other == id {
      DifferentPodsDifferentKeys(other, id);
    }
  }

  lemma StartSafe(cap: Capacity, w: World, node: string, pod: Pod, use: Use)
    requires Named(w, node) && NodeSafe(cap, w, node) && Possible(cap, w, Start(node, pod, use))
    ensures NodeSafe(cap, Next(w, Start(node, pod, use)), node)
  {
    OthersKeepTheirKeys(w, node, IdOf(pod));
    NodeSafeWhenCountedShrinks(cap, w, Next(w, Start(node, pod, use)), node);
  }

  lemma CancelSafe(cap: Capacity, w: World, node: string, pod: Pod)
    requires Named(w, node) && NodeSafe(cap, w, node) && Slashless(IdOf(pod))
    ensures NodeSafe(cap, Next(w, Cancel(node, pod)), node)
  {
    OthersKeepTheirKeys(w, node, IdOf(pod));
    NodeSafeWhenCountedShrinks(cap, w, Next(w, Cancel(node, pod)), node);
  }

  lemma ForeignSafe(cap: Capacity, w: World, node: string, id: PodId, use: Use)
    requires NodeSafe(cap, w, node) && Key(id) !in ReservedOn(w.cache, node)
    ensures NodeSafe(cap, Next(w, ForeignStart(node, id, use)), node)
  {
  }

  ghost function RunOf(w: World, hs: seq<Happening>): World {
    if hs == [] then w else Next(RunOf(w, hs[..|hs| - 1]), hs[|hs| - 1])
  }

  ghost predicate PossibleRun(cap: Capacity, w: World, hs: seq<Happening>) {
    forall k :: 0 <= k < |hs| ==> Possible(cap, RunOf(w, hs[..k]), hs[k])
  }

  lemma {:induction false} AlwaysSafe(cap: Capacity, w: World, hs: seq<Happening>)
    requires Safe(cap, w) && PossibleRun(cap, w, hs)
    ensures Safe(cap, RunOf(w, hs))
    decreases |hs|
  {
    if hs != [] {
      var before := hs[..|hs| - 1];
      forall k | 0 <= k < |before| ensures Possible(cap, RunOf(w, before[..k]), before[k]) {
        assert before[..k] == hs[..k];
      }
      AlwaysSafe(cap, w, before);
      StepSafe(cap, RunOf(w, before), hs[|hs| - 1]);
    }
  }

  /** A cache filled from data that accounts for the pods already running starts safe. */
  lemma InitiallySafe(cap: Capacity, nrts: map<string, seq<Zone>>, running: map<string, map<PodId, Use>>)
    requires forall node :: Named(World(Initial(nrts), running), node)
    requires forall node :: node in nrts ==> Accounts(cap, World(Initial(nrts), running), node, nrts[node])
    ensures Safe(cap, World(Initial(nrts), running))
  {
    var w := World(Initial(nrts), running);
    forall node ensures NodeSafe(cap, w, node) {
      if node in nrts {
        assert Accounts(cap, w, node, nrts[node]);
        assert Counted(w, node) == On(w, node).Keys;
        forall zone, name ensures LeftByCounted(cap, w, node, zone, name) == Left(cap, w, node, zone, name)
        {
        }
      }
    }
  }

  /** A sum over pods is covered by one over their keys. */
  lemma {:induction false} SumByKey(ids: set<PodId>, f: PodId -> int, keys: set<string>, g: string -> int)
    requires forall id :: id in ids ==> Slashless(id) && Key(id) in keys && f(id) <= g(Key(id))
    requires forall key :: key in keys ==> 0 <= g(key)
    ensures SumSet(ids, f) <= SumSet(keys, g)
    decreases ids
  {
    if ids == {} {
      SumSetNonNegative(keys, g);
    } else {
      var id :| id in ids;
      forall other | other in ids && other != id ensures Key(other) != Key(id) {
        DifferentPodsDifferentKeys(other, id);
      }
      SumByKey(ids - {id}, f, keys - {Key(id)}, g);
      SumSetInsert(ids - {id}, id, f);
      SumSetInsert(keys - {Key(id)}, Key(id), g);
      assert ids - {id} + {id} == ids && keys - {Key(id)} + {Key(id)} == keys;
    }
  }

  /** What running reserved pods take is covered by what the cache holds back for all reserved ones. */
  lemma ReservationsCover(cap: Capacity, w: World, node: string, zone: nat, name: string)
    requires Named(w, node) && NodeSafe(cap, w, node)
    ensures
      var data := ReservedOn(w.cache, node);
      LeftByCounted(cap, w, node, zone, name) - Reserved(data, data.Keys, name) <= Left(cap, w, node, zone, name)
  {
    var data, pods := ReservedOn(w.cache, node), On(w, node);
    var both := set id | id in pods && Key(id) in data;
    SumSetSplit(Counted(w, node), both, TakesAt(pods, zone, name));
    assert Counted(w, node) + both == pods.Keys;
    SumByKey(both, TakesAt(pods, zone, name), data.Keys, QtyIn(data, name));
  }

  /** No entry a reader gets promises more than is really there. */
  lemma ViewNeverOverpromises(cap: Capacity, w: World, node: string, view: seq<Zone>)
    requires Safe(cap, w) && Reads(w.cache, node, Copy(view))
    ensures Accounts(cap, w, node, view)
  {
    assert Named(w, node) && NodeSafe(cap, w, node);
    forall z, i | 0 <= z < |view| && 0 <= i < |view[z].resources|
      ensures view[z].resources[i].available == 0
              || view[z].resources[i].available <= Left(cap, w, node, view[z].id, view[z].resources[i].name)
    {
      LoweredEntry(cap, w, node, w.cache.nrts[node], view, z, i);
    }
  }

  lemma LoweredEntry(cap: Capacity, w: World, node: string, zones: seq<Zone>, view: seq<Zone>, z: nat, i: nat)
    requires Named(w, node) && NodeSafe(cap, w, node)
    requires PromisesAtMost(zones, (zone: nat, name: string) => LeftByCounted(cap, w, node, zone, name))
    requires IsLowered(zones, view, ReservedOn(w.cache, node), ReservedOn(w.cache, node).Keys)
    requires z < |view| && i < |view[z].resources|
    ensures view[z].resources[i].available == 0
            || view[z].resources[i].available <= Left(cap, w, node, view[z].id, view[z].resources[i].name)
  {
    assert IsLoweredZone(zones[z], view[z], ReservedOn(w.cache, node), ReservedOn(w.cache, node).Keys);
    ReservationsCover(cap, w, node, view[z].id, view[z].resources[i].name);
  }

  // ---- the filter on a cached view ----

  /** extractResources: later entries of a name replace earlier ones. */
  function ExtractResources(rs: seq<ResourceInfo>): ResourceList {
    if rs == [] then map[]
    else ExtractResources(rs[..|rs| - 1])[rs[|rs| - 1].name := rs[|rs| - 1].available]
  }

  function NumaNodes(zones: seq<Zone>): (nodes: seq<NumaFilter.NumaNode>)
    ensures |nodes| == |zones|
  {
    seq(|zones|, z requires 0 <= z < |zones| => NumaFilter.NumaNode(zones[z].id, ExtractResources(zones[z].resources), map[]))
  }

  lemma {:induction false} ExtractedFrom(rs: seq<ResourceInfo>, name: string) returns (i: nat)
    requires name in ExtractResources(rs)
    ensures i < |rs| && rs[i] == ResourceInfo(name, ExtractResources(rs)[name])
    decreases |rs|
  {
    if rs[|rs| - 1].name == name {
      i := |rs| - 1;
    } else {
      i := ExtractedFrom(rs[..|rs| - 1], name);
    }
  }

  /**
   No false positives: in every run, if the container-scope filter accepts a pod on the view the cache gave
   out, then in each zone it chose there really is room for all the containers it put there, in every resource
   the zone reports and the pod's QoS class accounts for.
   */
  lemma AcceptedPodReallyFits(cap: Capacity, start: World, hs: seq<Happening>, node: string, view: seq<Zone>,
                              alloc: set<string>, qos: QoS, app: seq<ResourceList>, z: nat, name: string)
    requires Safe(cap, start) && PossibleRun(cap, start, hs)
    requires Reads(RunOf(start, hs).cache, node, Copy(view))
    requires NumaFilter.WellFormed(NumaNodes(view))
    requires NumaFilter.Place(NumaNodes(view), alloc, qos, app).Placed?
    requires z < |view| && name in NumaNodes(view)[z].resources
    ensures
      var taken := NumaFilter.Assigned(NumaFilter.Place(NumaNodes(view), alloc, qos, app).at, app, qos, name, view[z].id);
      taken == 0 || taken <= Left(cap, RunOf(start, hs), node, view[z].id, name)
  {
    AlwaysSafe(cap, start, hs);
    NumaFilter.PlacementConserves(NumaNodes(view), alloc, qos, app, z, name);
    var i := ExtractedFrom(view[z].resources, name);
    ViewNeverOverpromises(cap, RunOf(start, hs), node, view);
  }

  /** The same for an init container, which runs alone. */
  lemma AcceptedInitReallyFits(cap: Capacity, start: World, hs: seq<Happening>, node: string, view: seq<Zone>,
                               alloc: set<string>, qos: QoS, request: ResourceList, z: nat, name: string)
    requires Safe(cap, start) && PossibleRun(cap, start, hs)
    requires Reads(RunOf(start, hs).cache, node, Copy(view))
    requires NumaFilter.WellFormed(NumaNodes(view))
    requires z < |view| && name in NumaNodes(view)[z].resources
    requires NumaFilter.Aligns(NumaNodes(view), alloc, qos, request, view[z].id)
    ensures Charge(qos, name, request) == 0
            || Charge(qos, name, request) <= Left(cap, RunOf(start, hs), node, view[z].id, name)
  {
    AlwaysSafe(cap, start, hs);
    NumaFilter.AlignedNodeCovers(NumaNodes(view), alloc, qos, request, view[z].id, z);
    var i := ExtractedFrom(view[z].resources, name);
    ViewNeverOverpromises(cap, RunOf(start, hs), node, view);
  }

  /** On every zone with this id there is room for what the request takes, in every resource the zone reports. */
  ghost predicate HasRoom(cap: Capacity, w: World, node: string, view: seq<Zone>, qos: QoS, request: ResourceList, id: nat) {
    forall z, name :: 0 <= z < |view| && view[z].id == id && name in NumaNodes(view)[z].resources ==>
      Charge(qos, name, request) == 0 || Charge(qos, name, request) <= Left(cap, w, node, id, name)
  }

  /** No false positives in pod scope: there is room for the whole pod on the NUMA node the filter chose. */
  lemma AcceptedPodScopeReallyFits(cap: Capacity, start: World, hs: seq<Happening>, node: string, view: seq<Zone>,
                                   alloc: set<string>, qos: QoS, init: seq<ResourceList>, app: seq<ResourceList>)
    requires Safe(cap, start) && PossibleRun(cap, start, hs)
    requires Reads(RunOf(start, hs).cache, node, Copy(view))
    requires NumaFilter.WellFormed(NumaNodes(view))
    requires NumaFilter.PodScopeAccepts(NumaNodes(view), alloc, qos, init, app)
    ensures exists id :: NumaFilter.Aligns(NumaNodes(view), alloc, qos, EffectiveOf(init, app), id)
                         && HasRoom(cap, RunOf(start, hs), node, view, qos, EffectiveOf(init, app), id)
  {
    var request := EffectiveOf(init, app);
    var id :| NumaFilter.Aligns(NumaNodes(view), alloc, qos, request, id);
    forall z, name | 0 <= z < |view| && view[z].id == id && name in NumaNodes(view)[z].resources
      ensures Charge(qos, name, request) == 0 || Charge(qos, name, request) <= Left(cap, RunOf(start, hs), node, id, name)
    {
      AcceptedInitReallyFits(cap, start, hs, node, view, alloc, qos, request, z, name);
    }
    assert HasRoom(cap, RunOf(start, hs), node, view, qos, request, id);
  }
}
