/** The over-reserving cache of node resource topology (NRT) data. */
module NrtCache {
  import opened ResourceLists
  import opened Sums

  datatype ResourceInfo = ResourceInfo(name: string, available: nat)

  /** A NUMA zone and what it reports as available. */
  datatype Zone = Zone(id: nat, resources: seq<ResourceInfo>)

  datatype Pod = Pod(namespace: string, name: string, init: seq<ResourceList>, app: seq<ResourceList>)

  /** Which pod it is, among all pods of the cluster. */
  datatype PodId = PodId(namespace: string, name: string)

  function IdOf(pod: Pod): PodId {
    PodId(pod.namespace, pod.name)
  }

  function Key(id: PodId): string {
    id.namespace + "/" + id.name
  }

  function KeyOf(pod: Pod): string {
    Key(IdOf(pod))
  }

  /** Kubernetes admits no slash in the name of a namespace. */
  predicate Slashless(id: PodId) {
    '/' !in id.namespace
  }

  lemma FirstSlash(id: PodId)
    requires Slashless(id)
    ensures |Key(id)| > |id.namespace| && Key(id)[|id.namespace|] == '/'
    ensures forall i :: 0 <= i < |id.namespace| ==> Key(id)[i] != '/'
    ensures Key(id)[..|id.namespace|] == id.namespace && Key(id)[|id.namespace| + 1..] == id.name
  {
  }

  /** Pods of another namespace or another name never share a reservation. */
  lemma DifferentPodsDifferentKeys(a: PodId, b: PodId)
    requires Slashless(a) && Slashless(b)
    ensures Key(a) == Key(b) <==> a == b
  {
    if Key(a) == Key(b) {
      FirstSlash(a);
      FirstSlash(b);
      assert |a.namespace| == |b.namespace|;
    }
  }

  /** Requests by pod key. */
  type Reservations = map<string, ResourceList>

  ghost function QtyIn(data: Reservations, name: string): string -> int {
    (key: string) => if key in data then Qty(data[key], name) else 0
  }

  /** All that the given pods reserve of one resource. */
  ghost function Reserved(data: Reservations, keys: set<string>, name: string): nat {
    SumSetNonNegative(keys, QtyIn(data, name));
    SumSet(keys, QtyIn(data, name))
  }

  /** zones' is zones with the reservations of these pods taken from every zone, down to zero. */
  ghost predicate IsLowered(zones: seq<Zone>, zones': seq<Zone>, data: Reservations, keys: set<string>) {
    && |zones'| == |zones|
    && forall z :: 0 <= z < |zones| ==> IsLoweredZone(zones[z], zones'[z], data, keys)
  }

  ghost predicate IsLoweredZone(zone: Zone, zone': Zone, data: Reservations, keys: set<string>) {
    && zone'.id == zone.id
    && |zone'.resources| == |zone.resources|
    && forall i :: 0 <= i < |zone.resources| ==>
         zone'.resources[i] == ResourceInfo(zone.resources[i].name,
                                            Monus(zone.resources[i].available, Reserved(data, keys, zone.resources[i].name)))
  }

  class NodeResourceTopology {
    const name: string
    var zones: seq<Zone>

    constructor (name: string, zones: seq<Zone>)
      ensures this.name == name && this.zones == zones
    {
      this.name := name;
      this.zones := zones;
    }

    method DeepCopy() returns (copy: NodeResourceTopology)
      ensures fresh(copy) && copy.name == name && copy.zones == zones
    {
      copy := new NodeResourceTopology(name, zones);
    }
  }

  /** The pods reserved on one node, with their effective requests. */
  class ResourceStore {
    var data: Reservations

    constructor ()
      ensures data == map[]
    {
      data := map[];
    }

    /** True when it replaced an entry. */
    method AddPod(pod: Pod) returns (existed: bool)
      modifies this
      ensures existed == (KeyOf(pod) in old(data))
      ensures KeyOf(pod) in data && IsEffective(pod.init, pod.app, data[KeyOf(pod)])
      ensures data == old(data)[KeyOf(pod) := data[KeyOf(pod)]]
    {
      var key := KeyOf(pod);
      existed := key in data;
      var request := GetPodEffectiveRequest(pod.init, pod.app);
      data := data[key := request];
    }

    method DeletePod(pod: Pod) returns (existed: bool)
      modifies this
      ensures existed == (KeyOf(pod) in old(data))
      ensures data == old(data) - {KeyOf(pod)}
    {
      var key := KeyOf(pod);
      existed := key in data;
      data := data - {key};
    }

    /** Takes every reservation from every zone, in whatever order the pods come. */
    method UpdateNRT(nrt: NodeResourceTopology)
      modifies nrt
      ensures IsLowered(old(nrt.zones), nrt.zones, data, data.Keys)
    {
      ghost var zones0 := nrt.zones;
      var todo := data.Keys;
      assert IsLowered(zones0, nrt.zones, data, {});
      while todo != {}
        invariant todo <= data.Keys
        invariant IsLowered(zones0, nrt.zones, data, data.Keys - todo)
        decreases todo
      {
        var key :| key in todo;
        ghost var done, before := data.Keys - todo, nrt.zones;
        var zi := 0;
        while zi < |nrt.zones|
          invariant zi <= |nrt.zones| == |before|
          invariant forall z :: zi <= z < |before| ==> nrt.zones[z] == before[z]
          invariant forall z :: 0 <= z < zi ==> IsLessBy(before[z], nrt.zones[z], data[key])
        {
          var zone := LowerZone(nrt.zones[zi], data[key]);
          nrt.zones := nrt.zones[zi := zone];
          zi := zi + 1;
        }
        LowerOneMore(zones0, before, nrt.zones, data, done, key);
        todo := todo - {key};
        assert data.Keys - todo == done + {key};
      }
      assert data.Keys - todo == data.Keys;
    }
  }

  ghost predicate IsLessBy(zone: Zone, zone': Zone, request: ResourceList) {
    && zone'.id == zone.id
    && |zone'.resources| == |zone.resources|
    && forall i :: 0 <= i < |zone.resources| ==>
         zone'.resources[i] == ResourceInfo(zone.resources[i].name,
                                            Monus(zone.resources[i].available, Qty(request, zone.resources[i].name)))
  }

  /** The innermost loop: one pod against one zone. */
  method LowerZone(zone: Zone, request: ResourceList) returns (zone': Zone)
    ensures IsLessBy(zone, zone', request)
  {
    zone' := zone;
    for ri := 0 to |zone.resources|
      invariant zone'.id == zone.id && |zone'.resources| == |zone.resources|
      invariant forall i :: ri <= i < |zone.resources| ==> zone'.resources[i] == zone.resources[i]
      invariant forall i :: 0 <= i < ri ==>
        zone'.resources[i] == ResourceInfo(zone.resources[i].name,
                                           Monus(zone.resources[i].available, Qty(request, zone.resources[i].name)))
    {
      var zr := zone'.resources[ri];
      if zr.name !in request { continue; }
      var qty := request[zr.name];
      if zr.available < qty {
        zone' := zone'.(resources := zone'.resources[ri := zr.(available := 0)]);
        continue;
      }
      zone' := zone'.(resources := zone'.resources[ri := zr.(available := zr.available - qty)]);
    }
  }

  /** Clamped subtractions add up: one pod more lowers by one pod more. */
  lemma LowerOneMore(zones0: seq<Zone>, before: seq<Zone>, after: seq<Zone>, data: Reservations, done: set<string>, key: string)
    requires IsLowered(zones0, before, data, done)
    requires key in data && key !in done
    requires |after| == |before| && forall z :: 0 <= z < |before| ==> IsLessBy(before[z], after[z], data[key])
    ensures IsLowered(zones0, after, data, done + {key})
  {
    forall z | 0 <= z < |zones0| ensures IsLoweredZone(zones0[z], after[z], data, done + {key}) {
      assert IsLoweredZone(zones0[z], before[z], data, done) && IsLessBy(before[z], after[z], data[key]);
      forall i | 0 <= i < |zones0[z].resources|
        ensures after[z].resources[i]
                == ResourceInfo(zones0[z].resources[i].name,
                                Monus(zones0[z].resources[i].available, Reserved(data, done + {key}, zones0[z].resources[i].name)))
      {
        SumSetInsert(done, key, QtyIn(data, zones0[z].resources[i].name));
      }
    }
  }

  // ---- the cache as a state machine ----

  datatype Cache = Cache(
    nrts: map<string, seq<Zone>>,
    assumed: map<string, Reservations>,
    discarded: map<string, nat>,
    foreign: map<string, nat>)

  function Incr(counter: map<string, nat>, key: string): map<string, nat> {
    counter[key := (if key in counter then counter[key] else 0) + 1]
  }

  /** Operations under the cache's lock. Reserve carries the pod's effective request. */
  datatype Step =
    | Discard(node: string)
    | MarkForeign(node: string)
    | Reserve(node: string, key: string, request: ResourceList)
    | Unreserve(node: string, key: string)
    | Flush(updates: seq<(string, seq<Zone>)>)

  ghost function FlushOne(c: Cache, node: string, zones: seq<Zone>): Cache {
    Cache(c.nrts[node := zones], c.assumed - {node}, c.discarded - {node}, c.foreign - {node})
  }

  ghost function FlushAll(c: Cache, updates: seq<(string, seq<Zone>)>): Cache {
    if updates == [] then c
    else
      var u := updates[|updates| - 1];
      FlushOne(FlushAll(c, updates[..|updates| - 1]), u.0, u.1)
  }

  ghost function ReservedOn(c: Cache, node: string): Reservations {
    if node in c.assumed then c.assumed[node] else map[]
  }

  ghost function Apply(c: Cache, s: Step): Cache {
    match s
    case Discard(node) => c.(discarded := Incr(c.discarded, node))
    case MarkForeign(node) => if node in c.nrts then c.(foreign := Incr(c.foreign, node)) else c
    case Reserve(node, key, request) =>
      c.(assumed := c.assumed[node := ReservedOn(c, node)[key := request]], discarded := c.discarded - {node})
    case Unreserve(node, key) =>
      if node in c.assumed then c.(assumed := c.assumed[node := c.assumed[node] - {key}]) else c
    case Flush(updates) => FlushAll(c, updates)
  }

  ghost function Run(c: Cache, steps: seq<Step>): Cache {
    if steps == [] then c else Apply(Run(c, steps[..|steps| - 1]), steps[|steps| - 1])
  }

  ghost function Initial(nrts: map<string, seq<Zone>>): Cache {
    Cache(nrts, map[], map[], map[])
  }

  /** A read: refused on a node marked foreign, empty without data, else the lowered copy. */
  datatype ReadResult = Refused | NoData | Copy(zones: seq<Zone>)

  ghost predicate Reads(c: Cache, node: string, r: ReadResult) {
    if node in c.foreign then r == Refused
    else if node !in c.nrts then r == NoData
    else r.Copy? && IsLowered(c.nrts[node], r.zones, ReservedOn(c, node), ReservedOn(c, node).Keys)
  }

  ghost predicate Flushes(s: Step, node: string) {
    s.Flush? && exists i :: 0 <= i < |s.updates| && s.updates[i].0 == node
  }

  /** Counters agree on a node: neither has it, or both with the same count. */
  ghost predicate SameCount(a: map<string, nat>, b: map<string, nat>, node: string) {
    (node in a <==> node in b) && (node in a ==> a[node] == b[node])
  }

  /** The update that decides what a flush stores for a node: the last one of the node. */
  ghost predicate DecidesAt(updates: seq<(string, seq<Zone>)>, u: nat, node: string) {
    u < |updates| && updates[u].0 == node && forall v :: u < v < |updates| ==> updates[v].0 != node
  }

  lemma {:induction false} FlushAllEffect(c: Cache, updates: seq<(string, seq<Zone>)>, node: string)
    ensures
      var c' := FlushAll(c, updates);
      && c.nrts.Keys <= c'.nrts.Keys
      && c'.foreign.Keys <= c.foreign.Keys
      && (if Flushes(Flush(updates), node) then
            && node !in c'.foreign && node !in c'.discarded && node !in c'.assumed
            && node in c'.nrts && forall u: nat :: DecidesAt(updates, u, node) ==> c'.nrts[node] == updates[u].1
          else
            && SameCount(c'.foreign, c.foreign, node) && SameCount(c'.discarded, c.discarded, node)
            && ReservedOn(c', node) == ReservedOn(c, node)
            && (node in c'.nrts <==> node in c.nrts)
            && (node in c.nrts ==> c'.nrts[node] == c.nrts[node]))
    decreases |updates|
  {
    if updates != [] {
      var rest, u := updates[..|updates| - 1], updates[|updates| - 1];
      FlushAllEffect(c, rest, node);
      assert Flushes(Flush(updates), node) <==> Flushes(Flush(rest), node) || u.0 == node by {
        if Flushes(Flush(rest), node) {
          var i :| 0 <= i < |rest| && rest[i].0 == node;
          assert updates[i].0 == node;
        }
      }
      forall v: nat | DecidesAt(updates, v, node) ensures if v == |rest| then u.0 == node else DecidesAt(rest, v, node) && u.0 != node {}
    }
  }

  /** In every run, a node marked foreign has stored data. */
  lemma {:induction false} ForeignNodesHaveData(nrts: map<string, seq<Zone>>, steps: seq<Step>)
    ensures Run(Initial(nrts), steps).foreign.Keys <= Run(Initial(nrts), steps).nrts.Keys
    decreases |steps|
  {
    if steps != [] {
      var before, s := steps[..|steps| - 1], steps[|steps| - 1];
      ForeignNodesHaveData(nrts, before);
      if s.Flush? {
        FlushAllEffect(Run(Initial(nrts), before), s.updates, "");
      }
    }
  }

  /** Once marked, a node is refused to every reader until it is flushed, whatever else happens meanwhile. */
  lemma {:induction false} RefusedUntilFlushed(c: Cache, steps: seq<Step>, node: string, r: ReadResult)
    requires node in c.foreign
    requires forall i :: 0 <= i < |steps| ==> !Flushes(steps[i], node)
    ensures node in Run(c, steps).foreign
    ensures Reads(Run(c, steps), node, r) <==> r == Refused
    decreases |steps|
  {
    if steps != [] {
      var before, s := steps[..|steps| - 1], steps[|steps| - 1];
      RefusedUntilFlushed(c, before, node, r);
      if s.Flush? {
        FlushAllEffect(Run(c, before), s.updates, node);
      }
    }
  }

  // ---- what reservations do to reads ----

  ghost function ReserveFor(node: string, pod: Pod): Step {
    Step.Reserve(node, KeyOf(pod), EffectiveOf(pod.init, pod.app))
  }

  ghost predicate AllLessBy(zones: seq<Zone>, zones': seq<Zone>, request: ResourceList) {
    |zones'| == |zones| && forall z :: 0 <= z < |zones| ==> IsLessBy(zones[z], zones'[z], request)
  }

  /** Reserving for a pod lowers every entry of every zone a reader gets by the pod's effective request. */
  lemma ReservationShows(c: Cache, node: string, pod: Pod, before: seq<Zone>, after: seq<Zone>)
    requires KeyOf(pod) !in ReservedOn(c, node)
    requires Reads(c, node, Copy(before)) && Reads(Apply(c, ReserveFor(node, pod)), node, Copy(after))
    ensures AllLessBy(before, after, EffectiveOf(pod.init, pod.app))
  {
    var data, key, request := ReservedOn(c, node), KeyOf(pod), EffectiveOf(pod.init, pod.app);
    var data' := data[key := request];
    assert data'.Keys == data.Keys + {key};
    forall z | 0 <= z < |before| ensures IsLessBy(before[z], after[z], request) {
      var zone := c.nrts[node][z];
      assert IsLoweredZone(zone, before[z], data, data.Keys) && IsLoweredZone(zone, after[z], data', data'.Keys);
      forall i | 0 <= i < |zone.resources|
        ensures Reserved(data', data'.Keys, zone.resources[i].name)
                == Reserved(data, data.Keys, zone.resources[i].name) + Qty(request, zone.resources[i].name)
      {
        var name := zone.resources[i].name;
        SumSetInsert(data.Keys, key, QtyIn(data', name));
        SumSetEq(data.Keys, QtyIn(data', name), QtyIn(data, name));
      }
    }
  }

  lemma UnreserveLeavesOther(c: Cache, node: string, p: Pod, q: Pod)
    requires KeyOf(p) != KeyOf(q) && KeyOf(p) !in ReservedOn(c, node) && KeyOf(q) !in ReservedOn(c, node)
    ensures KeyOf(q) !in ReservedOn(Apply(c, ReserveFor(node, p)), node)
    ensures
      var both := Apply(Apply(c, ReserveFor(node, p)), ReserveFor(node, q));
      ReservedOn(Apply(both, Step.Unreserve(node, KeyOf(p))), node) == ReservedOn(Apply(c, ReserveFor(node, q)), node)
  {
  }

  lemma SameReads(c: Cache, d: Cache, node: string, r: ReadResult)
    requires c.nrts == d.nrts && c.foreign == d.foreign && ReservedOn(c, node) == ReservedOn(d, node)
    ensures Reads(c, node, r) <==> Reads(d, node, r)
  {
  }

  /**
   Pods that differ in namespace or name are reserved for side by side: readers miss what both of them request,
   and once one of them is unreserved they miss exactly what the other requests.
   */
  lemma PodsReservedSideBySide(c: Cache, one: Cache, both: Cache, node: string, p: Pod, q: Pod,
                               before: seq<Zone>, withOne: seq<Zone>, withBoth: seq<Zone>, withOther: seq<Zone>)
    requires Slashless(IdOf(p)) && Slashless(IdOf(q)) && (p.namespace != q.namespace || p.name != q.name)
    requires KeyOf(p) !in ReservedOn(c, node) && KeyOf(q) !in ReservedOn(c, node)
    requires one == Apply(c, ReserveFor(node, p)) && both == Apply(one, ReserveFor(node, q))
    requires Reads(c, node, Copy(before)) && Reads(one, node, Copy(withOne)) && Reads(both, node, Copy(withBoth))
    requires Reads(Apply(both, Step.Unreserve(node, KeyOf(p))), node, Copy(withOther))
    ensures AllLessBy(before, withOne, EffectiveOf(p.init, p.app))
    ensures AllLessBy(withOne, withBoth, EffectiveOf(q.init, q.app))
    ensures AllLessBy(before, withOther, EffectiveOf(q.init, q.app))
  {
    DifferentPodsDifferentKeys(IdOf(p), IdOf(q));
    UnreserveLeavesOther(c, node, p, q);
    SameReads(Apply(both, Step.Unreserve(node, KeyOf(p))), Apply(c, ReserveFor(node, q)), node, Copy(withOther));
    ReservationShows(c, node, p, before, withOne);
    ReservationShows(one, node, q, withOne, withBoth);
    ReservationShows(c, node, q, before, withOther);
  }

  // ---- the locked object ----

  ghost function WithStore(c: Cache, node: string): Cache {
    c.(assumed := c.assumed[node := ReservedOn(c, node)])
  }

  lemma ReserveInNewStore(c: Cache, node: string, key: string, request: ResourceList)
    ensures Apply(WithStore(c, node), Step.Reserve(node, key, request)) == Apply(c, Step.Reserve(node, key, request))
  {
    var d := WithStore(c, node);
    assert ReservedOn(d, node) == ReservedOn(c, node);
    assert d.assumed[node := ReservedOn(c, node)[key := request]] == c.assumed[node := ReservedOn(c, node)[key := request]];
  }

  ghost function NrtView(nrts: map<string, NodeResourceTopology>): map<string, seq<Zone>>
    reads nrts.Values
  {
    map n | n in nrts :: nrts[n].zones
  }

  ghost function StoreView(assumed: map<string, ResourceStore>): map<string, Reservations>
    reads assumed.Values
  {
    map n | n in assumed :: assumed[n].data
  }

  class OverReserve {
    var nrts: map<string, NodeResourceTopology>
    var assumed: map<string, ResourceStore>
    var discarded: map<string, nat>
    var foreign: map<string, nat>

    ghost predicate Valid()
      reads this
    {
      forall a, b :: a in assumed && b in assumed && a != b ==> assumed[a] != assumed[b]
    }

    ghost function View(): Cache
      reads this, nrts.Values, assumed.Values
    {
      Cache(NrtView(nrts), StoreView(assumed), discarded, foreign)
    }

    method GetCachedNRTCopy(nodeName: string) returns (nrt: NodeResourceTopology?, ok: bool)
      requires Valid()
      ensures View() == old(View())
      ensures ok ==> nrt != null ==> fresh(nrt)
      ensures Reads(View(), nodeName, if !ok then Refused else if nrt == null then NoData else Copy(nrt.zones))
    {
      if nodeName in foreign {
        return null, false;
      }
      if nodeName !in nrts {
        return null, true;
      }
      nrt := nrts[nodeName].DeepCopy();
      ok := true;
      if nodeName !in assumed {
        return;
      }
      assumed[nodeName].UpdateNRT(nrt);
    }

    method NodeMaybeOverReserved(nodeName: string)
      requires Valid()
      modifies this`discarded
      ensures View() == Apply(old(View()), Discard(nodeName))
    {
      discarded := Incr(discarded, nodeName);
    }

    method NodeHasForeignPods(nodeName: string)
      requires Valid()
      modifies this`foreign
      ensures View() == Apply(old(View()), MarkForeign(nodeName))
    {
      if nodeName !in nrts {
        return;
      }
      foreign := Incr(foreign, nodeName);
    }

    /** Makes sure the node has a store, created empty on first use. */
    method StoreFor(nodeName: string)
      requires Valid()
      modifies this`assumed
      ensures Valid() && nodeName in assumed
      ensures View() == WithStore(old(View()), nodeName)
      ensures assumed[nodeName] in old(assumed).Values || fresh(assumed[nodeName])
    {
      if nodeName !in assumed {
        var store := new ResourceStore();
        assumed := assumed[nodeName := store];
      }
      assert StoreView(assumed) == old(StoreView(assumed))[nodeName := ReservedOn(old(View()), nodeName)];
    }

    method AddToStore(nodeName: string, pod: Pod) returns (ghost request: ResourceList)
      requires Valid() && nodeName in assumed
      modifies this`discarded, assumed[nodeName]
      ensures IsEffective(pod.init, pod.app, request)
      ensures View() == Apply(old(View()), Step.Reserve(nodeName, KeyOf(pod), request))
    {
      var _ := assumed[nodeName].AddPod(pod);
      request := assumed[nodeName].data[KeyOf(pod)];
      discarded := discarded - {nodeName};
      assert StoreView(assumed) == old(StoreView(assumed))[nodeName := assumed[nodeName].data];
    }

    method ReserveNodeResources(nodeName: string, pod: Pod) returns (ghost request: ResourceList)
      requires Valid()
      modifies this, assumed.Values
      ensures Valid()
      ensures IsEffective(pod.init, pod.app, request)
      ensures View() == Apply(old(View()), Step.Reserve(nodeName, KeyOf(pod), request))
    {
      StoreFor(nodeName);
      request := AddToStore(nodeName, pod);
      ReserveInNewStore(old(View()), nodeName, KeyOf(pod), request);
    }

    method UnreserveNodeResources(nodeName: string, pod: Pod)
      requires Valid()
      modifies assumed.Values
      ensures View() == Apply(old(View()), Step.Unreserve(nodeName, KeyOf(pod)))
    {
      if nodeName !in assumed {
        return;
      }
      var _ := assumed[nodeName].DeletePod(pod);
    }

    /** The dirty nodes, each listed once; both counters are left alone. */
    method NodesMaybeOverReserved() returns (nodes: seq<string>)
      requires Valid()
      ensures forall n :: n in nodes <==> n in foreign || n in discarded
      ensures forall i, j :: 0 <= i < j < |nodes| ==> nodes[i] != nodes[j]
    {
      var counts := foreign;
      var todo := discarded.Keys;
      while todo != {}
        invariant todo <= discarded.Keys
        invariant counts.Keys == foreign.Keys + (discarded.Keys - todo)
        decreases todo
      {
        var n :| n in todo;
        counts := Incr(counts, n);
        todo := todo - {n};
      }
      nodes := [];
      var keys := counts.Keys;
      while keys != {}
        invariant keys <= counts.Keys
        invariant forall n :: n in nodes <==> n in counts && n !in keys
        invariant forall i, j :: 0 <= i < j < |nodes| ==> nodes[i] != nodes[j]
        decreases keys
      {
        var n :| n in keys;
        nodes := nodes + [n];
        keys := keys - {n};
      }
    }

    method FlushNodes(updates: seq<NodeResourceTopology>)
      requires Valid()
      modifies this
      ensures Valid()
      ensures View() == Apply(old(View()), Flush(old(UpdatesOf(updates))))
    {
      ghost var start, now, all := View(), View(), UpdatesOf(updates);
      for k := 0 to |updates|
        invariant Valid() && all == UpdatesOf(updates)
        invariant now == View() && now == FlushAll(start, all[..k])
      {
        UpdatesAt(updates, k);
        FlushNode(updates[k]);
        now := FlushOne(now, all[k].0, all[k].1);
        assert all[..k + 1][..k] == all[..k];
      }
      assert all[..|updates|] == all;
    }

    method FlushNode(nrt: NodeResourceTopology)
      requires Valid()
      modifies this
      ensures Valid()
      ensures View() == FlushOne(old(View()), nrt.name, nrt.zones)
    {
      var copy := nrt.DeepCopy();
      nrts := nrts[nrt.name := copy];
      assumed := assumed - {nrt.name};
      discarded := discarded - {nrt.name};
      foreign := foreign - {nrt.name};
      assert NrtView(nrts) == old(NrtView(nrts))[nrt.name := nrt.zones];
      assert StoreView(assumed) == old(StoreView(assumed)) - {nrt.name};
    }
  }

  ghost function UpdatesOf(updates: seq<NodeResourceTopology>): (r: seq<(string, seq<Zone>)>)
    reads updates
    ensures |r| == |updates|
  {
    if updates == [] then []
    else
      var u := updates[|updates| - 1];
      UpdatesOf(updates[..|updates| - 1]) + [(u.name, u.zones)]
  }

  lemma {:induction false} UpdatesAt(updates: seq<NodeResourceTopology>, k: nat)
    requires k < |updates|
    ensures UpdatesOf(updates)[k] == (updates[k].name, updates[k].zones)
    decreases |updates|
  {
    if k < |updates| - 1 {
      UpdatesAt(updates[..|updates| - 1], k);
    }
  }
}
