/** Kubernetes resource lists, their names, and the effective request of a pod. */
module ResourceLists {
  /** Quantities by resource name; requests and availabilities are never negative. */
  type ResourceList = map<string, nat>

  function Qty(r: ResourceList, name: string): nat {
    if name in r then r[name] else 0
  }

  function Min(a: nat, b: nat): nat {
    if a < b then a else b
  }

  /** Subtraction that stops at zero. */
  function Monus(a: nat, b: nat): nat {
    if a < b then 0 else a - b
  }

  predicate Contains(s: string, sub: string) {
    exists i :: 0 <= i <= |s| && sub <= s[i..]
  }

  /** Unprefixed names, and names in the kubernetes.io domain. */
  predicate IsNativeResource(name: string) {
    '/' !in name || Contains(name, "kubernetes.io/")
  }

  predicate IsHugePageResourceName(name: string) {
    "hugepages-" <= name
  }

  /** Resources that may have no NUMA affinity at all. */
  predicate IsHostLevelResource(name: string) {
    name == "ephemeral-storage" || name == "storage" || !IsNativeResource(name)
  }

  /** Resources that must have NUMA affinity. */
  predicate IsNUMAAffineResource(name: string) {
    name == "cpu" || name == "memory" || IsHugePageResourceName(name)
  }

  ghost predicate EndsWith(s: string, sub: string) {
    |sub| <= |s| && s[|s| - |sub|..] == sub
  }

  /** A prefixed resource is native exactly if its prefix ends in the kubernetes.io domain. */
  lemma PrefixedIsNative(domain: string, resource: string)
    requires '/' !in domain && '/' !in resource
    ensures IsNativeResource(domain + "/" + resource) <==> EndsWith(domain, "kubernetes.io")
  {
    var name := domain + "/" + resource;
    assert name[|domain|] == '/';
    assert forall i :: 0 <= i < |name| && name[i] == '/' ==> i == |domain|;
    if i :| 0 <= i <= |name| && "kubernetes.io/" <= name[i..] {
      assert name[i..][13] == '/';
      assert i + 13 == |domain|;
      assert name[i..][..13] == domain[i..];
    }
    if EndsWith(domain, "kubernetes.io") {
      var i := |domain| - 13;
      assert name[i..] == domain[i..] + "/" + resource;
      assert "kubernetes.io" + "/" == "kubernetes.io/";
    }
  }

  /** CPU, memory and huge pages must be on a NUMA node; storage and other vendors' devices need not be. */
  lemma ResourceKinds(name: string, domain: string, device: string)
    requires '/' !in domain && '/' !in device && !EndsWith(domain, "kubernetes.io")
    ensures name == "cpu" || name == "memory" || ("hugepages-" <= name && '/' !in name) ==>
      IsNUMAAffineResource(name) && !IsHostLevelResource(name)
    ensures name == "ephemeral-storage" || name == "storage" ==> IsHostLevelResource(name) && !IsNUMAAffineResource(name)
    ensures IsHostLevelResource(domain + "/" + device)
  {
    PrefixedIsNative(domain, device);
    if "hugepages-" <= name {
      assert name[0] == 'h';
    }
  }

  datatype QoS = Guaranteed | Burstable | BestEffort

  /** Only Guaranteed pods are pinned: for the others CPU, memory and huge pages are not accounted per node. */
  predicate Ignored(qos: QoS, name: string) {
    qos != Guaranteed && IsNUMAAffineResource(name)
  }

  predicate IsResourceSetSuitable(qos: QoS, name: string, quantity: nat, available: nat) {
    Ignored(qos, name) || available >= quantity
  }

  /** What a request takes from a node that reports the resource. */
  function Charge(qos: QoS, name: string, request: ResourceList): nat {
    if Ignored(qos, name) then 0 else Qty(request, name)
  }

  // ---- effective requests ----

  ghost function NamesOf(cs: seq<ResourceList>): set<string> {
    if cs == [] then {} else NamesOf(cs[..|cs| - 1]) + cs[|cs| - 1].Keys
  }

  ghost function Widest(cs: seq<ResourceList>, name: string): nat {
    if cs == [] then 0
    else
      var w := Widest(cs[..|cs| - 1], name);
      if w < Qty(cs[|cs| - 1], name) then Qty(cs[|cs| - 1], name) else w
  }

  ghost function Total(cs: seq<ResourceList>, name: string): nat {
    if cs == [] then 0 else Total(cs[..|cs| - 1], name) + Qty(cs[|cs| - 1], name)
  }

  /** r names what the containers name and holds, per name, the larger of the init width and the app total. */
  ghost predicate IsEffective(init: seq<ResourceList>, app: seq<ResourceList>, r: ResourceList) {
    && r.Keys == NamesOf(init) + NamesOf(app)
    && forall name :: name in r ==>
         r[name] == (if Widest(init, name) < Total(app, name) then Total(app, name) else Widest(init, name))
  }

  ghost function EffectiveOf(init: seq<ResourceList>, app: seq<ResourceList>): (r: ResourceList)
    ensures IsEffective(init, app, r)
  {
    map name | name in NamesOf(init) + NamesOf(app) ::
      if Widest(init, name) < Total(app, name) then Total(app, name) else Widest(init, name)
  }

  lemma EffectiveIsUnique(init: seq<ResourceList>, app: seq<ResourceList>, r: ResourceList)
    requires IsEffective(init, app, r)
    ensures r == EffectiveOf(init, app)
  {
  }

  lemma {:induction false} NamesMatter(cs: seq<ResourceList>, name: string)
    requires name !in NamesOf(cs)
    ensures Widest(cs, name) == 0 && Total(cs, name) == 0
    decreases |cs|
  {
    if cs != [] {
      NamesMatter(cs[..|cs| - 1], name);
    }
  }

  lemma {:induction false} WidestBounds(cs: seq<ResourceList>, i: nat, name: string)
    requires i < |cs|
    ensures Qty(cs[i], name) <= Widest(cs, name)
    decreases |cs|
  {
    if i < |cs| - 1 {
      WidestBounds(cs[..|cs| - 1], i, name);
    }
  }

  lemma {:induction false} TotalOfPrefix(cs: seq<ResourceList>, k: nat, name: string)
    requires k < |cs|
    ensures Total(cs[..k], name) + Qty(cs[k], name) <= Total(cs, name)
    decreases |cs|
  {
    var rest := cs[..|cs| - 1];
    if k < |rest| {
      TotalOfPrefix(rest, k, name);
      assert rest[..k] == cs[..k];
    }
  }

  /** Raises acc to the container's requests, name by name. */
  method RaiseTo(acc: ResourceList, request: ResourceList) returns (r: ResourceList)
    ensures r.Keys == acc.Keys + request.Keys
    ensures forall name :: name in r ==>
      r[name] == if Qty(acc, name) < Qty(request, name) then Qty(request, name) else Qty(acc, name)
  {
    r := acc;
    var todo := request.Keys;
    while todo != {}
      invariant todo <= request.Keys
      invariant r.Keys == acc.Keys + (request.Keys - todo)
      invariant forall name :: name in r && name in todo ==> name in acc && r[name] == acc[name]
      invariant forall name :: name in r && name !in todo ==>
        r[name] == if Qty(acc, name) < Qty(request, name) then Qty(request, name) else Qty(acc, name)
      decreases todo
    {
      var name :| name in todo;
      todo := todo - {name};
      if name in r && request[name] <= r[name] {
        continue;
      }
      r := r[name := request[name]];
    }
  }

  /** Adds the container's requests to acc, name by name. */
  method AddTo(acc: ResourceList, request: ResourceList) returns (r: ResourceList)
    ensures r.Keys == acc.Keys + request.Keys
    ensures forall name :: name in r ==> r[name] == Qty(acc, name) + Qty(request, name)
  {
    r := acc;
    var todo := request.Keys;
    while todo != {}
      invariant todo <= request.Keys
      invariant r.Keys == acc.Keys + (request.Keys - todo)
      invariant forall name :: name in r && name in todo ==> name in acc && r[name] == acc[name]
      invariant forall name :: name in r && name !in todo ==> r[name] == Qty(acc, name) + Qty(request, name)
      decreases todo
    {
      var name :| name in todo;
      todo := todo - {name};
      var quantity := request[name];
      if name in r {
        quantity := quantity + r[name];
      }
      r := r[name := quantity];
    }
  }

  method GetPodEffectiveRequest(init: seq<ResourceList>, app: seq<ResourceList>) returns (r: ResourceList)
    ensures IsEffective(init, app, r)
  {
    var widest: ResourceList := map[];
    for i := 0 to |init|
      invariant widest.Keys == NamesOf(init[..i])
      invariant forall name :: name in widest ==> widest[name] == Widest(init[..i], name)
    {
      assert init[..i + 1][..i] == init[..i];
      forall name | name !in widest ensures Widest(init[..i], name) == 0 { NamesMatter(init[..i], name); }
      widest := RaiseTo(widest, init[i]);
    }
    assert init[..|init|] == init;
    r := map[];
    for i := 0 to |app|
      invariant r.Keys == NamesOf(app[..i])
      invariant forall name :: name in r ==> r[name] == Total(app[..i], name)
    {
      assert app[..i + 1][..i] == app[..i];
      forall name | name !in r ensures Total(app[..i], name) == 0 { NamesMatter(app[..i], name); }
      r := AddTo(r, app[i]);
    }
    assert app[..|app|] == app;
    forall name | name !in r ensures Total(app, name) == 0 { NamesMatter(app, name); }
    forall name | name !in widest ensures Widest(init, name) == 0 { NamesMatter(init, name); }
    r := RaiseTo(r, widest);
  }
}
