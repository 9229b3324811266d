/** System-call-aware scoring: per-host sets of system calls, kept up to date as pods come and go. */
module SySched {
  import opened Sums
  import FrameworkResource

  datatype Pod = Pod(namespace: string, name: string, nodeName: string)

  type Syscalls = set<string>

  /** The system calls a pod's seccomp profiles allow; profiles do not change while a pod is tracked. */
  type Profiles = Pod -> Syscalls

  // ---- specification ----

  ghost function UnionOf(prof: Profiles, pods: set<Pod>): Syscalls {
    set p, x | p in pods && x in prof(p) :: x
  }

  /** Pods tracked per node; a node stays known once a pod was seen on it. */
  type Hosts = map<string, set<Pod>>

  /** Where a pod is in its life: pending without a host, pending with one, running, or over. */
  datatype Phase = Waiting | Assigned | Running | Finished

  /** What the informer reports; an update comes with the pod's state before and after it. */
  datatype Event =
    | Added(pod: Pod, phase: Phase)
    | Updated(pod: Pod, from: Phase, to: Phase)
    | Deleted(pod: Pod)

  ghost function On(h: Hosts, node: string): set<Pod> {
    if node in h then h[node] else {}
  }

  ghost predicate HasName(pods: set<Pod>, name: string) {
    exists p :: p in pods && p.name == name
  }

  /** addPod and removePod: pods of a node are told apart by name alone. */
  ghost function AddTo(h: Hosts, pod: Pod): Hosts {
    if HasName(On(h, pod.nodeName), pod.name) then h else h[pod.nodeName := On(h, pod.nodeName) + {pod}]
  }

  ghost function RemoveFrom(h: Hosts, pod: Pod): Hosts {
    if pod.nodeName in h then h[pod.nodeName := set p | p in h[pod.nodeName] && p.name != pod.name] else h
  }

  /** The plugin adds a pod that is running when first seen, and one that had a host before an update. */
  predicate Adds(e: Event) {
    (e.Added? && e.phase == Running) || (e.Updated? && e.from == Assigned)
  }

  /** What the plugin does. */
  ghost function Track(h: Hosts, e: Event): Hosts {
    if Adds(e) then AddTo(h, e.pod) else if e.Deleted? then RemoveFrom(h, e.pod) else h
  }

  ghost function Tracked(events: seq<Event>): Hosts {
    if events == [] then map[] else Track(Tracked(events[..|events| - 1]), events[|events| - 1])
  }

  predicate Joins(e: Event) {
    (e.Added? && e.phase == Running) || (e.Updated? && e.to == Running && e.from != Running)
  }

  predicate Leaves(e: Event) {
    e.Deleted? || (e.Updated? && e.from == Running && e.to != Running)
  }

  /** What really runs: pods told apart by namespace and name, from when they run until they end or are deleted. */
  ghost function Happen(h: Hosts, e: Event): Hosts {
    var node := e.pod.nodeName;
    if Joins(e) then h[node := On(h, node) + {e.pod}]
    else if Leaves(e) && node in h then h[node := h[node] - {e.pod}]
    else h
  }

  ghost function Live(events: seq<Event>): Hosts {
    if events == [] then map[] else Happen(Live(events[..|events| - 1]), events[|events| - 1])
  }

  ghost predicate NamesUnique(h: Hosts) {
    forall node, p, q :: node in h && p in h[node] && q in h[node] && p.name == q.name ==> p == q
  }

  /** In every run names are unique per node. */
  lemma {:induction false} TrackedNamesUnique(events: seq<Event>)
    ensures NamesUnique(Tracked(events))
    decreases |events|
  {
    if events != [] {
      TrackedNamesUnique(events[..|events| - 1]);
    }
  }

  /** The event's pod shares node and name with a different pod, which only another namespace allows. */
  ghost predicate Clashes(h: Hosts, e: Event) {
    exists p :: p in On(h, e.pod.nodeName) && p.name == e.pod.name && p != e.pod
  }

  /** Where the plugin goes astray. */
  ghost predicate Strays(h: Hosts, e: Event) {
    if Adds(e) && Joins(e) then Clashes(h, e)
    else if Adds(e) then !HasName(On(h, e.pod.nodeName), e.pod.name) // it has a host, but is not running yet or any more
    else if Joins(e) then e.pod !in On(h, e.pod.nodeName)            // it runs, and was never seen pending with a host
    else if e.Deleted? then Clashes(h, e)
    else Leaves(e) && e.pod in On(h, e.pod.nodeName)                 // it has ended, and is not deleted yet
  }

  lemma AddExact(h: Hosts, pod: Pod)
    requires NamesUnique(h)
    ensures AddTo(h, pod) == h[pod.nodeName := On(h, pod.nodeName) + {pod}]
            <==> !exists p :: p in On(h, pod.nodeName) && p.name == pod.name && p != pod
  {
    var node := pod.nodeName;
    if p :| p in On(h, node) && p.name == pod.name && p != pod {
      assert HasName(On(h, node), pod.name) && pod !in On(h, node);
      assert pod in h[node := On(h, node) + {pod}][node];
    } else if HasName(On(h, node), pod.name) {
      var p :| p in On(h, node) && p.name == pod.name;
      assert p == pod && node in h;
      assert On(h, node) + {pod} == h[node];
    }
  }

  lemma RemoveExact(h: Hosts, pod: Pod)
    requires NamesUnique(h)
    ensures RemoveFrom(h, pod) == (if pod.nodeName in h then h[pod.nodeName := h[pod.nodeName] - {pod}] else h)
            <==> !exists p :: p in On(h, pod.nodeName) && p.name == pod.name && p != pod
  {
    var node := pod.nodeName;
    if p :| p in On(h, node) && p.name == pod.name && p != pod {
      assert p in h[node] - {pod} && p !in RemoveFrom(h, pod)[node];
    } else if node in h {
      assert (set p | p in h[node] && p.name != pod.name) == h[node] - {pod};
    }
  }

  /** Whatever happens, the plugin does what it should exactly unless it goes astray. */
  lemma StepExact(h: Hosts, e: Event)
    requires NamesUnique(h)
    ensures Track(h, e) == Happen(h, e) <==> !Strays(h, e)
  {
    var node := e.pod.nodeName;
    AddExact(h, e.pod);
    RemoveExact(h, e.pod);
    if node in h {
      assert e.pod in h[node] ==> h[node] + {e.pod} == h[node];
      assert e.pod !in h[node] ==> h[node] - {e.pod} == h[node];
    }
    assert node in h ==> h[node := h[node]] == h;
    if Adds(e) && !HasName(On(h, node), e.pod.name) {
      assert e.pod in Track(h, e)[node] && e.pod !in On(h, node);
    }
    assert Joins(e) ==> e.pod in Happen(h, e)[node];
    assert Leaves(e) ==> e.pod !in On(Happen(h, e), node);
  }

  /** At every point of the run the plugin tracks what really runs. */
  ghost predicate AlwaysExact(events: seq<Event>) {
    Tracked(events) == Live(events) && (events != [] ==> AlwaysExact(events[..|events| - 1]))
  }

  ghost predicate NeverStrays(events: seq<Event>) {
    events != [] ==>
      !Strays(Live(events[..|events| - 1]), events[|events| - 1]) && NeverStrays(events[..|events| - 1])
  }

  /** The plugin follows what really runs, all the way, exactly when no event leads it astray. */
  lemma {:induction false} TrackingExact(events: seq<Event>)
    ensures AlwaysExact(events) <==> NeverStrays(events)
    decreases |events|
  {
    if events != [] {
      var before := events[..|events| - 1];
      TrackingExact(before);
      TrackedNamesUnique(before);
      StepExact(Tracked(before), events[|events| - 1]);
    }
  }

  lemma TwoEvents(a: Event, b: Event)
    ensures Tracked([a, b]) == Track(Track(map[], a), b) && Live([a, b]) == Happen(Happen(map[], a), b)
  {
    var one, two := [a], [a, b];
    assert one[..0] == [] && two[..1] == one;
    assert Tracked(one) == Track(Tracked([]), a) && Live(one) == Happen(Live([]), a);
    assert Tracked(two) == Track(Tracked(one), b) && Live(two) == Happen(Live(one), b);
  }

  /** Two namespaces, one pod name: the second pod's system calls go unnoticed. */
  lemma SameNameGoesUnnoticed(a: Pod, b: Pod)
    requires a != b && a.name == b.name && a.nodeName == b.nodeName
    ensures
      var events := [Added(a, Running), Added(b, Running)];
      b in On(Live(events), b.nodeName) && b !in On(Tracked(events), b.nodeName)
  {
    TwoEvents(Added(a, Running), Added(b, Running));
    assert a in On(Track(map[], Added(a, Running)), a.nodeName);
    assert HasName(On(Track(map[], Added(a, Running)), a.nodeName), b.name);
  }

  /** A pod that has ended keeps counting until it is deleted. */
  lemma FinishedStaysTracked(pod: Pod)
    ensures
      var events := [Added(pod, Running), Updated(pod, Running, Finished)];
      pod !in On(Live(events), pod.nodeName) && pod in On(Tracked(events), pod.nodeName)
  {
    TwoEvents(Added(pod, Running), Updated(pod, Running, Finished));
  }

  /** A pod whose first update already finds it running is never counted. */
  lemma QuickStartGoesUnnoticed(pod: Pod)
    ensures
      var events := [Added(pod, Waiting), Updated(pod, Waiting, Running)];
      pod in On(Live(events), pod.nodeName) && pod !in On(Tracked(events), pod.nodeName)
  {
    TwoEvents(Added(pod, Waiting), Updated(pod, Waiting, Running));
  }

  lemma ExactNext(events: seq<Event>, e: Event)
    requires AlwaysExact(events) && !Strays(Live(events), e)
    ensures AlwaysExact(events + [e]) && Live(events + [e]) == Happen(Live(events), e)
  {
    assert (events + [e])[..|events|] == events;
    TrackedNamesUnique(events);
    StepExact(Tracked(events), e);
  }

  /**
   A pod that is pending, gets a host, then runs and at last is deleted, on a node without a pod of its name, is
   followed all the way: tracked from when it runs and no longer once deleted.
   */
  lemma OrdinaryLifeFollowed(events: seq<Event>, pod: Pod)
    requires AlwaysExact(events) && !HasName(On(Live(events), pod.nodeName), pod.name)
    ensures
      var running := events + [Added(pod, Waiting)] + [Updated(pod, Waiting, Assigned)] + [Updated(pod, Assigned, Running)];
      && AlwaysExact(running + [Deleted(pod)])
      && pod in On(Tracked(running), pod.nodeName)
      && pod !in On(Tracked(running + [Deleted(pod)]), pod.nodeName)
  {
    var pending := events + [Added(pod, Waiting)];
    var bound := pending + [Updated(pod, Waiting, Assigned)];
    var running := bound + [Updated(pod, Assigned, Running)];
    assert pod !in On(Live(events), pod.nodeName);
    ExactNext(events, Added(pod, Waiting));
    ExactNext(pending, Updated(pod, Waiting, Assigned));
    ExactNext(bound, Updated(pod, Assigned, Running));
    ExactNext(running, Deleted(pod));
  }

  // ---- extraneous system calls ----

  ghost function Extraneous(prof: Profiles, all: Syscalls): Pod -> int {
    (p: Pod) => |all - prof(p)|
  }

  /** System calls open on the host that a pod itself does not use, added up over all its pods. */
  ghost function TotalExtraneous(prof: Profiles, pods: set<Pod>): int {
    SumSet(pods, Extraneous(prof, UnionOf(prof, pods)))
  }

  lemma UnionOfOneMore(prof: Profiles, pods: set<Pod>, pod: Pod)
    ensures UnionOf(prof, pods + {pod}) == UnionOf(prof, pods) + prof(pod)
  {
  }

  /** What the pod would see on the host, plus what every pod there would see with its calls added. */
  ghost function WhatIfTotal(prof: Profiles, pods: set<Pod>, pod: Pod): int {
    |UnionOf(prof, pods) - prof(pod)| + SumSet(pods, Extraneous(prof, UnionOf(prof, pods) + prof(pod)))
  }

  /** The what-if sum of Score is the total after the pod is added. */
  lemma WhatIfAgrees(prof: Profiles, pods: set<Pod>, pod: Pod)
    requires pod !in pods
    ensures TotalExtraneous(prof, pods + {pod}) == WhatIfTotal(prof, pods, pod)
  {
    var all := UnionOf(prof, pods) + prof(pod);
    UnionOfOneMore(prof, pods, pod);
    SumSetInsert(pods, pod, Extraneous(prof, all));
    assert all - prof(pod) == UnionOf(prof, pods) - prof(pod);
  }

  lemma AddedTotal(prof: Profiles, h: Hosts, pod: Pod)
    requires !HasName(On(h, pod.nodeName), pod.name)
    ensures
      var pods := On(h, pod.nodeName);
      && pod.nodeName in AddTo(h, pod)
      && TotalExtraneous(prof, AddTo(h, pod)[pod.nodeName]) == WhatIfTotal(prof, pods, pod)
    ensures On(h, pod.nodeName) == {} ==> TotalExtraneous(prof, AddTo(h, pod)[pod.nodeName]) == 0
  {
    var pods := On(h, pod.nodeName);
    assert pod !in pods;
    WhatIfAgrees(prof, pods, pod);
    if pods == {} {
      assert UnionOf(prof, pods) - prof(pod) == {};
    }
  }

  ghost predicate DistinctPods(list: seq<Pod>) {
    forall i, j :: 0 <= i < j < |list| ==> list[i] != list[j]
  }

  ghost function PodsIn(list: seq<Pod>): set<Pod> {
    set p | p in list
  }

  lemma {:induction false} SumOverList(list: seq<Pod>, f: Pod -> int)
    requires DistinctPods(list)
    ensures SumSeq(list, f) == SumSet(PodsIn(list), f)
    decreases |list|
  {
    if list == [] {
      assert PodsIn(list) == {};
    } else {
      var n := |list| - 1;
      SumOverList(list[..n], f);
      assert PodsIn(list) == PodsIn(list[..n]) + {list[n]};
      SumSetInsert(PodsIn(list[..n]), list[n], f);
    }
  }

  ghost function Value(): int -> int {
    (t: int) => t
  }

  /** Folding one more value into a running average of n values. */
  lemma RunningAverage(avg: real, sum: real, n: nat, x: real)
    requires avg * (n as real) == sum
    ensures (avg + (x - avg) / ((n + 1) as real)) * ((n + 1) as real) == sum + x
  {
    var k := (n + 1) as real;
    var d := (x - avg) / k;
    assert d * k == x - avg;
    assert (avg + d) * k == avg * k + d * k;
    assert avg * k == avg * (n as real) + avg;
  }

  // ---- the plugin ----

  class SySched {
    const profiles: Profiles
    var hostToPods: map<string, seq<Pod>>
    var hostSyscalls: map<string, Syscalls>
    var exSAvg: real
    var exSAvgCount: nat
    ghost var totals: seq<int>

    /** The host sets are the unions over the listed pods, and names do not repeat on a node. */
    ghost predicate HostsValid()
      reads this`hostToPods, this`hostSyscalls
    {
      && hostSyscalls.Keys == hostToPods.Keys
      && (forall n :: n in hostToPods ==> HostValid(hostToPods[n], hostSyscalls[n]))
    }

    ghost predicate HostValid(list: seq<Pod>, syscalls: Syscalls) {
      && syscalls == UnionOf(profiles, PodsIn(list))
      && (forall i, j :: 0 <= i < j < |list| ==> list[i].name != list[j].name)
    }

    /** The running average is the mean of all totals so far. */
    ghost predicate AverageValid()
      reads this`exSAvg, this`exSAvgCount, this`totals
    {
      exSAvgCount == |totals| + 1 && exSAvg * (|totals| as real) == SumSeq(totals, Value()) as real
    }

    ghost predicate Valid()
      reads this
    {
      HostsValid() && AverageValid()
    }

    ghost function View(): Hosts
      reads this`hostToPods
    {
      map n | n in hostToPods :: PodsIn(hostToPods[n])
    }

    constructor (profiles: Profiles)
      ensures Valid() && View() == map[] && this.profiles == profiles
    {
      this.profiles := profiles;
      hostToPods, hostSyscalls, exSAvg, exSAvgCount := map[], map[], 0.0, 1;
      totals := [];
    }

    method UpdateHostSyscalls(pod: Pod)
      requires pod.nodeName in hostSyscalls
      modifies this`hostSyscalls
      ensures hostSyscalls == old(hostSyscalls)[pod.nodeName := old(hostSyscalls)[pod.nodeName] + profiles(pod)]
    {
      hostSyscalls := hostSyscalls[pod.nodeName := hostSyscalls[pod.nodeName] + profiles(pod)];
    }

    /** Is a pod of that name listed on the node? */
    method Lists(node: string, name: string) returns (found: bool)
      requires node in hostToPods
      ensures found == HasName(PodsIn(hostToPods[node]), name)
    {
      var list := hostToPods[node];
      for i := 0 to |list|
        invariant forall k :: 0 <= k < i ==> list[k].name != name
      {
        if list[i].name == name {
          assert list[i] in PodsIn(list);
          return true;
        }
      }
      return false;
    }

    method AddPod(pod: Pod)
      requires HostsValid()
      modifies this`hostToPods, this`hostSyscalls
      ensures HostsValid() && View() == AddTo(old(View()), pod)
    {
      var node := pod.nodeName;
      ghost var h := View();
      if node !in hostToPods {
        hostToPods := hostToPods[node := [pod]];
        hostSyscalls := hostSyscalls[node := {}];
        UpdateHostSyscalls(pod);
        assert PodsIn([pod]) == {} + {pod} == {pod};
        UnionOfOneMore(profiles, {}, pod);
        assert HostValid([pod], hostSyscalls[node]);
        assert View() == h[node := {pod}];
        return;
      }
      var found := Lists(node, pod.name);
      if found {
        return;
      }
      Append(pod);
    }

    method Append(pod: Pod)
      requires HostsValid() && pod.nodeName in hostToPods
      requires !HasName(PodsIn(hostToPods[pod.nodeName]), pod.name)
      modifies this`hostToPods, this`hostSyscalls
      ensures HostsValid() && View() == old(View())[pod.nodeName := old(View())[pod.nodeName] + {pod}]
    {
      var node := pod.nodeName;
      var list := hostToPods[node];
      assert HostValid(list, hostSyscalls[node]);
      forall i | 0 <= i < |list| ensures list[i].name != pod.name {
        assert list[i] in PodsIn(list);
      }
      hostToPods := hostToPods[node := list + [pod]];
      UpdateHostSyscalls(pod);
      assert PodsIn(list + [pod]) == PodsIn(list) + {pod};
      UnionOfOneMore(profiles, PodsIn(list), pod);
      assert HostValid(list + [pod], hostSyscalls[node]);
      assert View() == old(View())[node := old(View())[node] + {pod}];
    }

    method RecomputeHostSyscalls(pods: seq<Pod>) returns (syscalls: Syscalls)
      ensures syscalls == UnionOf(profiles, PodsIn(pods))
    {
      syscalls := {};
      for i := 0 to |pods|
        invariant syscalls == UnionOf(profiles, PodsIn(pods[..i]))
      {
        assert PodsIn(pods[..i + 1]) == PodsIn(pods[..i]) + {pods[i]};
        UnionOfOneMore(profiles, PodsIn(pods[..i]), pods[i]);
        syscalls := syscalls + profiles(pods[i]);
      }
      assert pods[..|pods|] == pods;
    }

    method RemovePod(pod: Pod)
      requires HostsValid()
      modifies this`hostToPods, this`hostSyscalls
      ensures HostsValid() && View() == RemoveFrom(old(View()), pod)
    {
      var node := pod.nodeName;
      ghost var h := View();
      if node !in hostToPods {
        return;
      }
      var list := hostToPods[node];
      for i := 0 to |list|
        invariant forall k :: 0 <= k < i ==> list[k].name != pod.name
        invariant hostToPods == old(hostToPods) && hostSyscalls == old(hostSyscalls)
      {
        if list[i].name == pod.name {
          var rest := RemoveAt(list, i);
          hostToPods := hostToPods[node := rest];
          var syscalls := RecomputeHostSyscalls(rest);
          hostSyscalls := hostSyscalls[node := syscalls];
          assert PodsIn(rest) == set p | p in PodsIn(list) && p.name != pod.name;
          assert View() == RemoveFrom(h, pod);
          return;
        }
      }
      assert (set p: Pod | p in h[node] && p.name != pod.name) == h[node];
      assert View() == RemoveFrom(h, pod);
    }

    /** Swaps the last pod into the hole. */
    static method RemoveAt(list: seq<Pod>, i: nat) returns (rest: seq<Pod>)
      requires i < |list|
      requires forall j, k :: 0 <= j < k < |list| ==> list[j].name != list[k].name
      ensures forall j, k :: 0 <= j < k < |rest| ==> rest[j].name != rest[k].name
      ensures forall p :: p in rest <==> p in list && p.name != list[i].name
    {
      var moved := list[i := list[|list| - 1]];
      rest := moved[..|list| - 1];
      forall p | p in list && p.name != list[i].name ensures p in rest {
        var k :| 0 <= k < |list| && list[k] == p;
        if k == |list| - 1 {
          assert rest[i] == p;
        } else {
          assert rest[k] == p;
        }
      }
      forall p | p in rest ensures p in list && p.name != list[i].name {
        var k :| 0 <= k < |rest| && rest[k] == p;
      }
    }

    method PodAdded(pod: Pod, phase: Phase)
      requires HostsValid()
      modifies this`hostToPods, this`hostSyscalls
      ensures HostsValid() && View() == Track(old(View()), Added(pod, phase))
    {
      if phase == Running {
        AddPod(pod);
      }
    }

    /** The handler looks at the pod as it was before the update. */
    method PodUpdated(pod: Pod, from: Phase, ghost to: Phase)
      requires HostsValid()
      modifies this`hostToPods, this`hostSyscalls
      ensures HostsValid() && View() == Track(old(View()), Updated(pod, from, to))
    {
      if from == Assigned {
        AddPod(pod);
      }
    }

    method PodDeleted(pod: Pod)
      requires HostsValid()
      modifies this`hostToPods, this`hostSyscalls
      ensures HostsValid() && View() == Track(old(View()), Deleted(pod))
    {
      RemovePod(pod);
    }

    method RecordTotal(total: int)
      requires AverageValid()
      modifies this`exSAvg, this`exSAvgCount, this`totals
      ensures AverageValid() && totals == old(totals) + [total]
    {
      RunningAverage(exSAvg, SumSeq(totals, Value()) as real, |totals|, total as real);
      SumSeqAppend(totals, total, Value());
      exSAvg := exSAvg + (total as real - exSAvg) / exSAvgCount as real;
      exSAvgCount := exSAvgCount + 1;
      totals := totals + [total];
    }

    /**
     The score of placing a pod on a node: unless a pod of its name is there already, the extraneous system
     calls of all pods of the node once this one is added to it.
     */
    method Score(pod: Pod, nodeName: string, nodeFound: bool) returns (score: int)
      requires Valid()
      requires profiles(pod.(nodeName := nodeName)) == profiles(pod)
      modifies this`exSAvg, this`exSAvgCount, this`totals
      ensures Valid()
      ensures !nodeFound ==> score == 0
      ensures nodeFound && profiles(pod) == {} ==> score == FrameworkResource.MAX_INT64
      ensures nodeFound && profiles(pod) != {} && nodeName !in View() ==> score == 0
      ensures nodeFound && profiles(pod) != {} && nodeName in View() ==>
        score == WhatIfTotal(profiles, View()[nodeName], pod)
      ensures nodeFound && profiles(pod) != {} && !HasName(On(View(), nodeName), pod.name) ==>
        score == TotalExtraneous(profiles, AddTo(View(), pod.(nodeName := nodeName))[nodeName])
      ensures totals == if nodeFound && profiles(pod) != {} && nodeName in View() then old(totals) + [score] else old(totals)
    {
      if !nodeFound {
        return 0;
      }
      var own := profiles(pod);
      if |own| == 0 {
        return FrameworkResource.MAX_INT64;
      }
      if nodeName !in hostSyscalls {
        AddedTotal(profiles, View(), pod.(nodeName := nodeName));
        return 0;
      }
      score := WhatIf(pod, nodeName, hostSyscalls[nodeName]);
      RecordTotal(score);
    }

    /** The extraneous calls the pod would see, plus those every listed pod would see with it there. */
    method WhatIf(pod: Pod, nodeName: string, host: Syscalls) returns (total: int)
      requires HostsValid() && nodeName in hostToPods && host == hostSyscalls[nodeName]
      requires profiles(pod.(nodeName := nodeName)) == profiles(pod)
      ensures total == WhatIfTotal(profiles, View()[nodeName], pod)
      ensures !HasName(On(View(), nodeName), pod.name) ==>
        total == TotalExtraneous(profiles, AddTo(View(), pod.(nodeName := nodeName))[nodeName])
    {
      var list := hostToPods[nodeName];
      assert HostValid(list, host);
      var others := SumExtraneous(list, host + profiles(pod));
      total := |host - profiles(pod)| + others;
      SumOverList(list, Extraneous(profiles, host + profiles(pod)));
      if !HasName(On(View(), nodeName), pod.name) {
        AddedTotal(profiles, View(), pod.(nodeName := nodeName));
      }
    }

    method SumExtraneous(list: seq<Pod>, all: Syscalls) returns (total: int)
      ensures total == SumSeq(list, Extraneous(profiles, all))
    {
      total := 0;
      for i := 0 to |list|
        invariant total == SumSeq(list[..i], Extraneous(profiles, all))
      {
        assert list[..i + 1] == list[..i] + [list[i]];
        SumSeqAppend(list[..i], list[i], Extraneous(profiles, all));
        total := total + |all - profiles(list[i])|;
      }
      assert list[..|list|] == list;
    }
  }
}
