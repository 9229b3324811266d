/** The swap action: scale the workloads of X and the Ys down, wait, then recreate them on exchanged nodes. */
module Swap {
  import opened Options
  import opened WamProtocol

  /** The API server as read during a swap; nobody else writes meanwhile. */
  datatype Api = Api(pods: map<PodName, PodObject>, statusReplicas: map<DeploymentKey, int>)

  /** What the handler does, in order. */
  datatype Action =
    | Deleted(key: DeploymentKey)
    | Observed(key: DeploymentKey, count: nat)
    | Created(workload: Workload, nodeName: string, id: string)

  datatype Outcome = Aborted | Crashed | TimedOut | Completed

  /** How looking the pods up ends. */
  datatype Lookup = Found | Refused | NilSelector

  // ---- specification ----

  /** Every lookup for the pod succeeds: the pod, the deployment that owns it, and that deployment's own object. */
  ghost predicate Resolves(api: Api, p: PodName) {
    p in api.pods && api.pods[p].deployment.Some? && KeyOf(api, p) in api.statusReplicas
  }

  function KeyOf(api: Api, p: PodName): DeploymentKey
    requires p in api.pods && api.pods[p].deployment.Some?
  {
    OwnerOf(p, api.pods[p].deployment.value)
  }

  /** The status count of a deployment that exists. */
  function StatusReplicas(api: Api, key: DeploymentKey): int {
    if key in api.statusReplicas then api.statusReplicas[key] else 0
  }

  /** The workload a create for the pod addresses: the pod's namespace with its deployment's name. */
  function WorkloadOf(api: Api, p: PodName): Workload
    requires p in api.pods && api.pods[p].deployment.Some?
  {
    api.pods[p].deployment.value.(namespace := p.namespace)
  }

  ghost predicate AllResolve(api: Api, pods: seq<PodName>) {
    forall i :: 0 <= i < |pods| ==> Resolves(api, pods[i])
  }

  ghost predicate AllExist(api: Api, pods: seq<PodName>) {
    forall i :: 0 <= i < |pods| ==> pods[i] in api.pods
  }

  /** How many of the pods belong to a deployment. */
  ghost function Members(api: Api, pods: seq<PodName>, key: DeploymentKey): nat
    requires AllResolve(api, pods)
  {
    if pods == [] then 0
    else
      Members(api, pods[..|pods| - 1], key) + if KeyOf(api, pods[|pods| - 1]) == key then 1 else 0
  }

  /** scales' is scales shifted, per deployment, by a multiple of the number of its swapped pods. */
  ghost predicate Shifted(scales: map<DeploymentKey, int>, scales': map<DeploymentKey, int>, api: Api,
                          down: seq<PodName>, up: seq<PodName>)
    requires AllResolve(api, down) && AllResolve(api, up)
  {
    && scales'.Keys == scales.Keys
    && forall key :: key in scales ==> scales'[key] == scales[key] - Members(api, down, key) + Members(api, up, key)
  }

  /** The node the Ys are taken to run on: the first one named, or none. */
  ghost function NodeOfYs(api: Api, pods: seq<PodName>): string
    requires AllExist(api, pods)
  {
    if |pods| <= 1 then ""
    else
      var r := NodeOfYs(api, pods[..|pods| - 1]);
      if r == "" then api.pods[pods[|pods| - 1]].nodeName else r
  }

  ghost predicate NoYHasNode(api: Api, pods: seq<PodName>)
    requires AllExist(api, pods)
  {
    forall i :: 1 <= i < |pods| ==> api.pods[pods[i]].nodeName == ""
  }

  /** Once a Y names a node, every later Y is on that node. */
  ghost predicate YsTogether(api: Api, pods: seq<PodName>)
    requires AllExist(api, pods)
  {
    forall i, j :: 1 <= i < j < |pods| && api.pods[pods[i]].nodeName != "" ==>
      api.pods[pods[j]].nodeName == api.pods[pods[i]].nodeName
  }

  /**
   Pod k is the first whose lookups are not all in order, and the one that fails is the last: the deployment is gone.
   Its error is ignored, and reading the selector of the empty object panics.
   */
  ghost predicate CrashesAt(api: Api, pods: seq<PodName>, k: nat) {
    && k < |pods| && AllResolve(api, pods[..k]) && AllExist(api, pods[..k + 1]) && YsTogether(api, pods[..k + 1])
    && api.pods[pods[k]].deployment.Some? && KeyOf(api, pods[k]) !in api.statusReplicas
  }

  ghost predicate Crashes(api: Api, pods: seq<PodName>) {
    exists k: nat :: CrashesAt(api, pods, k)
  }

  /** X is recreated where the Ys were, each Y where X was. */
  ghost function CreateAt(api: Api, pods: seq<PodName>, ids: seq<string>, i: nat): Action
    requires AllResolve(api, pods) && i < |pods| && |ids| == |pods|
  {
    Created(WorkloadOf(api, pods[i]),
            if i > 0 then api.pods[pods[0]].nodeName else NodeOfYs(api, pods),
            ids[i])
  }

  ghost function Creates(api: Api, pods: seq<PodName>, ids: seq<string>, k: nat): seq<Action>
    requires AllResolve(api, pods) && k <= |pods| && |ids| == |pods|
  {
    if k == 0 then [] else Creates(api, pods, ids, k - 1) + [CreateAt(api, pods, ids, k - 1)]
  }

  ghost function Deletes(api: Api, pods: seq<PodName>): seq<Action>
    requires AllResolve(api, pods)
  {
    if pods == [] then [] else Deletes(api, pods[..|pods| - 1]) + [Deleted(KeyOf(api, pods[|pods| - 1]))]
  }

  /** The target a deployment has to shrink to: its starting status count without the swapped pods. */
  ghost function Target(api: Api, pods: seq<PodName>, key: DeploymentKey): int
    requires AllResolve(api, pods)
  {
    StatusReplicas(api, key) - Members(api, pods, key)
  }

  ghost predicate Reached(api: Api, pods: seq<PodName>, seen: seq<Action>, key: DeploymentKey)
    requires AllResolve(api, pods)
  {
    exists i :: 0 <= i < |seen| && seen[i].Observed? && seen[i].key == key && seen[i].count <= Target(api, pods, key)
  }

  // ---- phase one: targets ----

  lemma {:induction false} MembersPositive(api: Api, pods: seq<PodName>, i: nat)
    requires AllResolve(api, pods) && i < |pods|
    ensures Members(api, pods, KeyOf(api, pods[i])) > 0
    decreases |pods|
  {
    if i < |pods| - 1 {
      MembersPositive(api, pods[..|pods| - 1], i);
    }
  }

  ghost predicate TargetsFor(api: Api, pods: seq<PodName>, targets: map<DeploymentKey, int>)
    requires AllResolve(api, pods)
  {
    && (forall key :: key in targets <==> Members(api, pods, key) > 0)
    && (forall key :: key in targets ==> targets[key] == Target(api, pods, key))
  }

  lemma TargetsNext(api: Api, pods: seq<PodName>, k: nat, targets: map<DeploymentKey, int>)
    requires k < |pods| && AllResolve(api, pods[..k]) && TargetsFor(api, pods[..k], targets) && Resolves(api, pods[k])
    ensures AllResolve(api, pods[..k + 1])
    ensures
      var key := KeyOf(api, pods[k]);
      var was := if key in targets then targets[key] else StatusReplicas(api, key);
      TargetsFor(api, pods[..k + 1], targets[key := was - 1])
  {
    assert pods[..k + 1][..k] == pods[..k];
  }

  /** The running node of the Ys, compared with each next one, tells whether they are all together. */
  ghost predicate NodeSoFar(api: Api, pods: seq<PodName>, k: nat, nodeY: string)
    requires k <= |pods| && AllExist(api, pods[..k])
  {
    nodeY == NodeOfYs(api, pods[..k]) && YsTogether(api, pods[..k])
  }

  lemma {:induction false} FirstNamed(api: Api, pods: seq<PodName>) returns (i: nat)
    requires AllExist(api, pods)
    ensures NodeOfYs(api, pods) != "" ==> 1 <= i < |pods| && api.pods[pods[i]].nodeName == NodeOfYs(api, pods)
    ensures NodeOfYs(api, pods) == "" ==> forall j :: 1 <= j < |pods| ==> api.pods[pods[j]].nodeName == ""
    decreases |pods|
  {
    i := 0;
    if |pods| > 1 {
      var n := |pods| - 1;
      i := FirstNamed(api, pods[..n]);
      if NodeOfYs(api, pods[..n]) == "" {
        i := n;
        forall j | 1 <= j < n ensures api.pods[pods[j]].nodeName == "" {
          assert pods[j] == pods[..n][j];
        }
      }
    }
  }

  /** No node is found for the Ys exactly if none of them has one. */
  lemma NoNodeOfYs(api: Api, pods: seq<PodName>)
    requires AllExist(api, pods)
    ensures NodeOfYs(api, pods) == "" <==> NoYHasNode(api, pods)
  {
    var i := FirstNamed(api, pods);
  }

  lemma NodeNext(api: Api, pods: seq<PodName>, k: nat, nodeY: string, next: string)
    requires k < |pods| && AllExist(api, pods[..k + 1]) && AllExist(api, pods[..k]) && NodeSoFar(api, pods, k, nodeY)
    requires next == if k == 0 then "" else if nodeY == "" then api.pods[pods[k]].nodeName else nodeY
    ensures nodeY == "" || api.pods[pods[k]].nodeName == nodeY ==> NodeSoFar(api, pods, k + 1, next)
  {
    assert pods[..k + 1][..k] == pods[..k];
    var named := FirstNamed(api, pods[..k]);
    if nodeY == "" || api.pods[pods[k]].nodeName == nodeY {
      forall i | 1 <= i < k && api.pods[pods[i]].nodeName != "" ensures api.pods[pods[k]].nodeName == api.pods[pods[i]].nodeName {
        assert pods[..k][i] == pods[i] && pods[..k][named] == pods[named];
      }
    }
  }

  /** A Y on another node than the Ys before it. */
  lemma Apart(api: Api, pods: seq<PodName>, k: nat, nodeY: string)
    requires k < |pods| && AllResolve(api, pods[..k]) && AllExist(api, pods[..k + 1]) && NodeSoFar(api, pods, k, nodeY)
    requires k > 0 && nodeY != "" && api.pods[pods[k]].nodeName != nodeY
    ensures !YsTogether(api, pods[..k + 1])
  {
    var i := FirstNamed(api, pods[..k]);
    assert pods[..k][i] == pods[..k + 1][i] && pods[..k + 1][k] == pods[k];
  }

  /** The loop goes on to the next pod. */
  ghost predicate PassesAt(api: Api, pods: seq<PodName>, k: nat)
    requires k < |pods|
  {
    Resolves(api, pods[k]) && AllExist(api, pods[..k + 1]) && YsTogether(api, pods[..k + 1])
  }

  /** The pod at which the loop stops decides whether it is a crash. */
  lemma StopsAt(api: Api, pods: seq<PodName>, k: nat)
    requires k < |pods| && AllResolve(api, pods[..k]) && !PassesAt(api, pods, k)
    ensures Crashes(api, pods) <==> CrashesAt(api, pods, k)
    ensures !(AllResolve(api, pods) && YsTogether(api, pods))
  {
    PassesBefore(api, pods, k, |pods|);
    assert pods[..|pods|] == pods;
    forall j: nat | j != k && CrashesAt(api, pods, j) ensures false {
      PassesBefore(api, pods, k, j);
      EarlierResolves(api, pods, j, k);
    }
  }

  /** Going past pod k means that it was in order. */
  lemma PassesBefore(api: Api, pods: seq<PodName>, k: nat, n: nat)
    requires k < |pods| && n <= |pods|
    ensures k < n && AllResolve(api, pods[..n]) && YsTogether(api, pods[..n]) ==> PassesAt(api, pods, k)
  {
    if k < n && AllResolve(api, pods[..n]) && YsTogether(api, pods[..n]) {
      assert pods[..n][..k + 1] == pods[..k + 1] && pods[..n][k] == pods[k];
    }
  }

  lemma EarlierResolves(api: Api, pods: seq<PodName>, j: nat, k: nat)
    requires j < |pods| && k <= |pods|
    ensures j < k && AllResolve(api, pods[..k]) ==> Resolves(api, pods[j])
  {
    if j < k {
      assert pods[..k][j] == pods[j];
    }
  }

  /**
   Looks every pod up: it succeeds exactly if all lookups do and the Ys are on one node, and panics exactly at a pod
   whose deployment is gone, if no pod before it has stopped the loop.
   */
  method ComputeTargets(api: Api, pods: seq<PodName>)
    returns (result: Lookup, targets: map<DeploymentKey, int>, nodeX: string, nodeY: string)
    requires pods != []
    ensures result == Found <==> AllResolve(api, pods) && YsTogether(api, pods)
    ensures result == NilSelector <==> Crashes(api, pods)
    ensures result == Found ==> TargetsFor(api, pods, targets)
    ensures result == Found ==> nodeX == api.pods[pods[0]].nodeName
    ensures result == Found ==> nodeY == NodeOfYs(api, pods)
  {
    result, targets, nodeX, nodeY := Refused, map[], "", "";
    for k := 0 to |pods|
      invariant AllResolve(api, pods[..k])
      invariant TargetsFor(api, pods[..k], targets)
      invariant k > 0 ==> nodeX == api.pods[pods[0]].nodeName
      invariant NodeSoFar(api, pods, k, nodeY)
    {
      var pod := pods[k];
      if pod !in api.pods {
        StopsAt(api, pods, k);
        return;
      }
      assert AllExist(api, pods[..k + 1]);
      var nodeName := api.pods[pod].nodeName;
      ghost var before := nodeY;
      if k == 0 {
        nodeX := nodeName;
      } else if nodeY == "" {
        nodeY := nodeName;
      } else if nodeY != nodeName {
        Apart(api, pods, k, nodeY);
        StopsAt(api, pods, k);
        return;
      }
      NodeNext(api, pods, k, before, nodeY);
      if api.pods[pod].deployment.None? {
        StopsAt(api, pods, k);
        return;
      }
      var key := KeyOf(api, pod);
      if key !in targets && key !in api.statusReplicas {
        StopsAt(api, pods, k);
        assert CrashesAt(api, pods, k);
        result := NilSelector;
        return;
      }
      SeenExists(api, pods[..k], targets, key);
      TargetsNext(api, pods, k, targets);
      if key !in targets {
        targets := targets[key := StatusReplicas(api, key)];
      }
      targets := targets[key := targets[key] - 1];
    }
    assert pods[..|pods|] == pods;
    NoCrash(api, pods);
    result := Found;
  }

  /** A deployment that has a target was found before. */
  lemma SeenExists(api: Api, pods: seq<PodName>, targets: map<DeploymentKey, int>, key: DeploymentKey)
    requires AllResolve(api, pods) && TargetsFor(api, pods, targets)
    ensures key in targets ==> key in api.statusReplicas
  {
    if key in targets {
      var p := OneMember(api, pods, key);
    }
  }

  /** The pod and its owner reference are there, the deployment is not: the lookup panics. */
  lemma DeploymentGone(pod: PodName, nodeName: string, w: Workload)
    ensures
      var api := Api(map[pod := PodObject(nodeName, Some(w))], map[]);
      Crashes(api, [pod])
  {
    var api := Api(map[pod := PodObject(nodeName, Some(w))], map[]);
    assert CrashesAt(api, [pod], 0);
  }

  lemma NoCrash(api: Api, pods: seq<PodName>)
    requires AllResolve(api, pods)
    ensures !Crashes(api, pods)
  {
  }

  // ---- phases two to four ----

  /** Exactly the swapped pods have become preferred ones to go. */
  ghost predicate Preferred(before: map<PodName, string>, after: map<PodName, string>, pods: seq<PodName>) {
    after == before + map p | p in pods :: PREFERRED
  }

  lemma PreferredNext(before: map<PodName, string>, pods: seq<PodName>, p: PodName)
    ensures (before + map q | q in pods :: PREFERRED)[p := PREFERRED] == before + map q | q in pods + [p] :: PREFERRED
  {
  }

  /** Marks every pod and scales its owner down by one. */
  method DeletePhase(cluster: Cluster, api: Api, pods: seq<PodName>) returns (log: seq<Action>)
    requires AllResolve(api, pods)
    requires forall i :: 0 <= i < |pods| ==> KeyOf(api, pods[i]) in cluster.replicas
    modifies cluster`replicas, cluster`deletionCosts
    ensures log == Deletes(api, pods)
    ensures Shifted(old(cluster.replicas), cluster.replicas, api, pods, [])
    ensures Preferred(old(cluster.deletionCosts), cluster.deletionCosts, pods)
  {
    log := [];
    for k := 0 to |pods|
      invariant log == Deletes(api, pods[..k])
      invariant Shifted(old(cluster.replicas), cluster.replicas, api, pods[..k], [])
      invariant Preferred(old(cluster.deletionCosts), cluster.deletionCosts, pods[..k])
    {
      assert pods[..k + 1] == pods[..k] + [pods[k]];
      assert pods[..k + 1][..k] == pods[..k];
      PreferredNext(old(cluster.deletionCosts), pods[..k], pods[k]);
      var result := cluster.DeleteHandler(api.pods, pods[k], false, false, false);
      log := log + [Deleted(KeyOf(api, pods[k]))];
    }
    assert pods[..|pods|] == pods;
  }

  /** Some round before the timer sees the deployment at or below a count. */
  ghost predicate SeenBelow(observe: (nat, DeploymentKey) -> nat, key: DeploymentKey, target: int, rounds: nat) {
    exists t: nat :: t < rounds && observe(t, key) <= target
  }

  /** Still waited for: exactly the deployments no round has seen at their targets. */
  ghost predicate StillWaiting(observe: (nat, DeploymentKey) -> nat, targets: map<DeploymentKey, int>,
                               waiting: map<DeploymentKey, int>, rounds: nat) {
    forall key :: key in targets ==> (key in waiting <==> !SeenBelow(observe, key, targets[key], rounds))
  }

  lemma StillWaitingNext(observe: (nat, DeploymentKey) -> nat, targets: map<DeploymentKey, int>,
                         waiting: map<DeploymentKey, int>, waiting': map<DeploymentKey, int>, rounds: nat)
    requires StillWaiting(observe, targets, waiting, rounds)
    requires forall key :: key in targets ==> (key in waiting' <==> key in waiting && observe(rounds, key) > targets[key])
    ensures StillWaiting(observe, targets, waiting', rounds + 1)
  {
    forall key | key in targets ensures key in waiting' <==> !SeenBelow(observe, key, targets[key], rounds + 1) {
      if observe(rounds, key) <= targets[key] {
        assert SeenBelow(observe, key, targets[key], rounds + 1);
      }
      if t: nat :| t < rounds && observe(t, key) <= targets[key] {
        assert SeenBelow(observe, key, targets[key], rounds + 1);
      }
    }
  }

  /**
   Polls until every target is met or the timer fires; polls is the number of rounds before it does, and
   observe the number of pods a round's list call returns, terminating ones included.
   */
  method WaitPhase(api: Api, pods: seq<PodName>, targets: map<DeploymentKey, int>,
                   observe: (nat, DeploymentKey) -> nat, polls: nat)
    returns (met: bool, log: seq<Action>)
    requires AllResolve(api, pods) && TargetsFor(api, pods, targets)
    ensures forall i :: 0 <= i < |log| ==> log[i].Observed?
    ensures met ==> forall key :: key in targets ==> Reached(api, pods, log, key)
    ensures met <==> forall key :: key in targets ==> SeenBelow(observe, key, targets[key], polls)
  {
    var waiting := targets;
    log := [];
    var round := 0;
    while |waiting| > 0
      invariant round <= polls
      invariant waiting.Keys <= targets.Keys && forall key :: key in waiting ==> waiting[key] == targets[key]
      invariant StillWaiting(observe, targets, waiting, round)
      invariant forall i :: 0 <= i < |log| ==> log[i].Observed?
      invariant forall key :: key in targets && key !in waiting ==> Reached(api, pods, log, key)
      decreases polls - round
    {
      if round == polls {
        var key :| key in waiting;
        return false, log;
      }
      ghost var before := waiting;
      waiting, log := PollRound(api, pods, targets, waiting, observe, round, log);
      StillWaitingNext(observe, targets, before, waiting, round);
      round := round + 1;
    }
    assert waiting == map[];
    SeenInTime(observe, targets, round, polls);
    met := true;
  }

  lemma SeenInTime(observe: (nat, DeploymentKey) -> nat, targets: map<DeploymentKey, int>, rounds: nat, polls: nat)
    requires rounds <= polls && StillWaiting(observe, targets, map[], rounds)
    ensures forall key :: key in targets ==> SeenBelow(observe, key, targets[key], polls)
  {
    forall key | key in targets ensures SeenBelow(observe, key, targets[key], polls) {
      var t: nat :| t < rounds && observe(t, key) <= targets[key];
    }
  }

  method PollRound(api: Api, pods: seq<PodName>, ghost targets: map<DeploymentKey, int>, waiting: map<DeploymentKey, int>,
                   observe: (nat, DeploymentKey) -> nat, round: nat, log: seq<Action>)
    returns (waiting': map<DeploymentKey, int>, log': seq<Action>)
    requires AllResolve(api, pods) && TargetsFor(api, pods, targets)
    requires waiting.Keys <= targets.Keys && forall key :: key in waiting ==> waiting[key] == targets[key]
    requires forall i :: 0 <= i < |log| ==> log[i].Observed?
    requires forall key :: key in targets && key !in waiting ==> Reached(api, pods, log, key)
    ensures waiting'.Keys <= targets.Keys && forall key :: key in waiting' ==> waiting'[key] == targets[key]
    ensures forall key :: key in targets ==> (key in waiting' <==> key in waiting && observe(round, key) > targets[key])
    ensures forall i :: 0 <= i < |log'| ==> log'[i].Observed?
    ensures forall key :: key in targets && key !in waiting' ==> Reached(api, pods, log', key)
  {
    waiting', log' := waiting, log;
    var todo := waiting.Keys;
    while todo != {}
      invariant todo <= waiting.Keys && waiting'.Keys <= targets.Keys
      invariant forall key :: key in waiting' ==> waiting'[key] == targets[key]
      invariant todo <= waiting'.Keys
      invariant forall key :: key in targets && key !in todo ==>
        (key in waiting' <==> key in waiting && observe(round, key) > targets[key])
      invariant forall i :: 0 <= i < |log'| ==> log'[i].Observed?
      invariant forall key :: key in targets && key !in waiting' ==> Reached(api, pods, log', key)
      decreases todo
    {
      var key :| key in todo;
      todo := todo - {key};
      var current := observe(round, key);
      ghost var before := log';
      log' := log' + [Observed(key, current)];
      forall k | k in targets && Reached(api, pods, before, k) ensures Reached(api, pods, log', k) {
        var i :| 0 <= i < |before| && before[i].Observed? && before[i].key == k && before[i].count <= Target(api, pods, k);
        assert log'[i] == before[i];
      }
      if current <= waiting'[key] {
        assert log'[|before|] == Observed(key, current);
        assert Reached(api, pods, log', key);
        waiting' := waiting' - {key};
      }
    }
  }

  ghost predicate FreshIds(cluster: Cluster, ids: seq<string>)
    reads cluster
  {
    && (forall i :: 0 <= i < |ids| ==> ids[i] !in cluster.pushed)
    && (forall i, j :: 0 <= i < j < |ids| ==> ids[i] != ids[j])
  }

  /** Every create action pushed its suggestion, once, for its workload and node. */
  ghost predicate PushedBy(before: map<string, Push>, after: map<string, Push>, log: seq<Action>) {
    && (forall i :: 0 <= i < |log| ==> log[i].Created? && log[i].id in after
                                       && after[log[i].id] == Push(log[i].workload, log[i].nodeName))
    && (forall id :: id in after <==> id in before || exists i :: 0 <= i < |log| && log[i].Created? && log[i].id == id)
    && (forall id :: id in before ==> after[id] == before[id])
  }

  lemma PushedByNext(start: map<string, Push>, before: map<string, Push>, log: seq<Action>, w: Workload, n: string, id: string)
    requires PushedBy(start, before, log) && id !in before
    ensures PushedBy(start, before[id := Push(w, n)], log + [Created(w, n, id)])
  {
    var after, log' := before[id := Push(w, n)], log + [Created(w, n, id)];
    forall k ensures k in after <==> k in start || exists i :: 0 <= i < |log'| && log'[i].Created? && log'[i].id == k {
      if k == id {
        assert log'[|log|].id == id;
      } else if i :| 0 <= i < |log| && log[i].Created? && log[i].id == k {
        assert log'[i].id == k;
      }
    }
  }

  /** The suggestions the creates put on top of a queue, the latest first. */
  ghost function NewIn(log: seq<Action>, q: string): seq<Suggestion> {
    if log == [] then []
    else
      var a := log[|log| - 1];
      if a.Created? && QueueName(a.workload) == q then [Suggestion(a.id, a.nodeName)] + NewIn(log[..|log| - 1], q)
      else NewIn(log[..|log| - 1], q)
  }

  ghost predicate Stacked(before: State, after: State, log: seq<Action>) {
    forall q :: Queue(after, q) == NewIn(log, q) + Queue(before, q)
  }

  lemma StackedNext(start: State, before: State, log: seq<Action>, w: Workload, n: string, id: string)
    requires Stacked(start, before, log) && Enabled(before, PushStep(w, n, id))
    ensures Stacked(start, Apply(before, PushStep(w, n, id)), log + [Created(w, n, id)])
  {
    forall q ensures Queue(Apply(before, PushStep(w, n, id)), q) == NewIn(log + [Created(w, n, id)], q) + Queue(start, q) {
      NewInNext(log, w, n, id, q);
      OnTop(Suggestion(id, n), NewIn(log, q), Queue(start, q));
    }
  }

  lemma NewInNext(log: seq<Action>, w: Workload, n: string, id: string, q: string)
    ensures NewIn(log + [Created(w, n, id)], q)
            == if QueueName(w) == q then [Suggestion(id, n)] + NewIn(log, q) else NewIn(log, q)
  {
    assert (log + [Created(w, n, id)])[..|log|] == log;
  }

  lemma OnTop<T>(x: T, a: seq<T>, b: seq<T>)
    ensures [x] + (a + b) == [x] + a + b
  {
  }

  lemma {:induction false} CreatesInOrder(api: Api, pods: seq<PodName>, ids: seq<string>, k: nat, i: nat)
    requires AllResolve(api, pods) && i < k <= |pods| && |ids| == |pods|
    ensures |Creates(api, pods, ids, k)| == k && Creates(api, pods, ids, k)[i] == CreateAt(api, pods, ids, i)
    decreases k
  {
    if i < k - 1 {
      CreatesInOrder(api, pods, ids, k - 1, i);
    } else if k > 1 {
      CreatesInOrder(api, pods, ids, k - 1, 0);
    }
  }

  /**
   Where the pods are to go: each workload's suggestion names, for a Y, the node X was on, and for X the node of the
   Ys, so far as they have one.
   */
  ghost predicate SidesExchanged(api: Api, pods: seq<PodName>, ids: seq<string>, pushed: map<string, Push>)
    requires AllResolve(api, pods) && |ids| == |pods|
  {
    && (forall i :: 0 <= i < |pods| ==>
          && ids[i] in pushed
          && pushed[ids[i]].workload == api.pods[pods[i]].deployment.value.(namespace := pods[i].namespace))
    && (forall i :: 1 <= i < |pods| ==> pushed[ids[i]].nodeName == api.pods[pods[0]].nodeName)
    && (forall i :: 1 <= i < |pods| && api.pods[pods[i]].nodeName != "" ==>
          pushed[ids[0]].nodeName == api.pods[pods[i]].nodeName)
    && (pods != [] && (forall i :: 1 <= i < |pods| ==> api.pods[pods[i]].nodeName == "") ==> pushed[ids[0]].nodeName == "")
  }

  lemma PushFor(api: Api, pods: seq<PodName>, ids: seq<string>, before: map<string, Push>, pushed: map<string, Push>, i: nat)
    requires AllResolve(api, pods) && |ids| == |pods| && i < |pods|
    requires PushedBy(before, pushed, Creates(api, pods, ids, |pods|))
    ensures ids[i] in pushed
    ensures pushed[ids[i]] == Push(WorkloadOf(api, pods[i]), if i > 0 then api.pods[pods[0]].nodeName else NodeOfYs(api, pods))
  {
    var log := Creates(api, pods, ids, |pods|);
    CreatesInOrder(api, pods, ids, |pods|, i);
    assert log[i].id == ids[i];
  }

  lemma NodeOfEveryY(api: Api, pods: seq<PodName>, i: nat)
    requires AllResolve(api, pods) && YsTogether(api, pods) && 1 <= i < |pods| && api.pods[pods[i]].nodeName != ""
    ensures NodeOfYs(api, pods) == api.pods[pods[i]].nodeName
  {
    var named := FirstNamed(api, pods);
  }

  lemma PushesExchange(api: Api, pods: seq<PodName>, ids: seq<string>, before: map<string, Push>, pushed: map<string, Push>)
    requires AllResolve(api, pods) && |ids| == |pods| && YsTogether(api, pods)
    requires PushedBy(before, pushed, Creates(api, pods, ids, |pods|))
    ensures SidesExchanged(api, pods, ids, pushed)
  {
    forall i | 0 <= i < |pods|
      ensures ids[i] in pushed
      ensures pushed[ids[i]] == Push(WorkloadOf(api, pods[i]), if i > 0 then api.pods[pods[0]].nodeName else NodeOfYs(api, pods))
    {
      PushFor(api, pods, ids, before, pushed, i);
    }
    forall i | 1 <= i < |pods| && api.pods[pods[i]].nodeName != "" ensures NodeOfYs(api, pods) == api.pods[pods[i]].nodeName {
      NodeOfEveryY(api, pods, i);
    }
    NoNodeOfYs(api, pods);
  }

  lemma ShiftedUpNext(api: Api, pods: seq<PodName>, k: nat, start: map<DeploymentKey, int>, before: map<DeploymentKey, int>)
    requires AllResolve(api, pods) && k < |pods| && KeyOf(api, pods[k]) in before
    requires Shifted(start, before, api, [], pods[..k])
    ensures Shifted(start, before[KeyOf(api, pods[k]) := before[KeyOf(api, pods[k])] + 1], api, [], pods[..k + 1])
  {
    assert pods[..k + 1][..k] == pods[..k];
  }

  /** The create phase after k pods. */
  ghost predicate CreatedSoFar(api: Api, pods: seq<PodName>, ids: seq<string>, k: nat,
                               start: map<DeploymentKey, int>, scales: map<DeploymentKey, int>,
                               pushed0: map<string, Push>, pushed: map<string, Push>, log: seq<Action>)
    requires AllResolve(api, pods) && k <= |pods| && |ids| == |pods|
  {
    && log == Creates(api, pods, ids, k)
    && Shifted(start, scales, api, [], pods[..k])
    && PushedBy(pushed0, pushed, log)
    && (forall i :: k <= i < |ids| ==> ids[i] !in pushed)
  }

  lemma CreatedNext(api: Api, pods: seq<PodName>, ids: seq<string>, k: nat,
                    start: map<DeploymentKey, int>, scales: map<DeploymentKey, int>,
                    pushed0: map<string, Push>, pushed: map<string, Push>, log: seq<Action>)
    requires AllResolve(api, pods) && k < |pods| && |ids| == |pods|
    requires KeyOf(api, pods[k]) in scales
    requires forall i, j :: 0 <= i < j < |ids| ==> ids[i] != ids[j]
    requires CreatedSoFar(api, pods, ids, k, start, scales, pushed0, pushed, log)
    ensures
      var c := CreateAt(api, pods, ids, k);
      var key := KeyOf(api, pods[k]);
      CreatedSoFar(api, pods, ids, k + 1, start, scales[key := scales[key] + 1],
                   pushed0, pushed[ids[k] := Push(c.workload, c.nodeName)], log + [c])
  {
    var c := CreateAt(api, pods, ids, k);
    ShiftedUpNext(api, pods, k, start, scales);
    PushedByNext(pushed0, pushed, log, c.workload, c.nodeName, ids[k]);
  }

  method CreatePhase(cluster: Cluster, api: Api, pods: seq<PodName>, nodeX: string, nodeY: string, ids: seq<string>)
    returns (log: seq<Action>)
    requires AllResolve(api, pods) && pods != [] && |ids| == |pods| && FreshIds(cluster, ids)
    requires forall i :: 0 <= i < |pods| ==> KeyOf(api, pods[i]) in cluster.replicas && ColonFree(WorkloadOf(api, pods[i]))
    requires nodeX == api.pods[pods[0]].nodeName
    requires nodeY == NodeOfYs(api, pods)
    modifies cluster
    ensures CreatedSoFar(api, pods, ids, |pods|, old(cluster.replicas), cluster.replicas, old(cluster.pushed), cluster.pushed, log)
    ensures cluster.withdrawn == old(cluster.withdrawn) && cluster.deletionCosts == old(cluster.deletionCosts)
    ensures Stacked(old(cluster.View()), cluster.View(), log)
  {
    ghost var start, pushed0, view0 := cluster.replicas, cluster.pushed, cluster.View();
    log := [];
    for k := 0 to |pods|
      invariant CreatedSoFar(api, pods, ids, k, start, cluster.replicas, pushed0, cluster.pushed, log)
      invariant Stacked(view0, cluster.View(), log)
      invariant cluster.withdrawn == old(cluster.withdrawn) && cluster.deletionCosts == old(cluster.deletionCosts)
    {
      assert KeyOf(api, pods[k]) in start;
      log := CreateNext(cluster, api, pods, k, if k == 0 then nodeY else nodeX, ids, log, start, pushed0, view0);
    }
  }

  /** One round of the create phase. */
  method CreateNext(cluster: Cluster, api: Api, pods: seq<PodName>, k: nat, target: string, ids: seq<string>, log: seq<Action>,
                    ghost start: map<DeploymentKey, int>, ghost pushed0: map<string, Push>, ghost view0: State)
    returns (log': seq<Action>)
    requires AllResolve(api, pods) && k < |pods| && |ids| == |pods| && forall i, j :: 0 <= i < j < |ids| ==> ids[i] != ids[j]
    requires KeyOf(api, pods[k]) in cluster.replicas && ColonFree(WorkloadOf(api, pods[k]))
    requires target == CreateAt(api, pods, ids, k).nodeName
    requires CreatedSoFar(api, pods, ids, k, start, cluster.replicas, pushed0, cluster.pushed, log)
    requires Stacked(view0, cluster.View(), log)
    modifies cluster
    ensures CreatedSoFar(api, pods, ids, k + 1, start, cluster.replicas, pushed0, cluster.pushed, log')
    ensures Stacked(view0, cluster.View(), log')
    ensures cluster.withdrawn == old(cluster.withdrawn) && cluster.deletionCosts == old(cluster.deletionCosts)
  {
    CreatedNext(api, pods, ids, k, start, cluster.replicas, pushed0, cluster.pushed, log);
    var workload := WorkloadOf(api, pods[k]);
    StackedNext(view0, cluster.View(), log, workload, target, ids[k]);
    CreateOne(cluster, workload, target, ids[k]);
    log' := log + [Created(workload, target, ids[k])];
  }

  method CreateOne(cluster: Cluster, workload: Workload, nodeName: string, id: string)
    requires id !in cluster.pushed && ColonFree(workload)
    requires DeploymentKey(workload.namespace, workload.name) in cluster.replicas
    modifies cluster
    ensures cluster.View() == Apply(old(cluster.View()), PushStep(workload, nodeName, id))
    ensures cluster.pushed == old(cluster.pushed)[id := Push(workload, nodeName)]
    ensures cluster.withdrawn == old(cluster.withdrawn) && cluster.deletionCosts == old(cluster.deletionCosts)
    ensures var key := DeploymentKey(workload.namespace, workload.name);
            cluster.replicas == old(cluster.replicas)[key := old(cluster.replicas)[key] + 1]
  {
    var ok := cluster.CreateHandler(workload, nodeName, id, false, false);
    assert cluster.View().pushed == old(cluster.View()).pushed[id := Push(workload, nodeName)];
    assert cluster.View().withdrawn == old(cluster.View()).withdrawn;
  }

  // ---- the handler ----

  /** Nothing has been done. */
  twostate predicate NothingDone(cluster: Cluster, log: seq<Action>)
    reads cluster
  {
    && log == [] && cluster.replicas == old(cluster.replicas) && cluster.View() == old(cluster.View())
    && cluster.deletionCosts == old(cluster.deletionCosts)
  }

  /** Everything is scaled down, and stays so. */
  twostate predicate LeftDown(cluster: Cluster, api: Api, pods: seq<PodName>, log: seq<Action>, seen: seq<Action>)
    requires AllResolve(api, pods)
    reads cluster
  {
    && log == Deletes(api, pods) + seen
    && Shifted(old(cluster.replicas), cluster.replicas, api, pods, [])
    && Preferred(old(cluster.deletionCosts), cluster.deletionCosts, pods)
  }

  /**
   Every scale is back where it was, each pod has been recreated once, on the other side's node, and no create came
   before every deployment was seen without its swapped pods.
   */
  twostate predicate Exchanged(cluster: Cluster, api: Api, pods: seq<PodName>, ids: seq<string>, log: seq<Action>, seen: seq<Action>)
    requires AllResolve(api, pods) && |ids| == |pods|
    reads cluster
  {
    && log == Deletes(api, pods) + seen + Creates(api, pods, ids, |pods|)
    && cluster.replicas == old(cluster.replicas)
    && Preferred(old(cluster.deletionCosts), cluster.deletionCosts, pods)
    && PushedBy(old(cluster.pushed), cluster.pushed, Creates(api, pods, ids, |pods|))
    && SidesExchanged(api, pods, ids, cluster.pushed)
    && Stacked(old(cluster.View()), cluster.View(), Creates(api, pods, ids, |pods|))
    && cluster.withdrawn == old(cluster.withdrawn)
    && (forall i :: 0 <= i < |seen| ==> seen[i].Observed?)
    && (forall p :: p in pods ==> Reached(api, pods, seen, KeyOf(api, p)))
  }

  /** A swap whose lookups have succeeded. */
  method SwapFound(cluster: Cluster, api: Api, pods: seq<PodName>, targets: map<DeploymentKey, int>, nodeX: string, nodeY: string,
                   ids: seq<string>, observe: (nat, DeploymentKey) -> nat, polls: nat)
    returns (met: bool, log: seq<Action>, ghost seen: seq<Action>)
    requires pods != [] && |ids| == |pods| && FreshIds(cluster, ids)
    requires AllResolve(api, pods) && TargetsFor(api, pods, targets)
    requires forall i :: 0 <= i < |pods| ==> KeyOf(api, pods[i]) in cluster.replicas && ColonFree(WorkloadOf(api, pods[i]))
    requires nodeX == api.pods[pods[0]].nodeName && nodeY == NodeOfYs(api, pods) && YsTogether(api, pods)
    modifies cluster
    ensures met <==> AllSeenBelow(api, pods, observe, polls)
    ensures !met ==> LeftDown(cluster, api, pods, log, seen)
    ensures met ==> Exchanged(cluster, api, pods, ids, log, seen)
  {
    met, log, seen := DownAndWait(cluster, api, pods, targets, observe, polls);
    if !met {
      return;
    }
    ghost var low := cluster.replicas;
    var created := CreatePhase(cluster, api, pods, nodeX, nodeY, ids);
    log := log + created;
    assert pods[..|pods|] == pods;
    DownThenUp(api, pods, old(cluster.replicas), low, cluster.replicas);
    PushesExchange(api, pods, ids, old(cluster.pushed), cluster.pushed);
  }

  /** A swap of x with the ys, every write succeeding. A timeout leaves everything scaled down. */
  method SwapHandler(cluster: Cluster, api: Api, x: PodName, ys: seq<PodName>, ids: seq<string>,
                     observe: (nat, DeploymentKey) -> nat, polls: nat)
    returns (outcome: Outcome, log: seq<Action>, ghost seen: seq<Action>)
    requires |ids| == |ys| + 1 && FreshIds(cluster, ids)
    requires api.statusReplicas.Keys <= cluster.replicas.Keys
    requires forall p :: p in api.pods && api.pods[p].deployment.Some? ==> ColonFree(WorkloadOf(api, p))
    modifies cluster
    ensures outcome == Crashed <==> Crashes(api, [x] + ys)
    ensures outcome in {TimedOut, Completed} <==> AllResolve(api, [x] + ys) && YsTogether(api, [x] + ys)
    ensures outcome in {TimedOut, Completed} ==> (outcome == Completed <==> AllSeenBelow(api, [x] + ys, observe, polls))
    ensures outcome in {Aborted, Crashed} ==> NothingDone(cluster, log)
    ensures outcome == TimedOut ==> LeftDown(cluster, api, [x] + ys, log, seen)
    ensures outcome == Completed ==> Exchanged(cluster, api, [x] + ys, ids, log, seen)
    ensures outcome == Completed ==> (CreateAt(api, [x] + ys, ids, 0).nodeName == "" <==> NoYHasNode(api, [x] + ys))
  {
    var pods := [x] + ys;
    var result, targets, nodeX, nodeY := ComputeTargets(api, pods);
    if result != Found {
      return if result == Refused then Aborted else Crashed, [], [];
    }
    var met;
    met, log, seen := SwapFound(cluster, api, pods, targets, nodeX, nodeY, ids, observe, polls);
    NoNodeOfYs(api, pods);
    outcome := if met then Completed else TimedOut;
  }

  /** Deletes, then waits for every deployment to shrink. */
  method DownAndWait(cluster: Cluster, api: Api, pods: seq<PodName>, targets: map<DeploymentKey, int>,
                     observe: (nat, DeploymentKey) -> nat, polls: nat)
    returns (met: bool, log: seq<Action>, ghost seen: seq<Action>)
    requires AllResolve(api, pods) && TargetsFor(api, pods, targets)
    requires forall i :: 0 <= i < |pods| ==> KeyOf(api, pods[i]) in cluster.replicas
    modifies cluster`replicas, cluster`deletionCosts
    ensures Preferred(old(cluster.deletionCosts), cluster.deletionCosts, pods)
    ensures log == Deletes(api, pods) + seen && Shifted(old(cluster.replicas), cluster.replicas, api, pods, [])
    ensures forall i :: 0 <= i < |seen| ==> seen[i].Observed?
    ensures met <==> AllSeenBelow(api, pods, observe, polls)
    ensures met ==> forall p :: p in pods ==> Reached(api, pods, seen, KeyOf(api, p))
  {
    log := DeletePhase(cluster, api, pods);
    var observed;
    met, observed := WaitPhase(api, pods, targets, observe, polls);
    seen := observed;
    log := log + observed;
    TargetsArePods(api, pods, targets, observe, polls);
    forall p | p in pods ensures KeyOf(api, p) in targets {
      var i :| 0 <= i < |pods| && pods[i] == p;
      MembersPositive(api, pods, i);
    }
  }

  /** Before the timer fires every deployment of a swapped pod is seen at or below its target. */
  ghost predicate AllSeenBelow(api: Api, pods: seq<PodName>, observe: (nat, DeploymentKey) -> nat, polls: nat)
    requires AllResolve(api, pods)
  {
    forall p :: p in pods ==> SeenBelow(observe, KeyOf(api, p), Target(api, pods, KeyOf(api, p)), polls)
  }

  /** Waiting for the targets is waiting for the deployments of the swapped pods. */
  lemma TargetsArePods(api: Api, pods: seq<PodName>, targets: map<DeploymentKey, int>, observe: (nat, DeploymentKey) -> nat, polls: nat)
    requires AllResolve(api, pods) && TargetsFor(api, pods, targets)
    ensures (forall key :: key in targets ==> SeenBelow(observe, key, targets[key], polls))
            <==> AllSeenBelow(api, pods, observe, polls)
  {
    forall p | p in pods ensures KeyOf(api, p) in targets {
      var i :| 0 <= i < |pods| && pods[i] == p;
      MembersPositive(api, pods, i);
    }
    forall key | key in targets ensures exists p :: p in pods && KeyOf(api, p) == key {
      var p := OneMember(api, pods, key);
    }
  }

  lemma {:induction false} OneMember(api: Api, pods: seq<PodName>, key: DeploymentKey) returns (p: PodName)
    requires AllResolve(api, pods) && Members(api, pods, key) > 0
    ensures p in pods && KeyOf(api, p) == key
    decreases |pods|
  {
    var n := |pods| - 1;
    p := pods[n];
    if KeyOf(api, p) != key {
      p := OneMember(api, pods[..n], key);
    }
  }

  /** Scaling down and up again by the same pods conserves every scale. */
  lemma DownThenUp(api: Api, pods: seq<PodName>, start: map<DeploymentKey, int>, low: map<DeploymentKey, int>, end: map<DeploymentKey, int>)
    requires AllResolve(api, pods)
    requires Shifted(start, low, api, pods, []) && Shifted(low, end, api, [], pods)
    ensures end == start
  {
  }
}
