/**
 The scheduling suggestion protocol: action handlers push suggestions to per-workload Redis lists, scheduling
 cycles pop them, filter on the suggested node and annotate the pod they bound.
 */
module WamProtocol {
  import opened Options

  datatype Workload = Workload(namespace: string, apiVersion: string, kind: string, name: string)

  datatype Suggestion = Suggestion(id: string, nodeName: string)

  /** A pod and the deployment its ReplicaSet belongs to, if there is one. */
  datatype Pod = Pod(namespace: string, name: string, uid: string, deployment: Option<Workload>)

  function QueueName(w: Workload): string {
    w.namespace + ":" + w.apiVersion + ":" + w.kind + ":" + w.name
  }

  /** Namespaces, API versions and kinds cannot contain a colon. */
  predicate ColonFree(w: Workload) {
    ':' !in w.namespace && ':' !in w.apiVersion && ':' !in w.kind
  }

  lemma FirstColon(a: string, b: string)
    requires ':' !in a
    ensures (a + ":" + b)[|a|] == ':'
    ensures forall i :: 0 <= i < |a| ==> (a + ":" + b)[i] != ':'
    ensures (a + ":" + b)[..|a|] == a && (a + ":" + b)[|a| + 1..] == b
  {
    forall i | 0 <= i < |a| ensures (a + ":" + b)[i] != ':' {
      assert (a + ":" + b)[i] == a[i];
    }
  }

  lemma CutAtColon(a: string, b: string, a': string, b': string)
    requires ':' !in a && ':' !in a'
    requires a + ":" + b == a' + ":" + b'
    ensures a == a' && b == b'
  {
    FirstColon(a, b);
    FirstColon(a', b');
    assert |a| == |a'|;
  }

  /** Distinct workloads have distinct queues. */
  lemma QueueNameInjective(v: Workload, w: Workload)
    requires ColonFree(v) && ColonFree(w)
    requires QueueName(v) == QueueName(w)
    ensures v == w
  {
    var v3, w3 := v.kind + ":" + v.name, w.kind + ":" + w.name;
    var v2, w2 := v.apiVersion + ":" + v3, w.apiVersion + ":" + w3;
    assert QueueName(v) == v.namespace + ":" + v2 && QueueName(w) == w.namespace + ":" + w2;
    CutAtColon(v.namespace, v2, w.namespace, w2);
    CutAtColon(v.apiVersion, v3, w.apiVersion, w3);
    CutAtColon(v.kind, v.name, w.kind, w.name);
  }

  /** What lies between namespace and name in the queue of an accepted workload: only Deployments of apps/v1 are. */
  const DEPLOYMENT := ":apps/v1:Deployment:"

  function Deployment(namespace: string, name: string): Workload {
    Workload(namespace, "apps/v1", "Deployment", name)
  }

  lemma DeploymentQueue(namespace: string, name: string)
    ensures QueueName(Deployment(namespace, name)) == namespace + DEPLOYMENT + name
  {
    assert ":" + "apps/v1" + ":" + "Deployment" + ":" == DEPLOYMENT;
    assert QueueName(Deployment(namespace, name)) == namespace + (":" + "apps/v1" + ":" + "Deployment" + ":") + name;
  }

  /**
   Two deployments share a queue exactly if the longer namespace and the separator begin with the shorter one and the
   separator, and what follows there is missing in front of the other name.
   */
  lemma QueuesShared(namespace: string, name: string, longer: string, other: string)
    requires |namespace| <= |longer|
    ensures QueueName(Deployment(namespace, name)) == QueueName(Deployment(longer, other))
            <==> namespace + DEPLOYMENT <= longer + DEPLOYMENT
                 && name == (longer + DEPLOYMENT)[|namespace| + |DEPLOYMENT|..] + other
  {
    DeploymentQueue(namespace, name);
    DeploymentQueue(longer, other);
    Cut(namespace + DEPLOYMENT, name, longer + DEPLOYMENT, other);
  }

  lemma Cut(a: string, b: string, a': string, b': string)
    requires |a| <= |a'|
    ensures a + b == a' + b' <==> a <= a' && b == a'[|a|..] + b'
  {
    if a + b == a' + b' {
      assert a == (a + b)[..|a|] == a'[..|a|];
      assert b == (a + b)[|a|..] == (a' + b')[|a|..] == a'[|a|..] + b';
    }
    if a <= a' && b == a'[|a|..] + b' {
      assert a' + b' == a + a'[|a|..] + b' == a + (a'[|a|..] + b');
    }
  }

  lemma ShiftedColon(a: string, b: string, c: string)
    ensures QueueName(Deployment(a, b + DEPLOYMENT + c)) == QueueName(Deployment(a + DEPLOYMENT + b, c))
    ensures a != a + DEPLOYMENT + b
  {
    DeploymentQueue(a, b + DEPLOYMENT + c);
    DeploymentQueue(a + DEPLOYMENT + b, c);
    assert a + DEPLOYMENT + (b + DEPLOYMENT + c) == a + DEPLOYMENT + b + DEPLOYMENT + c;
    assert |a| < |a + DEPLOYMENT + b|;
  }

  /** Such names pass the request validation, so two accepted deployments can share a queue. */
  lemma ColonsCollide()
    ensures
      var v, w := Deployment("a", "b" + DEPLOYMENT + "c"), Deployment("a" + DEPLOYMENT + "b", "c");
      v != w && QueueName(v) == QueueName(w)
  {
    ShiftedColon("a", "b", "c");
  }

  // ---- state ----

  /** One scheduling attempt of a pod: what PreFilter put in the cycle state, and where the pod was bound. */
  datatype Cycle = Cycle(pod: Pod, suggestion: Option<Suggestion>, boundTo: Option<string>)

  datatype Push = Push(workload: Workload, nodeName: string)

  /**
   The Redis lists, the scheduling cycles, the cluster's bindings and annotations; and, as history, which
   suggestions were pushed, withdrawn, or taken by which cycle.
   */
  datatype State = State(
    queues: map<string, seq<Suggestion>>,
    cycles: map<nat, Cycle>,
    bindings: map<Pod, string>,
    annotations: map<Pod, string>,
    pushed: map<string, Push>,
    withdrawn: set<string>,
    taken: map<string, nat>)

  const INITIAL: State := State(map[], map[], map[], map[], map[], {}, map[])

  function Queue(s: State, q: string): seq<Suggestion> {
    if q in s.queues then s.queues[q] else []
  }

  /** LREM with count 1. */
  function RemoveFirst(list: seq<Suggestion>, x: Suggestion): seq<Suggestion> {
    if list == [] then []
    else if list[0] == x then list[1..]
    else [list[0]] + RemoveFirst(list[1..], x)
  }

  /** Filter lets a node pass when there is no suggestion or it names the node. */
  predicate Filter(suggestion: Option<Suggestion>, nodeName: string) {
    suggestion.None? || suggestion.value.nodeName == nodeName
  }

  /**
   Atomic steps of handlers and scheduling cycles, interleaved in any order. A PostBind may fail to patch the pod, and
   then leaves it without the annotation.
   */
  datatype Step =
    | PushStep(workload: Workload, nodeName: string, id: string)
    | Withdraw(id: string)
    | PreFilter(cycle: nat, pod: Pod)
    | Bind(cycle: nat, nodeName: string)
    | PostBind(cycle: nat, patched: bool)

  predicate Enabled(s: State, step: Step) {
    match step
    case PushStep(w, n, id) => id !in s.pushed && ColonFree(w)
    case Withdraw(id) => id in s.pushed
    case PreFilter(c, pod) => c !in s.cycles && (pod.deployment.Some? ==> ColonFree(pod.deployment.value))
    case Bind(c, n) =>
      && c in s.cycles && s.cycles[c].boundTo.None? && s.cycles[c].pod !in s.bindings
      && Filter(s.cycles[c].suggestion, n)
    case PostBind(c, _) => c in s.cycles && s.cycles[c].boundTo.Some?
  }

  function Apply(s: State, step: Step): State
    requires Enabled(s, step)
  {
    match step
    case PushStep(w, n, id) =>
      s.(queues := s.queues[QueueName(w) := [Suggestion(id, n)] + Queue(s, QueueName(w))],
         pushed := s.pushed[id := Push(w, n)])
    case Withdraw(id) =>
      var q, sug := QueueName(s.pushed[id].workload), Suggestion(id, s.pushed[id].nodeName);
      if sug in Queue(s, q) then
        s.(queues := s.queues[q := RemoveFirst(Queue(s, q), sug)], withdrawn := s.withdrawn + {id})
      else s
    case PreFilter(c, pod) =>
      if pod.deployment.None? || Queue(s, QueueName(pod.deployment.value)) == [] then
        s.(cycles := s.cycles[c := Cycle(pod, None, None)])
      else
        var q := QueueName(pod.deployment.value);
        var sug := s.queues[q][0];
        s.(queues := s.queues[q := s.queues[q][1..]],
           cycles := s.cycles[c := Cycle(pod, Some(sug), None)],
           taken := s.taken[sug.id := c])
    case Bind(c, n) =>
      s.(cycles := s.cycles[c := s.cycles[c].(boundTo := Some(n))], bindings := s.bindings[s.cycles[c].pod := n])
    case PostBind(c, patched) =>
      if s.cycles[c].suggestion.None? || !patched then s
      else s.(annotations := s.annotations[s.cycles[c].pod := s.cycles[c].suggestion.value.id])
  }

  /** The state after a run, if each of its steps was enabled when taken. */
  function Run(steps: seq<Step>): Option<State> {
    if steps == [] then Some(INITIAL)
    else
      var before, step := Run(steps[..|steps| - 1]), steps[|steps| - 1];
      if before.Some? && Enabled(before.value, step) then Some(Apply(before.value, step)) else None
  }

  // ---- invariant ----

  ghost predicate NoRepeats(list: seq<Suggestion>) {
    forall i, j :: 0 <= i < j < |list| ==> list[i].id != list[j].id
  }

  /** Queued suggestions are as pushed, in their workload's queue, neither withdrawn nor taken, and not repeated. */
  ghost predicate QueuesOk(s: State) {
    && (forall q :: q in s.queues ==> NoRepeats(s.queues[q]))
    && (forall q, sug :: q in s.queues && sug in s.queues[q] ==>
          && sug.id in s.pushed && s.pushed[sug.id].nodeName == sug.nodeName
          && QueueName(s.pushed[sug.id].workload) == q && sug.id !in s.withdrawn && sug.id !in s.taken)
  }

  ghost predicate Queued(s: State, id: string) {
    id in s.pushed && Suggestion(id, s.pushed[id].nodeName) in Queue(s, QueueName(s.pushed[id].workload))
  }

  /** No suggestion gets lost, and none is both withdrawn and taken. */
  ghost predicate HistoryOk(s: State) {
    && (forall id :: id in s.pushed ==> ColonFree(s.pushed[id].workload))
    && (forall id :: id in s.pushed ==> id in s.withdrawn || id in s.taken || Queued(s, id))
    && (forall id :: id in s.withdrawn ==> id in s.pushed && id !in s.taken)
    && (forall id :: id in s.taken ==> id in s.pushed)
  }

  /** A cycle holds the suggestion it took, which was pushed for its pod's workload. */
  ghost predicate CyclesOk(s: State) {
    && (forall id :: id in s.taken ==>
          && id in s.pushed && s.taken[id] in s.cycles
          && s.cycles[s.taken[id]].suggestion == Some(Suggestion(id, s.pushed[id].nodeName))
          && s.cycles[s.taken[id]].pod.deployment == Some(s.pushed[id].workload))
    && (forall c :: c in s.cycles && s.cycles[c].suggestion.Some? ==>
          s.cycles[c].suggestion.value.id in s.taken && s.taken[s.cycles[c].suggestion.value.id] == c)
    && (forall c :: c in s.cycles && s.cycles[c].boundTo.Some? ==>
          && s.cycles[c].pod in s.bindings && s.bindings[s.cycles[c].pod] == s.cycles[c].boundTo.value
          && Filter(s.cycles[c].suggestion, s.cycles[c].boundTo.value))
  }

  /** An annotation names a suggestion taken by a cycle that bound this pod. */
  ghost predicate AnnotationsOk(s: State) {
    forall pod :: pod in s.annotations ==>
      && s.annotations[pod] in s.taken
      && s.taken[s.annotations[pod]] in s.cycles
      && s.cycles[s.taken[s.annotations[pod]]].pod == pod
      && s.cycles[s.taken[s.annotations[pod]]].boundTo.Some?
  }

  ghost predicate Inv(s: State) {
    QueuesOk(s) && HistoryOk(s) && CyclesOk(s) && AnnotationsOk(s)
  }

  lemma {:induction false} RemoveFirstKeeps(list: seq<Suggestion>, x: Suggestion, y: Suggestion)
    requires NoRepeats(list)
    ensures NoRepeats(RemoveFirst(list, x))
    ensures y in RemoveFirst(list, x) <==> y in list && y != x
    decreases |list|
  {
    if list != [] {
      assert list == [list[0]] + list[1..];
      RemoveFirstKeeps(list[1..], x, y);
      if list[0] == x {
        assert forall z :: z in list[1..] ==> z.id != x.id;
      } else {
        forall z | z in RemoveFirst(list[1..], x) ensures z.id != list[0].id {
          RemoveFirstKeeps(list[1..], x, z);
        }
      }
    }
  }

  /** Steps that touch neither the queues nor the history keep both in order. */
  lemma SameQueues(s: State, s': State)
    requires QueuesOk(s) && HistoryOk(s)
    requires s'.queues == s.queues && s'.pushed == s.pushed && s'.withdrawn == s.withdrawn && s'.taken == s.taken
    ensures QueuesOk(s') && HistoryOk(s')
  {
    forall id | id in s'.pushed && id !in s'.withdrawn && id !in s'.taken ensures Queued(s', id) {
      assert Queued(s, id);
    }
  }

  /** Steps that touch neither the cycles nor what they took and bound keep those in order. */
  lemma SameCycles(s: State, s': State)
    requires CyclesOk(s) && AnnotationsOk(s)
    requires s'.cycles == s.cycles && s'.taken == s.taken && s'.bindings == s.bindings && s'.annotations == s.annotations
    requires forall id :: id in s.pushed ==> id in s'.pushed && s'.pushed[id] == s.pushed[id]
    ensures CyclesOk(s') && AnnotationsOk(s')
  {
  }

  lemma PushKeeps(s: State, w: Workload, n: string, id: string)
    requires Inv(s) && Enabled(s, PushStep(w, n, id))
    ensures Inv(Apply(s, PushStep(w, n, id)))
  {
    var s' := Apply(s, PushStep(w, n, id));
    PushQueues(s, QueueName(w), w, n, id);
    PushHistory(s, QueueName(w), w, n, id);
    SameCycles(s, s');
  }

  lemma PushQueues(s: State, q: string, w: Workload, n: string, id: string)
    requires QueuesOk(s) && HistoryOk(s) && id !in s.pushed && q == QueueName(w)
    ensures QueuesOk(s.(queues := s.queues[q := [Suggestion(id, n)] + Queue(s, q)], pushed := s.pushed[id := Push(w, n)]))
  {
    var x := Suggestion(id, n);
    var list := [x] + Queue(s, q);
    forall sug | sug in list ensures sug == x || sug in Queue(s, q) {}
    assert NoRepeats(list);
  }

  lemma PushHistory(s: State, q: string, w: Workload, n: string, id: string)
    requires HistoryOk(s) && id !in s.pushed && ColonFree(w) && q == QueueName(w)
    ensures HistoryOk(s.(queues := s.queues[q := [Suggestion(id, n)] + Queue(s, q)], pushed := s.pushed[id := Push(w, n)]))
  {
    var x := Suggestion(id, n);
    var s' := s.(queues := s.queues[q := [x] + Queue(s, q)], pushed := s.pushed[id := Push(w, n)]);
    assert s'.queues[q][0] == x;
    forall k | k in s'.pushed && k !in s'.withdrawn && k !in s'.taken ensures Queued(s', k) {
      if k != id {
        assert Queued(s, k);
      }
    }
  }

  lemma WithdrawKeeps(s: State, id: string)
    requires Inv(s) && Enabled(s, Withdraw(id))
    ensures Inv(Apply(s, Withdraw(id)))
  {
    var q, x := QueueName(s.pushed[id].workload), Suggestion(id, s.pushed[id].nodeName);
    if x in Queue(s, q) {
      RemovalQueues(s, id, q, x);
      RemovalHistory(s, id, q, x);
      SameCycles(s, Apply(s, Withdraw(id)));
    }
  }

  lemma RemovalQueues(s: State, id: string, q: string, x: Suggestion)
    requires QueuesOk(s) && x.id == id && q in s.queues && x in s.queues[q]
    ensures QueuesOk(s.(queues := s.queues[q := RemoveFirst(s.queues[q], x)], withdrawn := s.withdrawn + {id}))
  {
    var list := RemoveFirst(s.queues[q], x);
    RemoveFirstKeeps(s.queues[q], x, x);
    forall y | y in list ensures y in s.queues[q] && y.id != id {
      RemoveFirstKeeps(s.queues[q], x, y);
      OnlyOneWithId(s.queues[q], x, y);
    }
    forall q', y | q' in s.queues && q' != q && y in s.queues[q'] ensures y.id != id {
      assert QueueName(s.pushed[y.id].workload) == q' && QueueName(s.pushed[x.id].workload) == q;
    }
  }

  lemma RemovalHistory(s: State, id: string, q: string, x: Suggestion)
    requires HistoryOk(s) && QueuesOk(s) && x.id == id && q in s.queues && x in s.queues[q]
    ensures HistoryOk(s.(queues := s.queues[q := RemoveFirst(s.queues[q], x)], withdrawn := s.withdrawn + {id}))
  {
    var s' := s.(queues := s.queues[q := RemoveFirst(s.queues[q], x)], withdrawn := s.withdrawn + {id});
    assert id in s.pushed && id !in s.taken;
    forall k | k in s'.pushed && k !in s'.withdrawn && k !in s'.taken ensures Queued(s', k) {
      assert Queued(s, k);
      RemoveFirstKeeps(s.queues[q], x, Suggestion(k, s.pushed[k].nodeName));
    }
  }

  lemma OnlyOneWithId(list: seq<Suggestion>, x: Suggestion, y: Suggestion)
    requires NoRepeats(list) && x in list && y in list
    ensures x.id == y.id ==> y == x
  {
  }

  lemma PreFilterKeeps(s: State, c: nat, pod: Pod)
    requires Inv(s) && Enabled(s, PreFilter(c, pod))
    ensures Inv(Apply(s, PreFilter(c, pod)))
  {
    if pod.deployment.Some? && Queue(s, QueueName(pod.deployment.value)) != [] {
      var q := QueueName(pod.deployment.value);
      var x := s.queues[q][0];
      assert x in s.queues[q];
      QueueNameInjective(pod.deployment.value, s.pushed[x.id].workload);
      PopQueues(s, c, q, x, s.cycles[c := Cycle(pod, Some(x), None)]);
      PopHistory(s, c, q, x, s.cycles[c := Cycle(pod, Some(x), None)]);
      TakeKeepsCycles(s, s.queues[q := s.queues[q][1..]], c, pod, x);
    } else {
      SameQueues(s, Apply(s, PreFilter(c, pod)));
      FreshCycleKeeps(s, c, pod);
    }
  }

  lemma FreshCycleKeeps(s: State, c: nat, pod: Pod)
    requires CyclesOk(s) && AnnotationsOk(s) && c !in s.cycles
    ensures CyclesOk(s.(cycles := s.cycles[c := Cycle(pod, None, None)]))
    ensures AnnotationsOk(s.(cycles := s.cycles[c := Cycle(pod, None, None)]))
  {
  }

  lemma PopQueues(s: State, c: nat, q: string, x: Suggestion, cycles: map<nat, Cycle>)
    requires QueuesOk(s) && q in s.queues && s.queues[q] != [] && x == s.queues[q][0]
    ensures QueuesOk(s.(queues := s.queues[q := s.queues[q][1..]], cycles := cycles, taken := s.taken[x.id := c]))
  {
    var list := s.queues[q];
    assert x in list;
    forall y | y in list[1..] ensures y in list && y.id != x.id {
      var i :| 0 <= i < |list[1..]| && list[1..][i] == y;
      assert list[i + 1] == y;
    }
    forall q', y | q' in s.queues && q' != q && y in s.queues[q'] ensures y.id != x.id {
      assert QueueName(s.pushed[y.id].workload) == q' && QueueName(s.pushed[x.id].workload) == q;
    }
  }

  lemma PopHistory(s: State, c: nat, q: string, x: Suggestion, cycles: map<nat, Cycle>)
    requires QueuesOk(s) && HistoryOk(s) && q in s.queues && s.queues[q] != [] && x == s.queues[q][0]
    ensures HistoryOk(s.(queues := s.queues[q := s.queues[q][1..]], cycles := cycles, taken := s.taken[x.id := c]))
  {
    var s' := s.(queues := s.queues[q := s.queues[q][1..]], cycles := cycles, taken := s.taken[x.id := c]);
    assert x in s.queues[q];
    assert s.queues[q] == [x] + s.queues[q][1..];
    forall k | k in s'.pushed && k !in s'.withdrawn && k !in s'.taken ensures Queued(s', k) {
      assert Queued(s, k);
    }
  }

  lemma TakeKeepsCycles(s: State, queues: map<string, seq<Suggestion>>, c: nat, pod: Pod, x: Suggestion)
    requires CyclesOk(s) && AnnotationsOk(s) && c !in s.cycles
    requires x.id in s.pushed && x.id !in s.taken && x.nodeName == s.pushed[x.id].nodeName
    requires pod.deployment == Some(s.pushed[x.id].workload)
    ensures
      var s' := s.(queues := queues, cycles := s.cycles[c := Cycle(pod, Some(x), None)], taken := s.taken[x.id := c]);
      CyclesOk(s') && AnnotationsOk(s')
  {
  }

  lemma BindKeeps(s: State, c: nat, n: string)
    requires Inv(s) && Enabled(s, Bind(c, n))
    ensures Inv(Apply(s, Bind(c, n)))
  {
    SameQueues(s, Apply(s, Bind(c, n)));
    BindCycles(s, c, n);
  }

  lemma BindCycles(s: State, c: nat, n: string)
    requires CyclesOk(s) && AnnotationsOk(s) && Enabled(s, Bind(c, n))
    ensures CyclesOk(Apply(s, Bind(c, n))) && AnnotationsOk(Apply(s, Bind(c, n)))
  {
  }

  lemma PostBindKeeps(s: State, c: nat, patched: bool)
    requires Inv(s) && Enabled(s, PostBind(c, patched))
    ensures Inv(Apply(s, PostBind(c, patched)))
  {
    SameQueues(s, Apply(s, PostBind(c, patched)));
    PostBindCycles(s, c, patched);
  }

  lemma PostBindCycles(s: State, c: nat, patched: bool)
    requires CyclesOk(s) && AnnotationsOk(s) && Enabled(s, PostBind(c, patched))
    ensures CyclesOk(Apply(s, PostBind(c, patched))) && AnnotationsOk(Apply(s, PostBind(c, patched)))
  {
  }

  lemma StepKeeps(s: State, step: Step)
    requires Inv(s) && Enabled(s, step)
    ensures Inv(Apply(s, step))
  {
    match step
    case PushStep(w, n, id) => PushKeeps(s, w, n, id);
    case Withdraw(id) => WithdrawKeeps(s, id);
    case PreFilter(c, pod) => PreFilterKeeps(s, c, pod);
    case Bind(c, n) => BindKeeps(s, c, n);
    case PostBind(c, patched) => PostBindKeeps(s, c, patched);
  }

  lemma {:induction false} AlwaysInv(steps: seq<Step>)
    requires Run(steps).Some?
    ensures Inv(Run(steps).value)
    decreases |steps|
  {
    if steps != [] {
      AlwaysInv(steps[..|steps| - 1]);
      StepKeeps(Run(steps[..|steps| - 1]).value, steps[|steps| - 1]);
    }
  }

  // ---- what every run guarantees ----

  /** Every pushed suggestion has exactly one fate: still queued, withdrawn, or taken by one cycle. */
  lemma ExactlyOneFate(steps: seq<Step>, id: string)
    requires Run(steps).Some? && id in Run(steps).value.pushed
    ensures
      var s := Run(steps).value;
      && (Queued(s, id) || id in s.withdrawn || id in s.taken)
      && !(Queued(s, id) && id in s.withdrawn)
      && !(Queued(s, id) && id in s.taken)
      && !(id in s.withdrawn && id in s.taken)
  {
    AlwaysInv(steps);
    if Queued(Run(steps).value, id) {
      FatesExclude(Run(steps).value, id);
    }
  }

  lemma FatesExclude(s: State, id: string)
    requires Inv(s) && Queued(s, id)
    ensures id !in s.withdrawn && id !in s.taken
  {
    var q, x := QueueName(s.pushed[id].workload), Suggestion(id, s.pushed[id].nodeName);
    assert q in s.queues && x in s.queues[q];
  }

  /** No two pods ever carry the same suggestion. */
  lemma SuggestionOnOnePodOnly(steps: seq<Step>, p: Pod, p': Pod)
    requires Run(steps).Some?
    requires p in Run(steps).value.annotations && p' in Run(steps).value.annotations
    requires Run(steps).value.annotations[p] == Run(steps).value.annotations[p']
    ensures p == p'
  {
    AlwaysInv(steps);
  }

  /** A pod carrying a suggestion belongs to the workload it was pushed for and runs on the node it named. */
  lemma SuggestionIsHonoured(steps: seq<Step>, p: Pod)
    requires Run(steps).Some? && p in Run(steps).value.annotations
    ensures
      var s := Run(steps).value;
      var id := s.annotations[p];
      && id in s.pushed
      && p.deployment == Some(s.pushed[id].workload)
      && p in s.bindings && s.bindings[p] == s.pushed[id].nodeName
  {
    AlwaysInv(steps);
  }

  // ---- where a taken suggestion ends up ----

  ghost predicate Carried(s: State, id: string) {
    exists p :: p in s.annotations && s.annotations[p] == id
  }

  /** A pod is bound by one cycle only. */
  ghost predicate BoundOnce(s: State) {
    forall c, c' :: c in s.cycles && c' in s.cycles && s.cycles[c].boundTo.Some? && s.cycles[c'].boundTo.Some? ==>
      s.cycles[c].pod == s.cycles[c'].pod ==> c == c'
  }

  /** Cycles that patched their pod had bound it, and left their suggestion on it. */
  ghost predicate LeftBehind(s: State, steps: seq<Step>) {
    forall c :: PostBind(c, true) in steps ==>
      && c in s.cycles && s.cycles[c].boundTo.Some?
      && (s.cycles[c].suggestion.Some? ==>
            s.cycles[c].pod in s.annotations && s.annotations[s.cycles[c].pod] == s.cycles[c].suggestion.value.id)
  }

  /** The suggestion on a pod was left there by the cycle that took it. */
  ghost predicate LeftBy(s: State, steps: seq<Step>) {
    forall p :: p in s.annotations ==> s.annotations[p] in s.taken && PostBind(s.taken[s.annotations[p]], true) in steps
  }

  ghost predicate CarriedBy(s: State, steps: seq<Step>) {
    LeftBehind(s, steps) && LeftBy(s, steps)
  }

  lemma CarriedNext(s: State, steps: seq<Step>, step: Step)
    requires Inv(s) && BoundOnce(s) && CarriedBy(s, steps) && Enabled(s, step)
    ensures BoundOnce(Apply(s, step)) && CarriedBy(Apply(s, step), steps + [step])
  {
    match step
    case PushStep(_, _, _) => CarriedAlike(s, Apply(s, step), steps, step);
    case Withdraw(_) => CarriedAlike(s, Apply(s, step), steps, step);
    case PreFilter(c, pod) => CarriedAfterPreFilter(s, c, pod, steps);
    case Bind(c, n) => CarriedAfterBind(s, c, n, steps);
    case PostBind(c, patched) =>
      if patched {
        CarriedAfterPostBind(s, c, steps);
      } else {
        CarriedAlike(s, Apply(s, step), steps, step);
      }
  }

  /** A step that patches no pod, and at most adds an unbound cycle and what it took. */
  lemma CarriedAlike(s: State, s': State, steps: seq<Step>, step: Step)
    requires BoundOnce(s) && CarriedBy(s, steps) && !(step.PostBind? && step.patched)
    requires s'.annotations == s.annotations
    requires forall c :: c in s'.cycles && s'.cycles[c].boundTo.Some? ==> c in s.cycles
    requires forall c :: c in s.cycles ==> c in s'.cycles && s'.cycles[c] == s.cycles[c]
    requires forall id :: id in s.taken ==> id in s'.taken && s'.taken[id] == s.taken[id]
    ensures BoundOnce(s') && CarriedBy(s', steps + [step])
  {
  }

  lemma CarriedAfterPreFilter(s: State, c: nat, pod: Pod, steps: seq<Step>)
    requires Inv(s) && BoundOnce(s) && CarriedBy(s, steps) && Enabled(s, PreFilter(c, pod))
    ensures BoundOnce(Apply(s, PreFilter(c, pod))) && CarriedBy(Apply(s, PreFilter(c, pod)), steps + [PreFilter(c, pod)])
  {
    TakenAnew(s, c, pod);
    CarriedAlike(s, Apply(s, PreFilter(c, pod)), steps, PreFilter(c, pod));
  }

  lemma CarriedAfterBind(s: State, c: nat, n: string, steps: seq<Step>)
    requires CyclesOk(s) && BoundOnce(s) && CarriedBy(s, steps) && Enabled(s, Bind(c, n))
    ensures BoundOnce(Apply(s, Bind(c, n))) && CarriedBy(Apply(s, Bind(c, n)), steps + [Bind(c, n)])
  {
  }

  lemma CarriedAfterPostBind(s: State, c: nat, steps: seq<Step>)
    requires CyclesOk(s) && BoundOnce(s) && CarriedBy(s, steps) && Enabled(s, PostBind(c, true))
    ensures BoundOnce(Apply(s, PostBind(c, true))) && CarriedBy(Apply(s, PostBind(c, true)), steps + [PostBind(c, true)])
  {
    if s.cycles[c].suggestion.Some? {
      LeftOnPod(s, c, s.cycles[c].suggestion.value.id, steps);
    } else {
      assert Apply(s, PostBind(c, true)) == s;
    }
  }

  lemma LeftOnPod(s: State, c: nat, id: string, steps: seq<Step>)
    requires BoundOnce(s) && CarriedBy(s, steps) && c in s.cycles && s.cycles[c].boundTo.Some?
    requires s.cycles[c].suggestion.Some? && s.cycles[c].suggestion.value.id == id && id in s.taken && s.taken[id] == c
    ensures
      var s' := s.(annotations := s.annotations[s.cycles[c].pod := id]);
      BoundOnce(s') && CarriedBy(s', steps + [PostBind(c, true)])
  {
    var s' := s.(annotations := s.annotations[s.cycles[c].pod := id]);
    forall c' | PostBind(c', true) in steps + [PostBind(c, true)]
      ensures c' in s.cycles && s.cycles[c'].boundTo.Some? && (PostBind(c', true) in steps || c' == c)
    {}
    assert LeftBehind(s', steps + [PostBind(c, true)]);
  }

  /** A cycle takes a suggestion nobody took before. */
  lemma TakenAnew(s: State, c: nat, pod: Pod)
    requires Inv(s) && Enabled(s, PreFilter(c, pod))
    ensures forall id :: id in s.taken ==>
      id in Apply(s, PreFilter(c, pod)).taken && Apply(s, PreFilter(c, pod)).taken[id] == s.taken[id]
  {
    if pod.deployment.Some? && Queue(s, QueueName(pod.deployment.value)) != [] {
      assert s.queues[QueueName(pod.deployment.value)][0] in s.queues[QueueName(pod.deployment.value)];
    }
  }

  lemma {:induction false} AlwaysCarriedBy(steps: seq<Step>)
    requires Run(steps).Some?
    ensures BoundOnce(Run(steps).value) && CarriedBy(Run(steps).value, steps)
    decreases |steps|
  {
    if steps != [] {
      var before, step := steps[..|steps| - 1], steps[|steps| - 1];
      AlwaysInv(before);
      AlwaysCarriedBy(before);
      CarriedNext(Run(before).value, before, step);
      assert steps == before + [step];
    }
  }

  /** A taken suggestion ends up on a pod exactly if the cycle that took it went on to patch its pod. */
  lemma CarriedExactly(steps: seq<Step>, id: string)
    requires Run(steps).Some? && id in Run(steps).value.taken
    ensures Carried(Run(steps).value, id) <==> PostBind(Run(steps).value.taken[id], true) in steps
  {
    AlwaysInv(steps);
    AlwaysCarriedBy(steps);
    var s := Run(steps).value;
    assert s.cycles[s.taken[id]].suggestion == Some(Suggestion(id, s.pushed[id].nodeName));
  }

  /** A cycle holds the suggestion, and another one has bound its pod. */
  ghost predicate Lost(s: State, id: string) {
    && id in s.taken && s.taken[id] in s.cycles
    && s.cycles[s.taken[id]].boundTo.None? && s.cycles[s.taken[id]].pod in s.bindings
  }

  lemma LostNext(s: State, step: Step, id: string)
    requires Inv(s) && Lost(s, id) && Enabled(s, step)
    ensures Lost(Apply(s, step), id)
  {
    match step
    case PreFilter(c, pod) => TakenAnew(s, c, pod);
    case _ =>
  }

  /** Popped and never bound: the pod was bound without the suggestion, and no pod will ever carry it. */
  lemma {:induction false} LostForever(steps: seq<Step>, more: seq<Step>, id: string)
    requires Run(steps).Some? && Lost(Run(steps).value, id) && Run(steps + more).Some?
    ensures Lost(Run(steps + more).value, id) && !Carried(Run(steps + more).value, id)
    decreases |more|
  {
    if more == [] {
      assert steps + more == steps;
    } else {
      RunOneMore(steps, more);
      LostForever(steps, more[..|more| - 1], id);
      AlwaysInv(steps + more[..|more| - 1]);
      LostNext(Run(steps + more[..|more| - 1]).value, more[|more| - 1], id);
    }
    AlwaysInv(steps + more);
    NotCarried(Run(steps + more).value, id);
  }

  lemma RunOneMore(steps: seq<Step>, more: seq<Step>)
    requires more != [] && Run(steps + more).Some?
    ensures
      var before, step := Run(steps + more[..|more| - 1]), more[|more| - 1];
      before.Some? && Enabled(before.value, step) && Run(steps + more) == Some(Apply(before.value, step))
  {
    LastOf(steps, more);
  }

  lemma LastOf<T>(a: seq<T>, b: seq<T>)
    requires b != []
    ensures (a + b)[..|a + b| - 1] == a + b[..|b| - 1] && (a + b)[|a + b| - 1] == b[|b| - 1]
  {
  }

  lemma NotCarried(s: State, id: string)
    requires Inv(s) && Lost(s, id)
    ensures !Carried(s, id)
  {
  }

  lemma RunSnoc(steps: seq<Step>, step: Step)
    requires Run(steps).Some? && Enabled(Run(steps).value, step)
    ensures Run(steps + [step]) == Some(Apply(Run(steps).value, step))
  {
    assert (steps + [step])[..|steps|] == steps;
  }

  /** A suggestion is pushed and taken by the first cycle of a pod. */
  ghost function Popped(w: Workload, n: string, id: string, pod: Pod): State {
    INITIAL.(queues := map[QueueName(w) := []], cycles := map[0 := Cycle(pod, Some(Suggestion(id, n)), None)],
             pushed := map[id := Push(w, n)], taken := map[id := 0])
  }

  lemma PushThenPop(w: Workload, n: string, id: string, pod: Pod)
    requires ColonFree(w) && pod.deployment == Some(w)
    ensures Run([PushStep(w, n, id), PreFilter(0, pod)]) == Some(Popped(w, n, id, pod))
  {
    var q, sug := QueueName(w), Suggestion(id, n);
    var pushed := INITIAL.(queues := map[q := [sug]], pushed := map[id := Push(w, n)]);
    RunSnoc([], PushStep(w, n, id));
    assert [] + [PushStep(w, n, id)] == [PushStep(w, n, id)] && [sug] + [] == [sug];
    assert Run([PushStep(w, n, id)]) == Some(pushed);
    RunSnoc([PushStep(w, n, id)], PreFilter(0, pod));
    assert [PushStep(w, n, id)] + [PreFilter(0, pod)] == [PushStep(w, n, id), PreFilter(0, pod)];
    assert [sug][1..] == [];
    assert pushed.queues[q := []] == map[q := []];
  }

  /** A failed patch leaves a taken suggestion on no pod, although its pod was bound as suggested. */
  lemma FailedPatchDropsSuggestion(w: Workload, n: string, id: string, pod: Pod)
    requires ColonFree(w) && pod.deployment == Some(w)
    ensures
      var run := Run([PushStep(w, n, id), PreFilter(0, pod)] + [Bind(0, n)] + [PostBind(0, false)]);
      run.Some? && id in run.value.taken && run.value.bindings == map[pod := n] && !Carried(run.value, id)
  {
    var steps := [PushStep(w, n, id), PreFilter(0, pod)];
    PushThenPop(w, n, id, pod);
    RunSnoc(steps, Bind(0, n));
    RunSnoc(steps + [Bind(0, n)], PostBind(0, false));
  }

  /** A pod that comes back without having been bound finds the queue empty: its suggestion is lost. */
  lemma RetryLosesSuggestion(w: Workload, n: string, id: string, pod: Pod, m: string)
    requires ColonFree(w) && pod.deployment == Some(w)
    ensures
      var run := Run([PushStep(w, n, id), PreFilter(0, pod)] + [PreFilter(1, pod)] + [Bind(1, m)]);
      run.Some? && Lost(run.value, id) && run.value.bindings == map[pod := m]
  {
    var steps := [PushStep(w, n, id), PreFilter(0, pod)];
    PushThenPop(w, n, id, pod);
    RunSnoc(steps, PreFilter(1, pod));
    assert Run(steps + [PreFilter(1, pod)]).value.cycles[1] == Cycle(pod, None, None);
    RunSnoc(steps + [PreFilter(1, pod)], Bind(1, m));
  }

  /** The lists are stacks: with nothing in between, the suggestion pushed last is the one taken first. */
  lemma LastPushedIsTakenFirst(s: State, w: Workload, n: string, id: string, c: nat, pod: Pod)
    requires Enabled(s, PushStep(w, n, id)) && pod.deployment == Some(w) && c !in s.cycles
    ensures
      var s1 := Apply(s, PushStep(w, n, id));
      && Enabled(s1, PreFilter(c, pod))
      && Apply(s1, PreFilter(c, pod)).cycles[c].suggestion == Some(Suggestion(id, n))
      && Queue(Apply(s1, PreFilter(c, pod)), QueueName(w)) == Queue(s, QueueName(w))
  {
    var q := QueueName(w);
    assert ([Suggestion(id, n)] + Queue(s, q))[1..] == Queue(s, q);
  }

  /** Withdrawing at once leaves every queue as it was before the push. */
  lemma WithdrawUndoesPush(s: State, w: Workload, n: string, id: string, q: string)
    requires Enabled(s, PushStep(w, n, id))
    ensures
      var s1 := Apply(s, PushStep(w, n, id));
      Queue(Apply(s1, Withdraw(id)), q) == Queue(s, q)
  {
    var own, x := QueueName(w), Suggestion(id, n);
    var list := [x] + Queue(s, own);
    assert x in list && list[0] == x && list[1..] == Queue(s, own);
    assert RemoveFirst(list, x) == Queue(s, own);
  }

  // ---- the services ----

  /** A deployment by namespace and name. */
  datatype DeploymentKey = DeploymentKey(namespace: string, name: string)

  datatype PodName = PodName(namespace: string, name: string)

  /** What the API server says about a pod: its node and the deployment that owns it. */
  datatype PodObject = PodObject(nodeName: string, deployment: Option<Workload>)

  /** The deployment a pod's scale-down addresses: the pod's namespace with its deployment's name. */
  function OwnerOf(pod: PodName, deployment: Workload): DeploymentKey {
    DeploymentKey(pod.namespace, deployment.name)
  }

  /** The pod-deletion-cost annotation that makes a pod the preferred one to go. */
  const PREFERRED := "-1000"

  /** How a delete ends: a failed update of the pod panics, all other failures return. */
  datatype Deletion = NoPod | NoDeployment | Panicked | ScaleFailed | ScaledDown

  /**
   Redis, the scheduler's cycle states and the part of the cluster the actions write: bindings, annotations
   and deployment scales. The history is kept for the specification only.
   */
  class Cluster {
    var queues: map<string, seq<Suggestion>>
    var cycles: map<nat, Cycle>
    var bindings: map<Pod, string>
    var annotations: map<Pod, string>
    var replicas: map<DeploymentKey, int>
    var deletionCosts: map<PodName, string>
    ghost var pushed: map<string, Push>
    ghost var withdrawn: set<string>
    ghost var taken: map<string, nat>

    ghost function View(): State
      reads this
    {
      State(queues, cycles, bindings, annotations, pushed, withdrawn, taken)
    }

    constructor (replicas: map<DeploymentKey, int>)
      ensures View() == INITIAL && this.replicas == replicas && deletionCosts == map[]
    {
      queues, cycles, bindings, annotations := map[], map[], map[], map[];
      pushed, withdrawn, taken := map[], {}, map[];
      this.replicas, deletionCosts := replicas, map[];
    }

    function ListAt(queue: string): seq<Suggestion>
      reads this`queues
    {
      if queue in queues then queues[queue] else []
    }

    /** LPUSH of a suggestion under a new id. */
    method AddSchedulingSuggestion(workload: Workload, nodeName: string, id: string) returns (sug: Suggestion)
      requires Enabled(View(), PushStep(workload, nodeName, id))
      modifies this`queues, this`pushed
      ensures sug == Suggestion(id, nodeName)
      ensures View() == Apply(old(View()), PushStep(workload, nodeName, id))
    {
      var queue := QueueName(workload);
      sug := Suggestion(id, nodeName);
      queues := queues[queue := [sug] + ListAt(queue)];
      pushed := pushed[id := Push(workload, nodeName)];
    }

    /** LREM of the first equal entry; a suggestion that a cycle already took stays taken. */
    method RemoveSchedulingSuggestion(workload: Workload, sug: Suggestion)
      requires sug.id in pushed && pushed[sug.id] == Push(workload, sug.nodeName)
      modifies this`queues, this`withdrawn
      ensures View() == Apply(old(View()), Withdraw(sug.id))
    {
      var queue := QueueName(workload);
      if sug in ListAt(queue) {
        queues := queues[queue := RemoveFirst(ListAt(queue), sug)];
        withdrawn := withdrawn + {sug.id};
      }
    }

    method PreFilter(cycle: nat, pod: Pod)
      requires Enabled(View(), Step.PreFilter(cycle, pod))
      modifies this`queues, this`cycles, this`taken
      ensures View() == Apply(old(View()), Step.PreFilter(cycle, pod))
    {
      if pod.deployment.None? {
        cycles := cycles[cycle := Cycle(pod, None, None)];
        return;
      }
      var queue := QueueName(pod.deployment.value);
      if ListAt(queue) == [] {
        cycles := cycles[cycle := Cycle(pod, None, None)];
        return;
      }
      var sug := queues[queue][0];
      queues := queues[queue := queues[queue][1..]];
      cycles := cycles[cycle := Cycle(pod, Some(sug), None)];
      taken := taken[sug.id := cycle];
    }

    /** The framework binds a pod that has no node yet to a node that passed Filter in this cycle. */
    method BindPod(cycle: nat, nodeName: string)
      requires Enabled(View(), Bind(cycle, nodeName))
      modifies this`cycles, this`bindings
      ensures View() == Apply(old(View()), Bind(cycle, nodeName))
    {
      bindings := bindings[cycles[cycle].pod := nodeName];
      cycles := cycles[cycle := cycles[cycle].(boundTo := Some(nodeName))];
    }

    method PostBind(cycle: nat, patchFails: bool)
      requires Enabled(View(), Step.PostBind(cycle, !patchFails))
      modifies this`annotations
      ensures View() == Apply(old(View()), Step.PostBind(cycle, !patchFails))
    {
      if cycles[cycle].suggestion.None? {
        return;
      }
      if patchFails {
        return;
      }
      annotations := annotations[cycles[cycle].pod := cycles[cycle].suggestion.value.id];
    }

    /** Pushes a suggestion and scales the workload up by one; a failed API call withdraws the suggestion. */
    method CreateHandler(workload: Workload, nodeName: string, id: string, getFails: bool, updateFails: bool)
      returns (ok: bool)
      requires Enabled(View(), PushStep(workload, nodeName, id))
      modifies this`queues, this`pushed, this`withdrawn, this`replicas
      ensures ok == (DeploymentKey(workload.namespace, workload.name) in replicas && !getFails && !updateFails)
      ensures ok ==> View() == Apply(old(View()), PushStep(workload, nodeName, id))
      ensures ok ==> var key := DeploymentKey(workload.namespace, workload.name);
                     key in old(replicas) && replicas == old(replicas)[key := old(replicas)[key] + 1]
      ensures !ok ==> View() == Apply(Apply(old(View()), PushStep(workload, nodeName, id)), Withdraw(id))
                      && replicas == old(replicas)
    {
      var sug := AddSchedulingSuggestion(workload, nodeName, id);
      var key := DeploymentKey(workload.namespace, workload.name);
      if getFails || key !in replicas {
        RemoveSchedulingSuggestion(workload, sug);
        return false;
      }
      var scale := replicas[key];
      if updateFails {
        RemoveSchedulingSuggestion(workload, sug);
        return false;
      }
      replicas := replicas[key := scale + 1];
      return true;
    }

    /**
     Makes the pod the preferred one to go and scales its deployment down by one; pods is what the API server answers.
     The pod stays preferred when the scale cannot be read or written afterwards.
     */
    method DeleteHandler(pods: map<PodName, PodObject>, pod: PodName, updateFails: bool, getFails: bool, scaleFails: bool)
      returns (result: Deletion)
      modifies this`replicas, this`deletionCosts
      ensures result == NoPod <==> pod !in pods
      ensures result == NoDeployment <==> pod in pods && pods[pod].deployment.None?
      ensures result == Panicked <==> pod in pods && pods[pod].deployment.Some? && updateFails
      ensures result == ScaledDown <==>
        && pod in pods && pods[pod].deployment.Some? && !updateFails && !getFails && !scaleFails
        && OwnerOf(pod, pods[pod].deployment.value) in old(replicas)
      ensures deletionCosts ==
        if result in {ScaleFailed, ScaledDown} then old(deletionCosts)[pod := PREFERRED] else old(deletionCosts)
      ensures result != ScaledDown ==> replicas == old(replicas)
      ensures result == ScaledDown ==>
        var key := OwnerOf(pod, pods[pod].deployment.value);
        replicas == old(replicas)[key := old(replicas)[key] - 1]
    {
      if pod !in pods {
        return NoPod;
      }
      if pods[pod].deployment.None? {
        return NoDeployment;
      }
      var key := OwnerOf(pod, pods[pod].deployment.value);
      if updateFails {
        return Panicked;
      }
      deletionCosts := deletionCosts[pod := PREFERRED];
      if getFails || key !in replicas {
        return ScaleFailed;
      }
      var scale := replicas[key];
      if scaleFails {
        return ScaleFailed;
      }
      replicas := replicas[key := scale - 1];
      return ScaledDown;
    }
  }
}
