/** Splitting eviction candidates by whether evicting them would break a PodDisruptionBudget. */
module DisruptionBudgets {
  import opened Pods

  type Labels = map<string, string>

  /** A label selector: malformed, empty (matches nothing here), or a real requirement on labels. */
  datatype Selector = Malformed | Empty | Requirement(accepts: Labels -> bool)

  datatype Budget = Budget(
    namespace: string,
    selector: Selector,
    disruptedPods: set<string>,
    disruptionsAllowed: int)

  /** Evicting the pod costs this budget one disruption. */
  predicate Charges(b: Budget, pod: Pod) {
    && |pod.labels| != 0
    && b.namespace == pod.namespace
    && b.selector.Requirement?
    && b.selector.accepts(pod.labels)
    && pod.name !in b.disruptedPods
  }

  ghost function Charged(b: Budget, pods: seq<Pod>): nat {
    if pods == [] then 0
    else Charged(b, pods[..|pods| - 1]) + if Charges(b, pods[|pods| - 1]) then 1 else 0
  }

  /** Some budget charged for pods[k] is overdrawn by the pods up to and including it. */
  ghost predicate Violates(budgets: seq<Budget>, pods: seq<Pod>, k: nat)
    requires k < |pods|
  {
    exists i :: 0 <= i < |budgets| && Charges(budgets[i], pods[k])
                && Charged(budgets[i], pods[..k + 1]) > budgets[i].disruptionsAllowed
  }

  ghost function Group(budgets: seq<Budget>, pods: seq<Pod>, violating: bool): seq<Pod> {
    if pods == [] then []
    else
      var rest := Group(budgets, pods[..|pods| - 1], violating);
      if Violates(budgets, pods, |pods| - 1) == violating then rest + [pods[|pods| - 1]] else rest
  }

  /** The inner loop: draws one disruption from every budget the pod is charged to. */
  method DrawFor(pod: Pod, budgets: seq<Budget>, allowed: array<int>) returns (violated: bool)
    requires allowed.Length == |budgets|
    modifies allowed
    ensures forall i :: 0 <= i < |budgets| ==>
                          allowed[i] == old(allowed[i]) - if Charges(budgets[i], pod) then 1 else 0
    ensures violated <==> exists i :: 0 <= i < |budgets| && Charges(budgets[i], pod) && allowed[i] < 0
  {
    violated := false;
    if |pod.labels| == 0 {
      return;
    }
    for i := 0 to |budgets|
      invariant forall j :: 0 <= j < |budgets| ==>
                              allowed[j] == old(allowed[j]) - if j < i && Charges(budgets[j], pod) then 1 else 0
      invariant violated <==> exists j :: 0 <= j < i && Charges(budgets[j], pod) && allowed[j] < 0
    {
      var b := budgets[i];
      if b.namespace != pod.namespace { continue; }
      if b.selector.Malformed? { continue; }
      if b.selector.Empty? || !b.selector.accepts(pod.labels) { continue; }
      if pod.name in b.disruptedPods { continue; }
      allowed[i] := allowed[i] - 1;
      if allowed[i] < 0 {
        violated := true;
      }
    }
  }

  method FilterPodsWithPDBViolation(pods: seq<Pod>, budgets: seq<Budget>)
    returns (violatingPods: seq<Pod>, nonViolatingPods: seq<Pod>)
    ensures violatingPods == Group(budgets, pods, true)
    ensures nonViolatingPods == Group(budgets, pods, false)
  {
    var allowed := new int[|budgets|](i requires 0 <= i < |budgets| => budgets[i].disruptionsAllowed);
    violatingPods, nonViolatingPods := [], [];
    for k := 0 to |pods|
      invariant forall i :: 0 <= i < |budgets| ==>
                              allowed[i] == budgets[i].disruptionsAllowed - Charged(budgets[i], pods[..k])
      invariant violatingPods == Group(budgets, pods[..k], true)
      invariant nonViolatingPods == Group(budgets, pods[..k], false)
    {
      assert pods[..k + 1][..k] == pods[..k];
      var violated := DrawFor(pods[k], budgets, allowed);
      assert forall i :: 0 <= i < |budgets| ==>
                           allowed[i] == budgets[i].disruptionsAllowed - Charged(budgets[i], pods[..k + 1]);
      assert violated == Violates(budgets, pods[..k + 1], k) by {
        assert pods[..k + 1][..k + 1] == pods[..k + 1];
      }
      if violated {
        violatingPods := violatingPods + [pods[k]];
      } else {
        nonViolatingPods := nonViolatingPods + [pods[k]];
      }
    }
    assert pods[..|pods|] == pods;
  }

  ghost predicate Ascending(s: seq<nat>, n: nat) {
    && (forall i :: 0 <= i < |s| ==> s[i] < n)
    && (forall i, j :: 0 <= i < j < |s| ==> s[i] < s[j])
  }

  /**
   Each group is the violating, or non-violating, positions of the input in input order: a stable
   partition decided position by position.
   */
  lemma {:induction false} GroupIsStable(budgets: seq<Budget>, pods: seq<Pod>, violating: bool)
    returns (at: seq<nat>)
    ensures Ascending(at, |pods|)
    ensures Group(budgets, pods, violating) == seq(|at|, i requires 0 <= i < |at| && Ascending(at, |pods|) => pods[at[i]])
    ensures forall k :: 0 <= k < |pods| ==> (k in at <==> Violates(budgets, pods, k) == violating)
    decreases |pods|
  {
    if pods == [] {
      at := [];
    } else {
      var n := |pods| - 1;
      var rest := pods[..n];
      at := GroupIsStable(budgets, rest, violating);
      forall k | 0 <= k < n
        ensures Violates(budgets, rest, k) == Violates(budgets, pods, k)
      {
        assert rest[..k + 1] == pods[..k + 1];
      }
      if Violates(budgets, pods, n) == violating {
        at := at + [n];
      }
    }
  }

  /** Together the groups hold every pod exactly as often as the input does. */
  lemma {:induction false} GroupsPartition(budgets: seq<Budget>, pods: seq<Pod>)
    ensures multiset(Group(budgets, pods, true)) + multiset(Group(budgets, pods, false)) == multiset(pods)
    decreases |pods|
  {
    if pods != [] {
      GroupsPartition(budgets, pods[..|pods| - 1]);
      assert pods == pods[..|pods| - 1] + [pods[|pods| - 1]];
    }
  }

  lemma {:induction false} GroupChargesNoMore(budgets: seq<Budget>, pods: seq<Pod>, b: Budget)
    ensures Charged(b, Group(budgets, pods, false)) <= Charged(b, pods)
    decreases |pods|
  {
    if pods != [] {
      var rest := pods[..|pods| - 1];
      GroupChargesNoMore(budgets, rest, b);
      var g := Group(budgets, rest, false);
      assert (g + [pods[|pods| - 1]])[..|g|] == g;
    }
  }

  /** Evicting every non-violating pod overdraws no budget. */
  lemma {:induction false} NonViolatingWithinBudget(budgets: seq<Budget>, pods: seq<Pod>, i: nat)
    requires i < |budgets|
    ensures Charged(budgets[i], Group(budgets, pods, false))
            <= if budgets[i].disruptionsAllowed < 0 then 0 else budgets[i].disruptionsAllowed
    decreases |pods|
  {
    if pods != [] {
      var n := |pods| - 1;
      var rest := pods[..n];
      var g := Group(budgets, rest, false);
      assert (g + [pods[n]])[..|g|] == g;
      if !Violates(budgets, pods, n) && Charges(budgets[i], pods[n]) {
        assert pods[..n + 1] == pods;
        assert Charged(budgets[i], pods) <= budgets[i].disruptionsAllowed;
        GroupChargesNoMore(budgets, pods, budgets[i]);
      } else {
        NonViolatingWithinBudget(budgets, rest, i);
      }
    }
  }

  /** The budget protects the pod: same namespace, a selector its labels meet, and not on record as disrupted. */
  ghost predicate Protects(b: Budget, p: Pod) {
    && p.labels != map[] && p.namespace == b.namespace && p.name !in b.disruptedPods
    && exists accepts :: b.selector == Requirement(accepts) && accepts(p.labels)
  }

  lemma {:induction false} AllCharged(b: Budget, pods: seq<Pod>)
    requires forall p :: p in pods ==> Protects(b, p)
    ensures Charged(b, pods) == |pods|
    decreases |pods|
  {
    if pods != [] {
      AllCharged(b, pods[..|pods| - 1]);
      assert Protects(b, pods[|pods| - 1]);
    }
  }

  /** Pods under one budget: the first ones, as many as may be disrupted, break nothing, and all others do. */
  lemma FirstComeFirstServed(b: Budget, pods: seq<Pod>, k: nat)
    requires k < |pods| && forall p :: p in pods ==> Protects(b, p)
    ensures Violates([b], pods, k) <==> k >= b.disruptionsAllowed
  {
    AllCharged(b, pods[..k + 1]);
    assert Protects(b, pods[k]) && [b][0] == b;
  }

  lemma OneMoreBudget(budgets: seq<Budget>, b: Budget, pods: seq<Pod>, k: nat)
    requires k < |pods| && !Protects(b, pods[k])
    ensures Violates(budgets + [b], pods, k) <==> Violates(budgets, pods, k)
  {
    var more := budgets + [b];
    if i :| 0 <= i < |budgets| && Charges(budgets[i], pods[k]) && Charged(budgets[i], pods[..k + 1]) > budgets[i].disruptionsAllowed {
      assert more[i] == budgets[i];
    }
  }

  /** A budget that protects none of the pods changes nothing. */
  lemma {:induction false} OtherBudgetsDoNotMatter(budgets: seq<Budget>, b: Budget, pods: seq<Pod>, violating: bool)
    requires forall p :: p in pods ==> !Protects(b, p)
    ensures Group(budgets + [b], pods, violating) == Group(budgets, pods, violating)
    decreases |pods|
  {
    if pods != [] {
      OtherBudgetsDoNotMatter(budgets, b, pods[..|pods| - 1], violating);
      OneMoreBudget(budgets, b, pods, |pods| - 1);
    }
  }
}
