/** Preemption that respects the toleration policies annotated on priority classes. */
module PreemptionToleration {
  import opened FrameworkResource
  import opened Options
  import opened Pods
  import opened Sums
  import opened ElasticQuota
  import opened DisruptionBudgets
  import opened Greedy
  import opened Reprieve

  /** An integer annotation: absent, not a number, or its value. */
  datatype Annotation = Absent | Unparsable | Number(n: int)

  datatype PriorityClass = PriorityClass(
    value: int,
    minimumPreemptablePriority: Annotation,
    tolerationSeconds: Annotation)

  datatype Policy = Policy(minimumPreemptablePriority: int, tolerationSeconds: int)

  function ParsePolicy(pc: PriorityClass): Option<Policy> {
    if pc.minimumPreemptablePriority.Unparsable? || pc.tolerationSeconds.Unparsable? then None
    else
      Some(Policy(
        if pc.minimumPreemptablePriority.Number? then pc.minimumPreemptablePriority.n else pc.value + 1,
        if pc.tolerationSeconds.Number? then pc.tolerationSeconds.n else 0))
  }

  datatype Exemption = Exempt | Preemptable | ClassNotFound

  /** Times and durations in seconds. */
  function ExemptedFromPreemption(victim: Pod, preemptor: Pod, classes: map<string, PriorityClass>, now: int): Exemption {
    if victim.priorityClassName == "" then Preemptable
    else if victim.priorityClassName !in classes then ClassNotFound
    else if preemptor.preemptsNever then Exempt
    else
      match ParsePolicy(classes[victim.priorityClassName])
      case None => Preemptable
      case Some(policy) =>
        if preemptor.priority >= policy.minimumPreemptablePriority then Preemptable
        else if policy.tolerationSeconds < 0 then Exempt
        else if victim.scheduledAt.None? then Exempt
        else if victim.scheduledAt.value + policy.tolerationSeconds > now then Exempt
        else Preemptable
  }

  /** A toleration only wears off: neither the passing of time nor a more important preemptor restores it. */
  lemma TolerationWearsOff(victim: Pod, preemptor: Pod, preemptor': Pod, classes: map<string, PriorityClass>, now: int, now': int)
    requires now <= now' && preemptor.priority <= preemptor'.priority
    requires preemptor'.preemptsNever ==> preemptor.preemptsNever
    requires ExemptedFromPreemption(victim, preemptor', classes, now') == Exempt
    ensures ExemptedFromPreemption(victim, preemptor, classes, now) == Exempt
  {
  }

  /** Exactly when a pod of a known class holds out against a preemptor of lower-than-required priority for good. */
  lemma ToleratesForever(victim: Pod, preemptor: Pod, classes: map<string, PriorityClass>)
    requires !preemptor.preemptsNever
    ensures (forall now :: ExemptedFromPreemption(victim, preemptor, classes, now) == Exempt)
            <==> && victim.priorityClassName != ""
                 && victim.priorityClassName in classes
                 && var policy := ParsePolicy(classes[victim.priorityClassName]);
                 && policy.Some?
                 && preemptor.priority < policy.value.minimumPreemptablePriority
                 && (policy.value.tolerationSeconds < 0 || victim.scheduledAt.None?)
  {
    var early := ExemptedFromPreemption(victim, preemptor, classes, 0);
    if victim.priorityClassName in classes {
      var policy := ParsePolicy(classes[victim.priorityClassName]);
      if policy.Some? && victim.scheduledAt.Some? {
        var expired := ExemptedFromPreemption(victim, preemptor, classes,
                                              victim.scheduledAt.value + policy.value.tolerationSeconds);
      }
    }
  }

  /** The priority from which on a preemptor is not tolerated: as annotated, or one above the class's own. */
  ghost predicate IsThreshold(pc: PriorityClass, priority: int) {
    pc.minimumPreemptablePriority == Number(priority) || (pc.minimumPreemptablePriority.Absent? && priority == pc.value + 1)
  }

  /** How long preemption is tolerated: as annotated, or not at all. */
  ghost predicate IsToleration(pc: PriorityClass, seconds: int) {
    pc.tolerationSeconds == Number(seconds) || (pc.tolerationSeconds.Absent? && seconds == 0)
  }

  /** The pod still tolerates the preemptor: it was scheduled less than its class's toleration ago, and the preemptor is below the threshold. */
  ghost predicate InWindow(victim: Pod, preemptor: Pod, classes: map<string, PriorityClass>, now: int) {
    && victim.priorityClassName != "" && victim.priorityClassName in classes && victim.scheduledAt.Some?
    && exists priority, seconds ::
         && IsThreshold(classes[victim.priorityClassName], priority) && IsToleration(classes[victim.priorityClassName], seconds)
         && preemptor.priority < priority && now < victim.scheduledAt.value + seconds
  }

  /**
   The window, told by the annotations: below the threshold a scheduled pod is exempt before its toleration has passed,
   and preemptable from then on.
   */
  lemma ExemptDuringWindow(victim: Pod, preemptor: Pod, classes: map<string, PriorityClass>, now: int, priority: int, seconds: int)
    requires victim.priorityClassName != "" && victim.priorityClassName in classes && !preemptor.preemptsNever
    requires IsThreshold(classes[victim.priorityClassName], priority) && IsToleration(classes[victim.priorityClassName], seconds)
    requires preemptor.priority < priority && seconds >= 0 && victim.scheduledAt.Some?
    ensures ExemptedFromPreemption(victim, preemptor, classes, now)
            == if now < victim.scheduledAt.value + seconds then Exempt else Preemptable
  {
  }

  /** From the threshold on a preemptor is not tolerated at any time. */
  lemma ThresholdDecides(victim: Pod, preemptor: Pod, classes: map<string, PriorityClass>, now: int, priority: int, seconds: int)
    requires victim.priorityClassName != "" && victim.priorityClassName in classes && !preemptor.preemptsNever
    requires IsThreshold(classes[victim.priorityClassName], priority) && IsToleration(classes[victim.priorityClassName], seconds)
    requires preemptor.priority >= priority
    ensures ExemptedFromPreemption(victim, preemptor, classes, now) == Preemptable
  {
  }

  /** A preemptor that never preempts takes no pod of a known class; an annotation that cannot be read protects nobody. */
  lemma NeverOrUnreadable(victim: Pod, preemptor: Pod, classes: map<string, PriorityClass>, now: int)
    requires victim.priorityClassName != "" && victim.priorityClassName in classes && victim.priority < preemptor.priority
    ensures preemptor.preemptsNever ==> !MayTake(preemptor, classes, now, victim)
    ensures
      var pc := classes[victim.priorityClassName];
      !preemptor.preemptsNever && (pc.minimumPreemptablePriority.Unparsable? || pc.tolerationSeconds.Unparsable?) ==>
        MayTake(preemptor, classes, now, victim)
  {
  }

  lemma NotTakenInWindow(victim: Pod, preemptor: Pod, classes: map<string, PriorityClass>, now: int)
    requires InWindow(victim, preemptor, classes, now)
    ensures !MayTake(preemptor, classes, now, victim)
  {
    var priority, seconds :|
      && IsThreshold(classes[victim.priorityClassName], priority) && IsToleration(classes[victim.priorityClassName], seconds)
      && preemptor.priority < priority && now < victim.scheduledAt.value + seconds;
    if !preemptor.preemptsNever && seconds >= 0 {
      ExemptDuringWindow(victim, preemptor, classes, now, priority, seconds);
    }
  }

  /** Without annotations a pod is no obstacle to any more important pod that may preempt. */
  lemma NoToleration(victim: Pod, preemptor: Pod, classes: map<string, PriorityClass>, now: int)
    requires victim.priorityClassName in classes && classes[victim.priorityClassName].minimumPreemptablePriority.Absent?
    requires classes[victim.priorityClassName].tolerationSeconds.Absent?
    requires victim.priority == classes[victim.priorityClassName].value < preemptor.priority && !preemptor.preemptsNever
    ensures MayTake(preemptor, classes, now, victim)
  {
  }

  /** The pods the preemptor may take: less important, and not exempt. */
  predicate MayTake(preemptor: Pod, classes: map<string, PriorityClass>, now: int, p: Pod) {
    p.priority < preemptor.priority && ExemptedFromPreemption(p, preemptor, classes, now) == Preemptable
  }

  ghost function Takeable(preemptor: Pod, classes: map<string, PriorityClass>, now: int, listing: seq<Pod>): seq<Pod> {
    if listing == [] then []
    else
      var taken := Takeable(preemptor, classes, now, listing[..|listing| - 1]);
      var p := listing[|listing| - 1];
      if MayTake(preemptor, classes, now, p) then taken + [p] else taken
  }

  lemma {:induction false} TakeableFromListing(preemptor: Pod, classes: map<string, PriorityClass>, now: int, listing: seq<Pod>)
    ensures multiset(Takeable(preemptor, classes, now, listing)) <= multiset(listing)
    ensures forall p :: p in Takeable(preemptor, classes, now, listing)
                        <==> p in listing && MayTake(preemptor, classes, now, p)
    decreases |listing|
  {
    if listing != [] {
      TakeableFromListing(preemptor, classes, now, listing[..|listing| - 1]);
      assert listing == listing[..|listing| - 1] + [listing[|listing| - 1]];
    }
  }

  /** A pod that stops the selection: its priority class is unknown, or it must go but has no uid. */
  predicate Blocks(preemptor: Pod, classes: map<string, PriorityClass>, now: int, p: Pod) {
    && p.priority < preemptor.priority
    && (ExemptedFromPreemption(p, preemptor, classes, now) == ClassNotFound
        || (ExemptedFromPreemption(p, preemptor, classes, now) == Preemptable && p.uid == ""))
  }

  /** The state of the selection after k pods of the listing: none blocked, and those to take are off the node. */
  ghost predicate Selecting(preemptor: Pod, classes: map<string, PriorityClass>, now: int, listing: seq<Pod>, k: nat,
                            potential: seq<Pod>, node: set<Pod>)
    requires k <= |listing|
  {
    && potential == Takeable(preemptor, classes, now, listing[..k])
    && node == SetOf(listing) - SetOf(potential)
    && (forall i :: 0 <= i < k ==> !Blocks(preemptor, classes, now, listing[i]))
    && (forall p :: p in potential ==> p.uid != "")
  }

  lemma SelectingNext(preemptor: Pod, classes: map<string, PriorityClass>, now: int, listing: seq<Pod>, k: nat,
                      potential: seq<Pod>, node: set<Pod>)
    requires UniqueUids(listing) && k < |listing| && Selecting(preemptor, classes, now, listing, k, potential, node)
    ensures listing[k] in node
    ensures !Blocks(preemptor, classes, now, listing[k]) ==>
      if MayTake(preemptor, classes, now, listing[k])
      then Selecting(preemptor, classes, now, listing, k + 1, potential + [listing[k]], node - {listing[k]})
      else Selecting(preemptor, classes, now, listing, k + 1, potential, node)
  {
    assert listing[..k + 1][..k] == listing[..k];
    TakeableFromListing(preemptor, classes, now, listing[..k]);
    forall i | 0 <= i < k ensures listing[i] != listing[k] { UniqueAt(listing, i, k); }
    assert SetOf(potential + [listing[k]]) == SetOf(potential) + {listing[k]};
  }

  method SelectPotentialVictims(run: DryRun, preemptor: Pod, classes: map<string, PriorityClass>, now: int, listing: seq<Pod>)
    returns (potential: seq<Pod>, ok: bool)
    requires run.Valid() && run.quotas == map[]
    requires UniqueUids(listing) && SetOf(listing) == run.node
    modifies run, run.quotas.Values
    ensures ok == forall p :: p in listing ==> !Blocks(preemptor, classes, now, p)
    ensures ok ==> potential == Takeable(preemptor, classes, now, listing)
    ensures ok ==> run.node == old(run.node) - SetOf(potential)
    ensures ok ==> forall p :: p in potential ==> p.uid != ""
  {
    ghost var node := run.node;
    potential, ok := [], true;
    for k := 0 to |listing|
      invariant node == run.node && Selecting(preemptor, classes, now, listing, k, potential, node)
    {
      var p := listing[k];
      SelectingNext(preemptor, classes, now, listing, k, potential, node);
      if p.priority >= preemptor.priority {
        continue;
      }
      var exempted := ExemptedFromPreemption(p, preemptor, classes, now);
      if exempted == ClassNotFound {
        assert Blocks(preemptor, classes, now, listing[k]);
        return potential, false;
      }
      if exempted == Preemptable {
        potential := potential + [p];
        ok := run.RemovePod(p);
        if !ok {
          assert Blocks(preemptor, classes, now, listing[k]);
          return;
        }
        node := run.node;
      }
    }
    assert listing[..|listing|] == listing;
  }

  datatype Status = Success | NoVictims | DoesNotFit | Failed

  /** No quota is judged here: only the fit counts. */
  ghost function FitJudge(preemptor: Pod): Judge {
    Judge(preemptor, false, PreFilterState(ZERO, ZERO, ZERO))
  }

  /** When each outcome comes about; once reprieving begins, it cannot fail. */
  ghost function Verdict(preemptor: Pod, classes: map<string, PriorityClass>, now: int, fit: Fit, listing: seq<Pod>): Status {
    var potential := Takeable(preemptor, classes, now, listing);
    if exists p :: p in listing && Blocks(preemptor, classes, now, p) then Failed
    else if potential == [] then NoVictims
    else if !fit(SetOf(listing) - SetOf(potential)) then DoesNotFit
    else Success
  }

  ghost function EmptiedNode(listing: seq<Pod>, potential: seq<Pod>): Round {
    Start(SetOf(listing) - SetOf(potential), map[])
  }

  lemma TakeableWait(listing: seq<Pod>, potential: seq<Pod>)
    requires UniqueUids(listing) && multiset(potential) <= multiset(listing)
    requires forall p :: p in potential ==> p.uid != ""
    ensures Waiting(EmptiedNode(listing, potential), potential)
  {
    UniqueSub(listing, potential);
    forall i | 0 <= i < |potential| ensures potential[i] in SetOf(potential) {}
  }

  /**
   The outcome is decided by the verdict. On Success the victims are what reprieving the takeable pods in order
   leaves over: distinct, less important and not exempt; the preemptor fits the rest of the node; for a monotone
   fit no victim could have stayed; and the count of budget-breaking victims is exact.
   */
  method SelectVictimsOnNode(run: DryRun, preemptor: Pod, classes: map<string, PriorityClass>, now: int, fit: Fit,
                             listing: seq<Pod>, budgets: seq<Budget>)
    returns (victims: seq<Pod>, numViolatingVictim: nat, status: Status, ghost ranked: seq<Pod>)
    requires run.Valid() && run.quotas == map[]
    requires UniqueUids(listing) && SetOf(listing) == run.node
    modifies run
    ensures status == Verdict(preemptor, classes, now, fit, listing)
    ensures status != Success ==> victims == [] && numViolatingVictim == 0
    ensures status == Success ==>
      IsReprieve(FitJudge(preemptor), fit, Takeable(preemptor, classes, now, listing), budgets, ranked,
                 EmptiedNode(listing, Takeable(preemptor, classes, now, listing)), victims, numViolatingVictim)
    ensures status == Success ==>
      && UniqueUids(victims)
      && (forall v :: v in victims ==> v in listing && MayTake(preemptor, classes, now, v))
      && (forall v :: v in victims ==> v.priority < preemptor.priority && !InWindow(v, preemptor, classes, now))
      && run.node == SetOf(listing) - SetOf(victims)
      && fit(run.node)
    ensures status == Success && Monotone(fit) ==> forall v :: v in victims ==> !fit(run.node + {v})
    ensures status == Success ==> numViolatingVictim == SumSeq(victims, MembersOf(Group(budgets, ranked, true)))
  {
    TakeableFromListing(preemptor, classes, now, listing);
    var potential, ok := SelectPotentialVictims(run, preemptor, classes, now, listing);
    if !ok {
      return [], 0, Failed, [];
    }
    if |potential| == 0 {
      return [], 0, NoVictims, [];
    }
    if !fit(run.node) {
      return [], 0, DoesNotFit, [];
    }
    victims, numViolatingVictim, ranked := ReprieveByFit(run, preemptor, fit, listing, potential, budgets);
    forall v | v in victims ensures !InWindow(v, preemptor, classes, now) {
      if InWindow(v, preemptor, classes, now) {
        NotTakenInWindow(v, preemptor, classes, now);
      }
    }
    status := Success;
  }

  /** Reprieving with no quota in play: only the fit is judged, and nothing can fail. */
  method ReprieveByFit(run: DryRun, preemptor: Pod, fit: Fit, ghost listing: seq<Pod>, potential: seq<Pod>,
                       budgets: seq<Budget>)
    returns (victims: seq<Pod>, numViolatingVictim: nat, ghost ranked: seq<Pod>)
    requires run.Valid() && run.quotas == map[]
    requires UniqueUids(listing) && multiset(potential) <= multiset(listing)
    requires forall p :: p in potential ==> p.uid != "" && p in listing
    requires run.node == SetOf(listing) - SetOf(potential) && fit(run.node)
    modifies run
    ensures IsReprieve(FitJudge(preemptor), fit, potential, budgets, ranked, EmptiedNode(listing, potential),
                       victims, numViolatingVictim)
    ensures UniqueUids(victims) && (forall v :: v in victims ==> v in potential)
    ensures run.node == SetOf(listing) - SetOf(victims) && fit(run.node)
    ensures Monotone(fit) ==> forall v :: v in victims ==> !fit(run.node + {v})
    ensures numViolatingVictim == SumSeq(victims, MembersOf(Group(budgets, ranked, true)))
  {
    var j := Judge(preemptor, false, PreFilterState(ZERO, ZERO, ZERO));
    ghost var req: Requests := (uid: string) => ZERO;
    ghost var emptied := EmptiedNode(listing, potential);
    assert run.View() == map[];
    TakeableWait(listing, potential);
    var ok;
    victims, numViolatingVictim, ok, ranked := ReprieveCandidates(run, j, fit, potential, budgets, emptied);
    ReprievePartitions(j, fit, potential, budgets, ranked, emptied, victims, numViolatingVictim);
    ReprieveIsSound(j, fit, potential, budgets, ranked, emptied, req);
    FitAloneDecides(j, fit, emptied, Group(budgets, ranked, true));
    BackOnNode(listing, potential, victims);
    if Monotone(fit) {
      forall v | v in victims ensures !fit(run.node + {v}) {
        assert Breaks(j, fit, run.node, run.View(), v);
      }
    }
  }

  // ---- who goes, of two pods alike ----

  /** For the fit it makes no difference which of the two is on the node. */
  ghost predicate Interchangeable(fit: Fit, p: Pod, q: Pod) {
    forall node: set<Pod> :: p !in node && q !in node ==> (fit(node + {p}) <==> fit(node + {q}))
  }

  lemma {:induction false} NodeGrows(rules: Rules, start: Round, order: seq<Pod>, i: nat, k: nat)
    requires i <= k <= |order|
    ensures Rounds(rules, start, order, i).node <= Rounds(rules, start, order, k).node
    decreases k
  {
    if i < k {
      NodeGrows(rules, start, order, i, k - 1);
    }
  }

  lemma NotBackYet(rules: Rules, node: set<Pod>, l: Ledger, order: seq<Pod>, i: nat, k: nat)
    requires AllOff(node, order) && i <= k < |order|
    ensures order[k] !in Rounds(rules, Start(node, l), order, i).node
  {
    RoundsPartition(rules, node, l, order, i);
    assert order[k] !in order[..i];
  }

  /** Where only the fit is judged, the later of two pods alike does not go back unless the earlier one does. */
  lemma EarlierGoesBackFirst(j: Judge, fit: Fit, node: set<Pod>, l: Ledger, order: seq<Pod>, i: nat, k: nat)
    requires !j.withQuota && Monotone(fit) && AllOff(node, order) && i < k < |order| && Interchangeable(fit, order[i], order[k])
    ensures
      var victims := AllRounds(RulesOf(j, fit), Start(node, l), order).victims;
      order[i] in victims ==> order[k] in victims
  {
    var rules := RulesOf(j, fit);
    var a, b := Rounds(rules, Start(node, l), order, i).node, Rounds(rules, Start(node, l), order, k).node;
    DecidedInTurn(rules, node, l, order, i, |order|);
    DecidedInTurn(rules, node, l, order, k, |order|);
    NodeGrows(rules, Start(node, l), order, i, k);
    NotBackYet(rules, node, l, order, i, i);
    NotBackYet(rules, node, l, order, i, k);
    assert a + {order[k]} <= b + {order[k]};
  }

  /** Each group is in the order of importance. */
  lemma {:induction false} GroupRanked(budgets: seq<Budget>, ranked: seq<Pod>, violating: bool)
    requires ByImportance(ranked)
    ensures ByImportance(Group(budgets, ranked, violating)) && forall p :: p in Group(budgets, ranked, violating) ==> p in ranked
    decreases |ranked|
  {
    if ranked != [] {
      var n := |ranked| - 1;
      assert ranked == ranked[..n] + [ranked[n]];
      GroupRanked(budgets, ranked[..n], violating);
      var rest := Group(budgets, ranked[..n], violating);
      forall i | 0 <= i < |rest| ensures !MoreImportant(ranked[n], rest[i]) {
        assert rest[i] in ranked[..n];
      }
    }
  }

  /** In either group the pod of higher priority comes first, and of two pods of one priority the older one. */
  lemma HigherPriorityFirst(budgets: seq<Budget>, ranked: seq<Pod>, violating: bool, p: Pod, q: Pod) returns (i: nat, k: nat)
    requires ByImportance(ranked)
    requires p.priority > q.priority || (p.priority == q.priority && p.startTime < q.startTime)
    requires p in Group(budgets, ranked, violating) && q in Group(budgets, ranked, violating)
    ensures i < k < |OrderOf(budgets, ranked)| && OrderOf(budgets, ranked)[i] == p && OrderOf(budgets, ranked)[k] == q
  {
    var group := Group(budgets, ranked, violating);
    GroupRanked(budgets, ranked, violating);
    var a :| 0 <= a < |group| && group[a] == p;
    var b :| 0 <= b < |group| && group[b] == q;
    var before := if violating then 0 else |Group(budgets, ranked, true)|;
    i, k := before + a, before + b;
  }

  lemma BudgetBreakerFirst(budgets: seq<Budget>, ranked: seq<Pod>, p: Pod, q: Pod) returns (i: nat, k: nat)
    requires p in Group(budgets, ranked, true) && q in Group(budgets, ranked, false)
    ensures i < k < |OrderOf(budgets, ranked)| && OrderOf(budgets, ranked)[i] == p && OrderOf(budgets, ranked)[k] == q
  {
    var breaking, keeping := Group(budgets, ranked, true), Group(budgets, ranked, false);
    i :| 0 <= i < |breaking| && breaking[i] == p;
    var b :| 0 <= b < |keeping| && keeping[b] == q;
    k := |breaking| + b;
  }

  /** Of two pods alike, the one later in the order is evicted first. */
  lemma LaterGoesFirst(preemptor: Pod, fit: Fit, listing: seq<Pod>, potential: seq<Pod>, budgets: seq<Budget>,
                       ranked: seq<Pod>, victims: seq<Pod>, n: nat, i: nat, k: nat)
    requires UniqueUids(listing) && multiset(potential) <= multiset(listing) && forall v :: v in potential ==> v.uid != ""
    requires IsReprieve(FitJudge(preemptor), fit, potential, budgets, ranked, EmptiedNode(listing, potential), victims, n)
    requires i < k < |OrderOf(budgets, ranked)|
    requires Monotone(fit) && Interchangeable(fit, OrderOf(budgets, ranked)[i], OrderOf(budgets, ranked)[k])
    ensures OrderOf(budgets, ranked)[i] in victims ==> OrderOf(budgets, ranked)[k] in victims
  {
    var order, emptied := OrderOf(budgets, ranked), EmptiedNode(listing, potential);
    GroupsPartition(budgets, ranked);
    TakeableWait(listing, potential);
    WaitingPart(emptied, potential, order);
    WaitingAllOff(emptied.node, emptied.quotas, order);
    EarlierGoesBackFirst(FitJudge(preemptor), fit, emptied.node, emptied.quotas, order, i, k);
  }

  /** Of two pods alike, both breaking budgets or neither, the one of lower priority, or the younger, is evicted first. */
  lemma LowerPriorityGoesFirst(preemptor: Pod, fit: Fit, listing: seq<Pod>, potential: seq<Pod>, budgets: seq<Budget>,
                               ranked: seq<Pod>, victims: seq<Pod>, n: nat, violating: bool, p: Pod, q: Pod)
    requires UniqueUids(listing) && multiset(potential) <= multiset(listing) && forall v :: v in potential ==> v.uid != ""
    requires IsReprieve(FitJudge(preemptor), fit, potential, budgets, ranked, EmptiedNode(listing, potential), victims, n)
    requires Monotone(fit) && Interchangeable(fit, p, q)
    requires p.priority > q.priority || (p.priority == q.priority && p.startTime < q.startTime)
    requires p in Group(budgets, ranked, violating) && q in Group(budgets, ranked, violating)
    ensures p in victims ==> q in victims
  {
    var i, k := HigherPriorityFirst(budgets, ranked, violating, p, q);
    LaterGoesFirst(preemptor, fit, listing, potential, budgets, ranked, victims, n, i, k);
  }

  /** Of two pods alike, one whose eviction breaks no budget is evicted before one whose eviction does, whatever their priorities. */
  lemma BudgetKeeperGoesFirst(preemptor: Pod, fit: Fit, listing: seq<Pod>, potential: seq<Pod>, budgets: seq<Budget>,
                              ranked: seq<Pod>, victims: seq<Pod>, n: nat, p: Pod, q: Pod)
    requires UniqueUids(listing) && multiset(potential) <= multiset(listing) && forall v :: v in potential ==> v.uid != ""
    requires IsReprieve(FitJudge(preemptor), fit, potential, budgets, ranked, EmptiedNode(listing, potential), victims, n)
    requires Monotone(fit) && Interchangeable(fit, p, q)
    requires p in Group(budgets, ranked, true) && q in Group(budgets, ranked, false)
    ensures p in victims ==> q in victims
  {
    var i, k := BudgetBreakerFirst(budgets, ranked, p, q);
    LaterGoesFirst(preemptor, fit, listing, potential, budgets, ranked, victims, n, i, k);
  }
}
