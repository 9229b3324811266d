/** Putting pods back one after the other, whatever the test each of them has to pass. */
module Greedy {
  import opened ElasticQuota
  import opened Pods
  import opened Sums

  /** How far it has come: the node, the quotas, the victims, and how many pods failed the fit. */
  datatype Round = Round(node: set<Pod>, quotas: Ledger, victims: seq<Pod>, misfits: nat)

  /** Which pods must stay off, which of them for want of fit, and what either decision does to the quotas. */
  datatype Rules = Rules(
    breaks: (set<Pod>, Ledger, Pod) -> bool,
    fits: (set<Pod>, Pod) -> bool,
    keep: (Ledger, Pod) -> Ledger,
    take: (Ledger, Pod) -> Ledger)

  ghost function Start(node: set<Pod>, l: Ledger): Round {
    Round(node, l, [], 0)
  }

  ghost function Next(rules: Rules, r: Round, p: Pod): Round {
    if rules.breaks(r.node, r.quotas, p) then
      Round(r.node, rules.take(r.quotas, p), r.victims + [p], r.misfits + if rules.fits(r.node, p) then 0 else 1)
    else Round(r.node + {p}, rules.keep(r.quotas, p), r.victims, r.misfits)
  }

  /** The first k pods of the order, in turn, go back if they can, beside those that went back before them. */
  ghost function Rounds(rules: Rules, start: Round, order: seq<Pod>, k: nat): Round
    requires k <= |order|
  {
    if k == 0 then start else Next(rules, Rounds(rules, start, order, k - 1), order[k - 1])
  }

  ghost function AllRounds(rules: Rules, start: Round, order: seq<Pod>): Round {
    Rounds(rules, start, order, |order|)
  }

  /** Whatever every round keeps holds after any number of them. */
  lemma {:induction false} RoundsKeep(rules: Rules, start: Round, order: seq<Pod>, k: nat, inv: (Round, nat) -> bool)
    requires k <= |order| && inv(start, 0)
    requires forall r, i :: 0 <= i < |order| && inv(r, i) ==> inv(Next(rules, r, order[i]), i + 1)
    ensures inv(Rounds(rules, start, order, k), k)
    decreases k
  {
    if k > 0 {
      RoundsKeep(rules, start, order, k - 1, inv);
    }
  }

  lemma {:induction false} RoundsPrefix(rules: Rules, start: Round, a: seq<Pod>, b: seq<Pod>, k: nat)
    requires k <= |a|
    ensures Rounds(rules, start, a + b, k) == Rounds(rules, start, a, k)
    decreases k
  {
    if k > 0 {
      RoundsPrefix(rules, start, a, b, k - 1);
    }
  }

  /** Two passes are one pass over both lists. */
  lemma {:induction false} RoundsConcat(rules: Rules, start: Round, a: seq<Pod>, b: seq<Pod>, k: nat)
    requires k <= |b|
    ensures Rounds(rules, start, a + b, |a| + k) == Rounds(rules, AllRounds(rules, start, a), b, k)
    decreases k
  {
    if k == 0 {
      RoundsPrefix(rules, start, a, b, |a|);
    } else {
      RoundsConcat(rules, start, a, b, k - 1);
    }
  }

  /** Distinct pods, none of them on the node. */
  ghost predicate AllOff(node: set<Pod>, order: seq<Pod>) {
    && (forall i :: 0 <= i < |order| ==> order[i] !in node)
    && (forall i, k :: 0 <= i < k < |order| ==> order[i] != order[k])
  }

  lemma UniqueAllOff(node: set<Pod>, order: seq<Pod>)
    requires UniqueUids(order) && forall p :: p in order ==> p !in node
    ensures AllOff(node, order)
  {
    forall i, k | 0 <= i < k < |order| ensures order[i] != order[k] { UniqueAt(order, i, k); }
  }

  /** Victims and kept pods partition the order, and the kept ones are back on the node. */
  ghost predicate Partitioned(node: set<Pod>, order: seq<Pod>, r: Round) {
    && multiset(r.victims) <= multiset(order)
    && r.node == node + (SetOf(order) - SetOf(r.victims))
  }

  lemma VictimsFromOrder(victims: seq<Pod>, order: seq<Pod>)
    requires multiset(victims) <= multiset(order)
    ensures forall v :: v in victims ==> v in order
  {
    forall v | v in victims ensures v in order { assert v in multiset(victims); }
  }

  lemma PartitionedNext(rules: Rules, node: set<Pod>, order: seq<Pod>, more: seq<Pod>, r: Round, p: Pod)
    requires p !in order && p !in node && more == order + [p]
    ensures Partitioned(node, order, r) ==> Partitioned(node, more, Next(rules, r, p))
  {
    if Partitioned(node, order, r) {
      VictimsFromOrder(r.victims, order);
      assert SetOf(more) == SetOf(order) + {p};
      assert SetOf(r.victims + [p]) == SetOf(r.victims) + {p};
    }
  }

  lemma PartitionedAt(rules: Rules, node: set<Pod>, order: seq<Pod>, k: nat, r: Round)
    requires AllOff(node, order) && 0 < k <= |order|
    ensures Partitioned(node, order[..k - 1], r) ==> Partitioned(node, order[..k], Next(rules, r, order[k - 1]))
  {
    TakeNext(order, k - 1);
    NewAt(node, order, k - 1);
    PartitionedNext(rules, node, order[..k - 1], order[..k], r, order[k - 1]);
  }

  lemma NewAt(node: set<Pod>, order: seq<Pod>, k: nat)
    requires AllOff(node, order) && k < |order|
    ensures order[k] !in order[..k] && order[k] !in node
  {
  }

  lemma NothingYet(node: set<Pod>, l: Ledger, order: seq<Pod>)
    ensures Partitioned(node, order[..0], Start(node, l))
  {
  }

  lemma {:induction false} RoundsPartition(rules: Rules, node: set<Pod>, l: Ledger, order: seq<Pod>, k: nat)
    requires k <= |order| && AllOff(node, order)
    ensures Partitioned(node, order[..k], Rounds(rules, Start(node, l), order, k))
    decreases k
  {
    if k == 0 {
      NothingYet(node, l, order);
    } else {
      RoundsPartition(rules, node, l, order, k - 1);
      PartitionedAt(rules, node, order, k, Rounds(rules, Start(node, l), order, k - 1));
    }
  }

  lemma AllPartition(rules: Rules, node: set<Pod>, l: Ledger, order: seq<Pod>)
    requires AllOff(node, order)
    ensures Partitioned(node, order, AllRounds(rules, Start(node, l), order))
  {
    RoundsPartition(rules, node, l, order, |order|);
    assert order[..|order|] == order;
  }

  lemma TakeNext<T>(s: seq<T>, k: nat)
    requires k < |s|
    ensures s[..k + 1] == s[..k] + [s[k]]
  {
  }

  lemma NotYetVictim(rules: Rules, node: set<Pod>, l: Ledger, order: seq<Pod>, i: nat)
    requires i < |order| && AllOff(node, order)
    ensures order[i] !in Rounds(rules, Start(node, l), order, i).victims
  {
    RoundsPartition(rules, node, l, order, i);
    VictimsFromOrder(Rounds(rules, Start(node, l), order, i).victims, order[..i]);
  }

  /** Whether a pod is a victim is decided in its own round. */
  lemma {:induction false} DecidedInTurn(rules: Rules, node: set<Pod>, l: Ledger, order: seq<Pod>, i: nat, k: nat)
    requires i < k <= |order| && AllOff(node, order)
    ensures
      var r := Rounds(rules, Start(node, l), order, i);
      order[i] in Rounds(rules, Start(node, l), order, k).victims <==> rules.breaks(r.node, r.quotas, order[i])
    decreases k
  {
    if i == k - 1 {
      NotYetVictim(rules, node, l, order, i);
    } else {
      DecidedInTurn(rules, node, l, order, i, k - 1);
    }
  }

  /** The i-th pod is taken although it fits: another rule broke. */
  ghost predicate TakenThoughFitting(rules: Rules, start: Round, order: seq<Pod>, i: nat)
    requires i < |order|
  {
    var r := Rounds(rules, start, order, i);
    rules.breaks(r.node, r.quotas, order[i]) && rules.fits(r.node, order[i])
  }

  ghost predicate SomeTakenThoughFitting(rules: Rules, start: Round, order: seq<Pod>, k: nat)
    requires k <= |order|
  {
    exists i :: 0 <= i < k && TakenThoughFitting(rules, start, order, i)
  }

  /** Every misfit is a victim; and every victim a misfit exactly if no pod was taken though it fits. */
  lemma {:induction false} MisfitsAreVictims(rules: Rules, node: set<Pod>, l: Ledger, order: seq<Pod>, k: nat)
    requires k <= |order|
    ensures
      var r := Rounds(rules, Start(node, l), order, k);
      && r.misfits <= |r.victims|
      && (r.misfits == |r.victims| <==> !SomeTakenThoughFitting(rules, Start(node, l), order, k))
    decreases k
  {
    if k > 0 {
      MisfitsAreVictims(rules, node, l, order, k - 1);
      OneMoreRound(rules, Start(node, l), order, k);
    }
  }

  lemma OneMoreRound(rules: Rules, start: Round, order: seq<Pod>, k: nat)
    requires 0 < k <= |order|
    ensures SomeTakenThoughFitting(rules, start, order, k)
            <==> SomeTakenThoughFitting(rules, start, order, k - 1) || TakenThoughFitting(rules, start, order, k - 1)
  {
  }

  lemma AppendLast<T>(a: seq<T>, b: seq<T>, x: T)
    ensures a + b + [x] == a + (b + [x])
  {
  }

  /** A pass adds only pods of its own list to the victims. */
  lemma {:induction false} VictimsAdded(rules: Rules, start: Round, list: seq<Pod>, k: nat) returns (more: seq<Pod>)
    requires k <= |list|
    ensures Rounds(rules, start, list, k).victims == start.victims + more
    ensures multiset(more) <= multiset(list[..k])
    decreases k
  {
    more := [];
    if k == 0 {
      assert start.victims + more == start.victims;
    } else {
      more := VictimsAdded(rules, start, list, k - 1);
      TakeNext(list, k - 1);
      AppendLast(start.victims, more, list[k - 1]);
      var r := Rounds(rules, start, list, k - 1);
      if rules.breaks(r.node, r.quotas, list[k - 1]) {
        more := more + [list[k - 1]];
      }
    }
  }

  /** The second pass adds only pods of its own list. */
  lemma SecondPassAdds(rules: Rules, start: Round, a: seq<Pod>, b: seq<Pod>) returns (more: seq<Pod>)
    ensures AllRounds(rules, start, a + b).victims == AllRounds(rules, start, a).victims + more
    ensures multiset(more) <= multiset(b)
  {
    RoundsConcat(rules, start, a, b, |b|);
    more := VictimsAdded(rules, AllRounds(rules, start, a), b, |b|);
    assert b[..|b|] == b;
  }

  /** How many of the victims belong to a group. */
  ghost function MembersOf(group: seq<Pod>): Pod -> int {
    (p: Pod) => if p in group then 1 else 0
  }

  lemma {:induction false} CountMembers(ps: seq<Pod>, group: seq<Pod>, inside: bool)
    requires forall p :: p in ps ==> (p in group) == inside
    ensures SumSeq(ps, MembersOf(group)) == if inside then |ps| else 0
    decreases |ps|
  {
    if ps != [] {
      CountMembers(ps[..|ps| - 1], group, inside);
    }
  }

  lemma VictimsOfGroup(first: seq<Pod>, more: seq<Pod>, a: seq<Pod>, b: seq<Pod>)
    requires multiset(first) <= multiset(a) && multiset(more) <= multiset(b)
    requires forall v :: v in b ==> v !in a
    ensures SumSeq(first + more, MembersOf(a)) == |first|
  {
    VictimsFromOrder(first, a);
    VictimsFromOrder(more, b);
    SumSeqConcat(first, more, MembersOf(a));
    CountMembers(first, a, true);
    CountMembers(more, a, false);
  }

  /** The misfits of a first pass are at most the victims of its list, and exactly these if none was taken though it fits. */
  lemma MisfitsOfFirstPass(rules: Rules, node: set<Pod>, l: Ledger, a: seq<Pod>, b: seq<Pod>)
    requires AllOff(node, a) && forall v :: v in b ==> v !in a
    ensures
      var misfits := AllRounds(rules, Start(node, l), a).misfits;
      var count := SumSeq(AllRounds(rules, Start(node, l), a + b).victims, MembersOf(a));
      misfits <= count && (misfits == count <==> !SomeTakenThoughFitting(rules, Start(node, l), a, |a|))
  {
    var more := SecondPassAdds(rules, Start(node, l), a, b);
    AllPartition(rules, node, l, a);
    MisfitsAreVictims(rules, node, l, a, |a|);
    VictimsOfGroup(AllRounds(rules, Start(node, l), a).victims, more, a, b);
  }
}
