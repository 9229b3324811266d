/** What the over-reserving cache holds and shows after any run, told by the steps of the run alone. */
module NrtHistory {
  import opened Options
  import opened NrtCache

  // ---- the history ----

  /** A step after which an earlier reservation of the pod no longer stands. */
  ghost predicate Ends(s: Step, node: string, key: string) {
    || Flushes(s, node)
    || (s.Unreserve? && s.node == node && s.key == key)
    || Reserves(s, node, key)
  }

  ghost predicate Reserves(s: Step, node: string, key: string) {
    s.Reserve? && s.node == node && s.key == key
  }

  /** Step i reserves for the pod, and no later step ends that. */
  ghost predicate StandsAt(steps: seq<Step>, i: nat, node: string, key: string) {
    i < |steps| && Reserves(steps[i], node, key) && forall j :: i < j < |steps| ==> !Ends(steps[j], node, key)
  }

  ghost predicate Stands(steps: seq<Step>, node: string, key: string) {
    exists i: nat :: StandsAt(steps, i, node, key)
  }

  /** The reservations that stand, with the requests they were made for. */
  ghost predicate AreStanding(steps: seq<Step>, node: string, data: Reservations) {
    && (forall key :: key in data <==> Stands(steps, node, key))
    && (forall i: nat, key :: StandsAt(steps, i, node, key) ==> key in data && data[key] == steps[i].request)
  }

  ghost predicate EverFlushed(steps: seq<Step>, node: string) {
    exists i :: 0 <= i < |steps| && Flushes(steps[i], node)
  }

  /** Step i is the last flush of the node. */
  ghost predicate LastFlushAt(steps: seq<Step>, i: nat, node: string) {
    i < |steps| && Flushes(steps[i], node) && forall j :: i < j < |steps| ==> !Flushes(steps[j], node)
  }

  /** The data of the last flush of the node, or what was there at the start. */
  ghost predicate IsLatest(nrts: map<string, seq<Zone>>, steps: seq<Step>, node: string, zones: Option<seq<Zone>>) {
    if EverFlushed(steps, node) then
      exists i: nat, u: nat ::
        LastFlushAt(steps, i, node) && DecidesAt(steps[i].updates, u, node) && zones == Some(steps[i].updates[u].1)
    else zones == if node in nrts then Some(nrts[node]) else None
  }

  /** Step i marks the node, which has data by then, and no later step flushes it. */
  ghost predicate MarkedAt(nrts: map<string, seq<Zone>>, steps: seq<Step>, i: nat, node: string) {
    && i < |steps| && steps[i] == MarkForeign(node) && (node in nrts || EverFlushed(steps[..i], node))
    && forall j :: i < j < |steps| ==> !Flushes(steps[j], node)
  }

  ghost predicate Marked(nrts: map<string, seq<Zone>>, steps: seq<Step>, node: string) {
    exists i: nat :: MarkedAt(nrts, steps, i, node)
  }

  /** Step i filtered the node out, and no later step reserves on it or flushes it. */
  ghost predicate DoubtedAt(steps: seq<Step>, i: nat, node: string) {
    && i < |steps| && steps[i] == Discard(node)
    && forall j :: i < j < |steps| ==> !Flushes(steps[j], node) && !(steps[j].Reserve? && steps[j].node == node)
  }

  ghost predicate Doubted(steps: seq<Step>, node: string) {
    exists i: nat :: DoubtedAt(steps, i, node)
  }

  // ---- one step ----

  lemma StandsNext(before: seq<Step>, s: Step, node: string, key: string)
    ensures Stands(before + [s], node, key) <==> Reserves(s, node, key) || (Stands(before, node, key) && !Ends(s, node, key))
    ensures forall i: nat :: StandsAt(before + [s], i, node, key) <==>
      if i == |before| then Reserves(s, node, key) else StandsAt(before, i, node, key) && !Ends(s, node, key)
  {
    var steps := before + [s];
    forall i: nat ensures StandsAt(steps, i, node, key) <==>
        if i == |before| then Reserves(s, node, key) else StandsAt(before, i, node, key) && !Ends(s, node, key)
    {
      if i < |before| {
        assert steps[|before|] == s && forall j :: 0 <= j < |before| ==> steps[j] == before[j];
      }
    }
    if Reserves(s, node, key) {
      assert StandsAt(steps, |before|, node, key);
    }
    if i: nat :| StandsAt(before, i, node, key) && !Ends(s, node, key) {
      assert StandsAt(steps, i, node, key);
    }
  }

  lemma ReservedNext(c: Cache, s: Step, node: string, key: string)
    ensures
      var was, now := ReservedOn(c, node), ReservedOn(Apply(c, s), node);
      && (key in now <==> Reserves(s, node, key) || (key in was && !Ends(s, node, key)))
      && (key in now ==> now[key] == if Reserves(s, node, key) then s.request else was[key])
  {
    if s.Flush? {
      FlushAllEffect(c, s.updates, node);
    }
  }

  /** After every run, the cache holds for a node exactly the reservations that stand. */
  lemma {:induction false} ReservedExactly(nrts: map<string, seq<Zone>>, steps: seq<Step>, node: string)
    ensures AreStanding(steps, node, ReservedOn(Run(Initial(nrts), steps), node))
    decreases |steps|
  {
    if steps != [] {
      var before, s := steps[..|steps| - 1], steps[|steps| - 1];
      var c := Run(Initial(nrts), before);
      ReservedExactly(nrts, before, node);
      assert steps == before + [s];
      forall key ensures key in ReservedOn(Apply(c, s), node) <==> Stands(steps, node, key) {
        StandsNext(before, s, node, key);
        ReservedNext(c, s, node, key);
      }
      forall i: nat, key | StandsAt(steps, i, node, key)
        ensures key in ReservedOn(Apply(c, s), node) && ReservedOn(Apply(c, s), node)[key] == steps[i].request
      {
        StandsNext(before, s, node, key);
        ReservedNext(c, s, node, key);
      }
    }
  }

  lemma FlushedNext(before: seq<Step>, s: Step, node: string)
    ensures EverFlushed(before + [s], node) <==> Flushes(s, node) || EverFlushed(before, node)
  {
    var steps := before + [s];
    if i :| 0 <= i < |before| && Flushes(before[i], node) {
      assert Flushes(steps[i], node);
    }
    if Flushes(s, node) {
      assert Flushes(steps[|before|], node);
    }
  }

  lemma {:induction false} SomeUpdateDecides(updates: seq<(string, seq<Zone>)>, node: string) returns (u: nat)
    requires Flushes(Flush(updates), node)
    ensures DecidesAt(updates, u, node)
    decreases |updates|
  {
    u := |updates| - 1;
    if updates[u].0 != node {
      var rest := updates[..u];
      var i :| 0 <= i < |updates| && updates[i].0 == node;
      assert rest[i].0 == node;
      u := SomeUpdateDecides(rest, node);
    }
  }

  /** What the cache stores for a node. */
  ghost function Stored(c: Cache, node: string): Option<seq<Zone>> {
    if node in c.nrts then Some(c.nrts[node]) else None
  }

  lemma LatestNext(nrts: map<string, seq<Zone>>, before: seq<Step>, s: Step, node: string, zones: Option<seq<Zone>>)
    requires IsLatest(nrts, before, node, zones) && !Flushes(s, node)
    ensures IsLatest(nrts, before + [s], node, zones)
  {
    FlushedNext(before, s, node);
    if EverFlushed(before, node) {
      var i: nat, u: nat :|
        LastFlushAt(before, i, node) && DecidesAt(before[i].updates, u, node) && zones == Some(before[i].updates[u].1);
      assert LastFlushAt(before + [s], i, node) && (before + [s])[i] == before[i];
    }
  }

  lemma LatestFlush(nrts: map<string, seq<Zone>>, before: seq<Step>, s: Step, node: string, u: nat)
    requires Flushes(s, node) && DecidesAt(s.updates, u, node)
    ensures IsLatest(nrts, before + [s], node, Some(s.updates[u].1))
  {
    FlushedNext(before, s, node);
    assert LastFlushAt(before + [s], |before|, node) && (before + [s])[|before|] == s;
  }

  lemma StoredNext(c: Cache, s: Step, node: string)
    requires !Flushes(s, node)
    ensures Stored(Apply(c, s), node) == Stored(c, node)
  {
    if s.Flush? {
      FlushAllEffect(c, s.updates, node);
    }
  }

  /** After every run, the data stored for a node is that of its last flush. */
  lemma {:induction false} StoredExactly(nrts: map<string, seq<Zone>>, steps: seq<Step>, node: string)
    ensures IsLatest(nrts, steps, node, Stored(Run(Initial(nrts), steps), node))
    decreases |steps|
  {
    if steps != [] {
      var before, s := steps[..|steps| - 1], steps[|steps| - 1];
      var c := Run(Initial(nrts), before);
      StoredExactly(nrts, before, node);
      assert steps == before + [s];
      if Flushes(s, node) {
        var u := SomeUpdateDecides(s.updates, node);
        FlushAllEffect(c, s.updates, node);
        LatestFlush(nrts, before, s, node, u);
      } else {
        StoredNext(c, s, node);
        LatestNext(nrts, before, s, node, Stored(c, node));
      }
    }
  }

  lemma MarkedNext(nrts: map<string, seq<Zone>>, before: seq<Step>, s: Step, node: string)
    ensures Marked(nrts, before + [s], node) <==>
      if s == MarkForeign(node) && (node in nrts || EverFlushed(before, node)) then true
      else Marked(nrts, before, node) && !Flushes(s, node)
  {
    var steps := before + [s];
    assert steps[..|before|] == before;
    assert steps[|before|] == s;
    if i: nat :| MarkedAt(nrts, before, i, node) && !Flushes(s, node) {
      assert before[..i] == steps[..i];
      assert MarkedAt(nrts, steps, i, node);
    }
    if s == MarkForeign(node) && (node in nrts || EverFlushed(before, node)) {
      assert MarkedAt(nrts, steps, |before|, node);
    }
    if i: nat :| MarkedAt(nrts, steps, i, node) && i < |before| {
      assert before[..i] == steps[..i] && steps[i] == before[i];
      assert MarkedAt(nrts, before, i, node);
    }
  }

  /** After every run, the nodes refused to readers are those marked since their last flush. */
  lemma {:induction false} RefusedExactly(nrts: map<string, seq<Zone>>, steps: seq<Step>, node: string)
    ensures node in Run(Initial(nrts), steps).foreign <==> Marked(nrts, steps, node)
    decreases |steps|
  {
    if steps != [] {
      var before, s := steps[..|steps| - 1], steps[|steps| - 1];
      RefusedExactly(nrts, before, node);
      StoredExactly(nrts, before, node);
      assert steps == before + [s];
      MarkedNext(nrts, before, s, node);
      if s.Flush? {
        FlushAllEffect(Run(Initial(nrts), before), s.updates, node);
      }
    }
  }

  lemma DoubtedNext(before: seq<Step>, s: Step, node: string)
    ensures Doubted(before + [s], node) <==>
      s == Discard(node) || (Doubted(before, node) && !Flushes(s, node) && !(s.Reserve? && s.node == node))
  {
    var steps := before + [s];
    assert steps[|before|] == s;
    if i: nat :| DoubtedAt(before, i, node) && !Flushes(s, node) && !(s.Reserve? && s.node == node) {
      assert DoubtedAt(steps, i, node);
    }
    if s == Discard(node) {
      assert DoubtedAt(steps, |before|, node);
    }
    if i: nat :| DoubtedAt(steps, i, node) && i < |before| {
      assert forall j :: 0 <= j < |before| ==> before[j] == steps[j];
      assert DoubtedAt(before, i, node);
    }
  }

  /** After every run, the discarded nodes are those filtered out with no later reservation or flush. */
  lemma {:induction false} DoubtedExactly(nrts: map<string, seq<Zone>>, steps: seq<Step>, node: string)
    ensures node in Run(Initial(nrts), steps).discarded <==> Doubted(steps, node)
    decreases |steps|
  {
    if steps != [] {
      var before, s := steps[..|steps| - 1], steps[|steps| - 1];
      DoubtedExactly(nrts, before, node);
      assert steps == before + [s];
      DoubtedNext(before, s, node);
      if s.Flush? {
        FlushAllEffect(Run(Initial(nrts), before), s.updates, node);
      }
    }
  }

  // ---- what a reader sees ----

  /**
   A read after any run: refused exactly on a node marked since its last flush; else the data of the last flush,
   every zone lowered by all reservations that still stand.
   */
  lemma ReadsAfterRun(nrts: map<string, seq<Zone>>, steps: seq<Step>, node: string, data: Reservations, zones: Option<seq<Zone>>, r: ReadResult)
    requires AreStanding(steps, node, data) && IsLatest(nrts, steps, node, zones)
    ensures Reads(Run(Initial(nrts), steps), node, r) <==>
      if Marked(nrts, steps, node) then r == Refused
      else if zones.None? then r == NoData
      else r.Copy? && IsLowered(zones.value, r.zones, data, data.Keys)
  {
    var c := Run(Initial(nrts), steps);
    RefusedExactly(nrts, steps, node);
    StoredExactly(nrts, steps, node);
    ReservedExactly(nrts, steps, node);
    OneStanding(steps, node, data, ReservedOn(c, node));
    OneLatest(nrts, steps, node, zones, Stored(c, node));
  }

  lemma OneStanding(steps: seq<Step>, node: string, a: Reservations, b: Reservations)
    requires AreStanding(steps, node, a) && AreStanding(steps, node, b)
    ensures a == b
  {
    forall key | key in a ensures key in b && a[key] == b[key] {
      var i: nat :| StandsAt(steps, i, node, key);
    }
    assert a.Keys == b.Keys;
  }

  lemma OneLatest(nrts: map<string, seq<Zone>>, steps: seq<Step>, node: string, a: Option<seq<Zone>>, b: Option<seq<Zone>>)
    requires IsLatest(nrts, steps, node, a) && IsLatest(nrts, steps, node, b)
    ensures a == b
  {
    if EverFlushed(steps, node) {
      var i: nat, u: nat :|
        LastFlushAt(steps, i, node) && DecidesAt(steps[i].updates, u, node) && a == Some(steps[i].updates[u].1);
      var k: nat, v: nat :|
        LastFlushAt(steps, k, node) && DecidesAt(steps[k].updates, v, node) && b == Some(steps[k].updates[v].1);
      assert i == k && u == v;
    }
  }
}
