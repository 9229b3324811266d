/** Finite sums over sets and sequences, the arithmetic every conservation law of the project rests on. */
module Sums {

  /** Sum of f over a finite set; the order in which elements are picked is irrelevant (SumSetPick). */
  ghost function SumSet<T(!new)>(s: set<T>, f: T -> int): int
  {
    if s == {} then 0 else
      var x :| x in s;
      f(x) + SumSet(s - {x}, f)
  }

  /** Any element can be the one split off. */
  lemma {:induction false} SumSetPick<T(!new)>(s: set<T>, x: T, f: T -> int)
    requires x in s
    ensures SumSet(s, f) == f(x) + SumSet(s - {x}, f)
    decreases |s|
  {
    var y :| y in s && SumSet(s, f) == f(y) + SumSet(s - {y}, f);
    if y != x {
      SumSetPick(s - {y}, x, f);
      assert s - {y} - {x} == s - {x} - {y};
      SumSetPick(s - {x}, y, f);
    }
  }

  lemma SumSetInsert<T(!new)>(s: set<T>, x: T, f: T -> int)
    requires x !in s
    ensures SumSet(s + {x}, f) == SumSet(s, f) + f(x)
  {
    SumSetPick(s + {x}, x, f);
    assert s + {x} - {x} == s;
  }

  /** Pointwise comparison on the summed set lifts to the sums. */
  lemma {:induction false} SumSetLeq<T(!new)>(s: set<T>, f: T -> int, g: T -> int)
    requires forall x :: x in s ==> f(x) <= g(x)
    ensures SumSet(s, f) <= SumSet(s, g)
    decreases |s|
  {
    if s != {} {
      var x :| x in s;
      SumSetPick(s, x, f);
      SumSetPick(s, x, g);
      SumSetLeq(s - {x}, f, g);
    }
  }

  lemma SumSetEq<T(!new)>(s: set<T>, f: T -> int, g: T -> int)
    requires forall x :: x in s ==> f(x) == g(x)
    ensures SumSet(s, f) == SumSet(s, g)
  {
    SumSetLeq(s, f, g);
    SumSetLeq(s, g, f);
  }

  lemma {:induction false} SumSetNonNegative<T(!new)>(s: set<T>, f: T -> int)
    requires forall x :: x in s ==> 0 <= f(x)
    ensures 0 <= SumSet(s, f)
    decreases |s|
  {
    if s != {} {
      var x :| x in s;
      SumSetPick(s, x, f);
      SumSetNonNegative(s - {x}, f);
    }
  }

  /** A sum of non-negative terms grows with the set. */
  lemma {:induction false} SumSetSubset<T(!new)>(s: set<T>, t: set<T>, f: T -> int)
    requires s <= t
    requires forall x :: x in t ==> 0 <= f(x)
    ensures SumSet(s, f) <= SumSet(t, f)
    decreases |t|
  {
    if s != t {
      var x :| x in t && x !in s;
      SumSetPick(t, x, f);
      SumSetSubset(s, t - {x}, f);
    }
  }

  lemma {:induction false} SumSetSplit<T(!new)>(a: set<T>, b: set<T>, f: T -> int)
    requires a !! b
    ensures SumSet(a + b, f) == SumSet(a, f) + SumSet(b, f)
    decreases |b|
  {
    if b == {} {
      assert a + b == a;
    } else {
      var x :| x in b;
      SumSetPick(b, x, f);
      SumSetPick(a + b, x, f);
      assert a + b - {x} == a + (b - {x});
      SumSetSplit(a, b - {x}, f);
    }
  }

  /** Sum of f over a sequence, taken from its end so that it extends with the sequence. */
  ghost function SumSeq<T>(s: seq<T>, f: T -> int): int
  {
    if s == [] then 0 else SumSeq(s[..|s| - 1], f) + f(s[|s| - 1])
  }

  lemma SumSeqAppend<T>(s: seq<T>, x: T, f: T -> int)
    ensures SumSeq(s + [x], f) == SumSeq(s, f) + f(x)
  {
    assert (s + [x])[..|s|] == s;
  }

  lemma {:induction false} SumSeqConcat<T>(s: seq<T>, t: seq<T>, f: T -> int)
    ensures SumSeq(s + t, f) == SumSeq(s, f) + SumSeq(t, f)
    decreases |t|
  {
    if t == [] {
      assert s + t == s;
    } else {
      var init := t[..|t| - 1];
      assert s + t == (s + init) + [t[|t| - 1]];
      SumSeqAppend(s + init, t[|t| - 1], f);
      SumSeqConcat(s, init, f);
    }
  }

  lemma {:induction false} SumSeqNonNegative<T>(s: seq<T>, f: T -> int)
    requires forall x :: x in s ==> 0 <= f(x)
    ensures 0 <= SumSeq(s, f)
    decreases |s|
  {
    if s != [] {
      SumSeqNonNegative(s[..|s| - 1], f);
    }
  }

  /** Every term of a sum of non-negative terms is at most the sum. */
  lemma {:induction false} SumSeqTerm<T>(s: seq<T>, i: nat, f: T -> int)
    requires i < |s|
    requires forall x :: x in s ==> 0 <= f(x)
    ensures f(s[i]) <= SumSeq(s, f)
    decreases |s|
  {
    var init := s[..|s| - 1];
    if i < |init| {
      SumSeqTerm(init, i, f);
    } else {
      SumSeqNonNegative(init, f);
    }
  }

  lemma CancelOne<T>(a: seq<T>, x: T, front: seq<T>, back: seq<T>)
    requires multiset(a + [x]) == multiset((front + [x]) + back)
    ensures multiset(a) == multiset(front + back)
  {
    var m, n := multiset(a), multiset(front + back);
    assert m + multiset{x} == n + multiset{x};
    forall y ensures m[y] == n[y] {
      assert (m + multiset{x})[y] == (n + multiset{x})[y];
    }
  }

  /** The order of the terms does not matter. */
  lemma {:induction false} SumSeqPermutation<T>(a: seq<T>, b: seq<T>, f: T -> int)
    requires multiset(a) == multiset(b)
    ensures SumSeq(a, f) == SumSeq(b, f)
    decreases |a|
  {
    if a == [] {
      assert |multiset(b)| == 0;
      assert b == [];
    } else {
      var a', x := a[..|a| - 1], a[|a| - 1];
      assert x in multiset(b);
      var i :| 0 <= i < |b| && b[i] == x;
      var front, back := b[..i], b[i + 1..];
      assert a == a' + [x] && b == (front + [x]) + back;
      CancelOne(a', x, front, back);
      SumSeqPermutation(a', front + back, f);
      SumSeqConcat(front, back, f);
      SumSeqConcat(front + [x], back, f);
      SumSeqAppend(front, x, f);
    }
  }
}
