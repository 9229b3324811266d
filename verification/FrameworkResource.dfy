/**
 The scheduler framework's resource vector and the comparisons elastic quotas make with it.
 Quantities are unbounded integers: sums never wrap around.
 */
module FrameworkResource {

  const MAX_INT64: int := 0x7FFF_FFFF_FFFF_FFFF
  const UPPER_BOUND_OF_MAX: int := MAX_INT64
  const LOWER_BOUND_OF_MIN: int := 0

  datatype Resource = Resource(
    milliCPU: int,
    memory: int,
    ephemeralStorage: int,
    allowedPodNumber: int,
    scalars: map<string, int>)

  const ZERO: Resource := Resource(0, 0, 0, 0, map[])

  /** One dimension of the vector. */
  datatype Dim = MilliCPU | Memory | EphemeralStorage | AllowedPodNumber | Scalar(name: string)

  /** A missing scalar reads as zero, as a Go map read does. */
  function Get(m: map<string, int>, k: string): int {
    if k in m then m[k] else 0
  }

  function Amount(r: Resource, d: Dim): int {
    match d
    case MilliCPU => r.milliCPU
    case Memory => r.memory
    case EphemeralStorage => r.ephemeralStorage
    case AllowedPodNumber => r.allowedPodNumber
    case Scalar(name) => Get(r.scalars, name)
  }

  function Plus(a: Resource, b: Resource): (r: Resource)
    ensures forall d :: Amount(r, d) == Amount(a, d) + Amount(b, d)
  {
    Resource(
      a.milliCPU + b.milliCPU,
      a.memory + b.memory,
      a.ephemeralStorage + b.ephemeralStorage,
      a.allowedPodNumber + b.allowedPodNumber,
      map k | k in a.scalars.Keys + b.scalars.Keys :: Get(a.scalars, k) + Get(b.scalars, k))
  }

  function Minus(a: Resource, b: Resource): (r: Resource)
    ensures forall d :: Amount(r, d) == Amount(a, d) - Amount(b, d)
  {
    Resource(
      a.milliCPU - b.milliCPU,
      a.memory - b.memory,
      a.ephemeralStorage - b.ephemeralStorage,
      a.allowedPodNumber - b.allowedPodNumber,
      map k | k in a.scalars.Keys + b.scalars.Keys :: Get(a.scalars, k) - Get(b.scalars, k))
  }

  function MaxInt(a: int, b: int): int {
    if a < b then b else a
  }

  /** Resource.SetMaxResource: raises every dimension except the pod count. */
  function RaisedTo(a: Resource, b: Resource): Resource {
    Resource(
      MaxInt(a.milliCPU, b.milliCPU),
      MaxInt(a.memory, b.memory),
      MaxInt(a.ephemeralStorage, b.ephemeralStorage),
      a.allowedPodNumber,
      map k | k in a.scalars.Keys + b.scalars.Keys ::
        if k in b.scalars then MaxInt(Get(a.scalars, k), b.scalars[k]) else Get(a.scalars, k))
  }

  ghost predicate NonNegative(r: Resource) {
    forall d :: 0 <= Amount(r, d)
  }

  /** A dimension the comparison looks at: the four native ones and the scalars its left operand names. */
  predicate Compared(x: Resource, d: Dim) {
    d.Scalar? ==> d.name in x.scalars
  }

  /** The right-hand side of the comparison in one dimension. */
  function Limit(y: Resource, d: Dim, bound: int): int {
    if d.Scalar? && d.name !in y.scalars then bound else Amount(y, d)
  }

  /** cmp2: does x1 + x2 exceed y in some compared dimension? */
  predicate Cmp2(x1: Resource, x2: Resource, y: Resource, bound: int) {
    || x1.milliCPU + x2.milliCPU > y.milliCPU
    || x1.memory + x2.memory > y.memory
    || x1.ephemeralStorage + x2.ephemeralStorage > y.ephemeralStorage
    || x1.allowedPodNumber + x2.allowedPodNumber > y.allowedPodNumber
    || exists k :: k in x1.scalars
                   && x1.scalars[k] + Get(x2.scalars, k) > (if k in y.scalars then y.scalars[k] else bound)
  }

  predicate Cmp(x: Resource, y: Resource, bound: int) {
    Cmp2(x, ZERO, y, bound)
  }

  lemma Cmp2Meaning(x1: Resource, x2: Resource, y: Resource, bound: int)
    ensures Cmp2(x1, x2, y, bound)
            <==> exists d :: Compared(x1, d) && Amount(x1, d) + Amount(x2, d) > Limit(y, d, bound)
  {
    if Cmp2(x1, x2, y, bound) {
      var d :=
        if x1.milliCPU + x2.milliCPU > y.milliCPU then MilliCPU
        else if x1.memory + x2.memory > y.memory then Memory
        else if x1.ephemeralStorage + x2.ephemeralStorage > y.ephemeralStorage then EphemeralStorage
        else if x1.allowedPodNumber + x2.allowedPodNumber > y.allowedPodNumber then AllowedPodNumber
        else
          var k :| k in x1.scalars
                   && x1.scalars[k] + Get(x2.scalars, k) > (if k in y.scalars then y.scalars[k] else bound);
          Scalar(k);
      assert Compared(x1, d) && Amount(x1, d) + Amount(x2, d) > Limit(y, d, bound);
    }
    if d :| Compared(x1, d) && Amount(x1, d) + Amount(x2, d) > Limit(y, d, bound) {
      if d.Scalar? {
        assert d.name in x1.scalars;
      }
    }
  }

  /** cmp2 is monotone in both addends when the left one names no fewer scalars. */
  lemma Cmp2Monotone(x1: Resource, x2: Resource, x1': Resource, x2': Resource, y: Resource, bound: int)
    requires Cmp2(x1, x2, y, bound)
    requires x1.scalars.Keys <= x1'.scalars.Keys
    requires forall d :: Amount(x1, d) <= Amount(x1', d)
    requires forall d :: Amount(x2, d) <= Amount(x2', d)
    ensures Cmp2(x1', x2', y, bound)
  {
    Cmp2Meaning(x1, x2, y, bound);
    Cmp2Meaning(x1', x2', y, bound);
    var d :| Compared(x1, d) && Amount(x1, d) + Amount(x2, d) > Limit(y, d, bound);
    assert Compared(x1', d) && Amount(x1', d) + Amount(x2', d) > Limit(y, d, bound);
  }

  /** Against a non-negative minimum, cmp with lower bound 0 looks at every dimension, named or not. */
  lemma CmpMinMeaning(x: Resource, y: Resource)
    requires NonNegative(y)
    ensures Cmp(x, y, LOWER_BOUND_OF_MIN) <==> exists d :: Amount(x, d) > Amount(y, d)
  {
    Cmp2Meaning(x, ZERO, y, LOWER_BOUND_OF_MIN);
    forall d | Compared(x, d)
      ensures Amount(x, d) + Amount(ZERO, d) == Amount(x, d)
    {}
    if d :| Amount(x, d) > Amount(y, d) {
      assert Compared(x, d) && Amount(x, d) + Amount(ZERO, d) > Limit(y, d, LOWER_BOUND_OF_MIN);
    }
  }
}
