/** Cumulative products and cumulative log-sum-exp. */
module Cumulative {
  import opened Products
  import opened Sums
  import opened Shapes
  import opened Tensors
  import opened TensorOps
  import opened Slabs
  import opened Folds
  import opened Scans
  import opened Affine

  /** Sequential fold along one lane of a tensor. */
  function Running(t: Tensor, axis: nat, J: Index, k: nat, g: (real, real) -> real): real
  {
    var here := At(t, Insert(J, axis, k));
    if k == 0 then here else g(Running(t, axis, J, k - 1, g), here)
  }

  lemma {:induction false} FoldRuns(t: Tensor, axis: nat, g: (real, real) -> real, J: Index, k: nat)
    requires axis < |t.shape| && k < t.shape[axis] && Valid(Without(t.shape, axis), J)
    ensures var fold := Fold(SlabsOf(t, axis)[..k + 1], Elementwise(g));
      fold.shape == Without(t.shape, axis) && At(fold, J) == Running(t, axis, J, k, g)
  {
    hide Size, At, Valid, Insert, Fold, Without;
    FoldStep(SlabsOf(t, axis), Elementwise(g), k);
    if k > 0 {
      FoldRuns(t, axis, g, J, k - 1);
    }
  }

  /** Every scan by an elementwise combination is the sequential fold of each lane. */
  lemma ScanRuns(r: Tensor, t: Tensor, axis: nat, g: (real, real) -> real, J: Index, k: nat)
    requires IsScan(r, t, axis, Elementwise(g)) && k < t.shape[axis] && Valid(Without(t.shape, axis), J)
    ensures At(r, Insert(J, axis, k)) == Running(t, axis, J, k, g)
  {
    hide Size, At, Valid, Insert, Fold;
    FoldRuns(t, axis, g, J, k);
    assert Slab(r, axis, k) == Fold(SlabsOf(t, axis)[..k + 1], Elementwise(g));
  }

  // ----- cumulative products -----

  function Multiply(): (real, real) -> real
  {
    (x: real, y: real) => Times(x, y)
  }

  function Cumprod(t: Tensor, axis: nat): (r: Tensor)
    requires axis < |t.shape|
    ensures r.shape == t.shape
  {
    ElementwiseSlabs(Multiply(), axis, []);
    PrefixTree(t, axis, Elementwise(Multiply()))
  }

  /** Each entry is the product of its lane up to and including itself. */
  lemma CumprodMultiplies(t: Tensor, axis: nat, J: Index, k: nat)
    requires axis < |t.shape| && k < t.shape[axis] && Valid(Without(t.shape, axis), J)
    ensures At(Cumprod(t, axis), Insert(J, axis, k)) == Running(t, axis, J, k, Multiply())
  {
    hide Size, At, Valid, Insert, IsScan, PrefixTree, Slabwise, KeepsShape, Associative, Elementwise, Times, Running;
    var g, slab := Multiply(), Without(t.shape, axis);
    MultiplyMonoid();
    ElementwiseSlabs(g, axis, slab);
    ElementwiseAssociative(g, slab);
    PrefixTreeScans(t, axis, Elementwise(g), Elementwise(g));
    ScanRuns(Cumprod(t, axis), t, axis, g, J, k);
  }

  lemma MultiplyMonoid()
    ensures ScalarMonoid(Multiply())
  {
    hide Times;
    forall x: real, y: real, z: real ensures Times(Times(x, y), z) == Times(x, Times(y, z)) {
      TimesAssoc(x, y, z);
    }
  }

  // ----- cumulative log-sum-exp -----

  datatype Exponential = Exponential(exp: real -> real, log: real -> real)

  ghost predicate Mutual(e: Exponential)
  {
    && (forall x: real :: e.exp(x) > 0.0)
    && (forall x: real :: e.log(e.exp(x)) == x)
    && (forall y: real :: y > 0.0 ==> e.exp(e.log(y)) == y)
  }

  ghost predicate Additive(e: Exponential)
  {
    forall x: real, y: real :: e.exp(x + y) == Times(e.exp(x), e.exp(y))
  }

  lemma ExpSum(e: Exponential, x: real, y: real)
    requires Additive(e)
    ensures e.exp(x + y) == Times(e.exp(x), e.exp(y))
  {
  }

  lemma ExpLog(e: Exponential, x: real)
    requires Mutual(e)
    ensures e.exp(x) > 0.0 && e.log(e.exp(x)) == x && (x > 0.0 ==> e.exp(e.log(x)) == x)
  {
  }

  /** max(x, y) + log(1 + exp(-|x - y|)). */
  function StableLogSum(e: Exponential, x: real, y: real): real
  {
    var maximum := if x >= y then x else y;
    var distance := if x >= y then x - y else y - x;
    maximum + e.log(1.0 + e.exp(-distance))
  }

  function LogAddExp(e: Exponential): (real, real) -> real
  {
    (x: real, y: real) => StableLogSum(e, x, y)
  }

  lemma FactorOut(e: Exponential, high: real, low: real)
    requires Mutual(e) && Additive(e)
    ensures high + e.log(1.0 + e.exp(low - high)) == e.log(e.exp(high) + e.exp(low))
  {
    hide Times, Additive, Mutual;
    var d := low - high;
    var s := 1.0 + e.exp(d);
    // exp(high + log s) == exp(high) s == exp(high) + exp(low)
    ExpLog(e, d);
    ExpLog(e, s);
    ExpLog(e, high + e.log(s));
    ExpSum(e, high, e.log(s));
    TimesAdd(e.exp(high), 1.0, e.exp(d));
    ExpSum(e, high, d);
    assert high + d == low;
    TimesOne(e.exp(high));
  }

  /** The stable form is the logarithm of the sum of exponentials. */
  lemma LogAddExpIs(e: Exponential, x: real, y: real)
    requires Mutual(e) && Additive(e)
    ensures LogAddExp(e)(x, y) == e.log(e.exp(x) + e.exp(y))
  {
    hide Additive, Mutual;
    var high, low := if x >= y then x else y, if x >= y then y else x;
    FactorOut(e, high, low);
    assert StableLogSum(e, x, y) == high + e.log(1.0 + e.exp(low - high)) by {
      assert -(high - low) == low - high;
    }
    assert e.exp(high) + e.exp(low) == e.exp(x) + e.exp(y);
  }

  lemma TimesOne(a: real)
    ensures Times(a, 1.0) == a
  {
  }

  lemma LogAddExpMonoid(e: Exponential)
    requires Mutual(e) && Additive(e)
    ensures ScalarMonoid(LogAddExp(e))
    ensures forall x: real, y: real :: LogAddExp(e)(x, y) == LogAddExp(e)(y, x)
  {
    hide LogAddExp, Additive;
    var g := LogAddExp(e);
    forall x: real, y: real, z: real ensures g(g(x, y), z) == g(x, g(y, z)) {
      LogAddExpIs(e, x, y);
      LogAddExpIs(e, g(x, y), z);
      LogAddExpIs(e, y, z);
      LogAddExpIs(e, x, g(y, z));
    }
    forall x: real, y: real ensures g(x, y) == g(y, x) {
      LogAddExpIs(e, x, y);
      LogAddExpIs(e, y, x);
    }
  }

  lemma ElementwiseCommutative(g: (real, real) -> real, slab: Shape)
    requires forall x: real, y: real :: g(x, y) == g(y, x)
    ensures Commutative(Elementwise(g), OfShape(slab))
  {
    hide Size, At;
    forall a: Tensor, b: Tensor | a.shape == b.shape == slab ensures Elementwise(g)(a, b) == Elementwise(g)(b, a) {
      Ext(Zip(a, b, g), Zip(b, a, g));
    }
  }

  function ExpAt(e: Exponential, t: Tensor, axis: nat, J: Index, k: nat): real
  {
    e.exp(At(t, Insert(J, axis, k)))
  }

  lemma {:induction false} RunningLogSum(e: Exponential, t: Tensor, axis: nat, J: Index, k: nat)
    requires Mutual(e) && Additive(e)
    ensures e.exp(Running(t, axis, J, k, LogAddExp(e))) == Sum(k + 1, (j: nat) => ExpAt(e, t, axis, J, j))
  {
    hide LogAddExp, Additive, At;
    if k > 0 {
      RunningLogSum(e, t, axis, J, k - 1);
      LogAddExpIs(e, Running(t, axis, J, k - 1, LogAddExp(e)), At(t, Insert(J, axis, k)));
    }
  }

  /** The cumulative log-sum-exp by doubling. */
  method LogCumsumexp(e: Exponential, t: Tensor, axis: nat) returns (result: Tensor)
    requires Mutual(e) && Additive(e) && axis < |t.shape| && t.shape[axis] < 0x8000_0000_0000_0000
    ensures KeepsShape(Elementwise(LogAddExp(e))) && result == PrefixTree(t, axis, Elementwise(LogAddExp(e)))
    ensures forall J, k: nat :: Valid(Without(t.shape, axis), J) && k < t.shape[axis] ==>
      e.exp(At(result, Insert(J, axis, k))) == Sum(k + 1, (j: nat) => ExpAt(e, t, axis, J, j))
  {
    hide Size, At, Valid, Insert, IsScan, PrefixTree, Slabwise, KeepsShape, Associative, Commutative, Elementwise, LogAddExp,
      Running, Additive, Mutual, Without;
    var g := LogAddExp(e);
    LogAddExpMonoid(e);
    ElementwiseSlabs(g, axis, Without(t.shape, axis));
    ElementwiseAssociative(g, Without(t.shape, axis));
    ElementwiseCommutative(g, Without(t.shape, axis));
    result := DoublingScan(t, axis, Elementwise(g), Elementwise(g));
    forall J, k: nat | Valid(Without(t.shape, axis), J) && k < t.shape[axis]
      ensures e.exp(At(result, Insert(J, axis, k))) == Sum(k + 1, (j: nat) => ExpAt(e, t, axis, J, j))
    {
      ScanRuns(result, t, axis, g, J, k);
      RunningLogSum(e, t, axis, J, k);
    }
  }
}
