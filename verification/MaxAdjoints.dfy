/** The recorded rule of a maximum is adjoint to its tangent. */
module MaxAdjoints {
  import opened Products
  import opened Shapes
  import opened IndexSums
  import opened Tensors
  import opened TensorOps
  import opened Adjoints
  import opened Program
  import opened Rules
  import opened Maxima
  import opened MaxRules

  lemma SliceTotalAt(t: Tensor, mask: seq<bool>, I: Index)
    requires |mask| == |t.shape| && Valid(t.shape, I)
    ensures At(SliceTotal(t, mask), I) == FiberSum(t, (J: Index) => Drop(J, mask), Drop(I, mask))
  {
    hide Size, At, Drop, FiberSum;
    UnreduceAt(TensorOps.ReduceSum(t, mask), t.shape, mask, I);
    DropValid(t.shape, mask, I);
  }

  /** Every slice has a winner. */
  lemma WinnerCount(x: Tensor, mask: seq<bool>, lowest: real, I: Index)
    requires |mask| == |x.shape| && Valid(x.shape, I)
    ensures At(SliceTotal(Winners(x, ReduceMaximum(x, mask, lowest), mask), mask), I) > 0.0
  {
    hide Size, At, Drop, Unreduce, ReduceMaximum;
    var y, K := ReduceMaximum(x, mask, lowest), Drop(I, mask);
    var w := Winners(x, y, mask);
    MaximumOfSlice(x, mask, lowest, I);
    var J :| InSlice(x, mask, K, J) && At(x, J) == At(y, K);
    UnreduceAt(y, x.shape, mask, J);
    assert At(w, J) == 1.0;
    SliceTotalAt(w, mask, I);
    var f := (M: Index) => FiberAt(w, (L: Index) => Drop(L, mask), K, M);
    forall M | Valid(x.shape, M) ensures f(M) >= 0.0 {
      assert At(w, M) == Compare(Equal, At(x, M), At(Unreduce(y, x.shape, mask), M));
    }
    SumIxAtLeast(x.shape, f, J);
    SumIxCong(x.shape, f, (M: Index) => FiberAt(w, (L: Index) => Drop(L, mask), K, M));
    assert FiberSum(w, (L: Index) => Drop(L, mask), K) == SumIx(x.shape, f);
  }

  lemma NothingUnordered(x: Tensor, mask: seq<bool>, I: Index)
    requires |mask| == |x.shape| && Valid(x.shape, I)
    ensures At(SliceTotal(C(NotEqual, x, x), mask), I) == 0.0
  {
    hide Size, At, Drop;
    SliceTotalAt(C(NotEqual, x, x), mask, I);
    SumIxZero(x.shape, (M: Index) => FiberAt(C(NotEqual, x, x), (L: Index) => Drop(L, mask), Drop(I, mask), M));
  }

  /** The rule is the spread cotangent times the winner's share. */
  lemma MaxRuleAt(e: RawEnv, x: Tensor, dy: Tensor, mask: seq<bool>, I: Index)
    requires |mask| == |x.shape| && dy.shape == Drop(x.shape, mask) && Valid(x.shape, I)
    ensures var y := ReduceMaximum(x, mask, e.lowest);
      At(MaxRule(e, x, y, dy, mask), I) == Times(At(Unreduce(dy, x.shape, mask), I), At(WinnerShare(x, y, mask), I))
  {
    hide Size, At, Drop, Unreduce, ReduceMaximum, Winners, SliceTotal, Times, Quot;
    var y := ReduceMaximum(x, mask, e.lowest);
    WinnerCount(x, mask, e.lowest, I);
    NothingUnordered(x, mask, I);
    QuotScale(At(Unreduce(dy, x.shape, mask), I), At(SliceTotal(Winners(x, y, mask), mask), I));
    TimesZero(At(Unreduce(dy, x.shape, mask), I));
  }

  /** The rule recorded for a maximum is adjoint to sharing the derivative equally among its winners. */
  lemma MaxAdjoint(e: RawEnv, x: Tensor, dy: Tensor, dx: Tensor, mask: seq<bool>)
    requires |mask| == |x.shape| && dy.shape == Drop(x.shape, mask) && dx.shape == x.shape
    ensures var y := ReduceMaximum(x, mask, e.lowest);
      Inner(dy, MaxTangent(x, y, dx, mask)) == Inner(MaxRule(e, x, y, dy, mask), dx)
  {
    hide Size, At, Drop, Unreduce, ReduceMaximum, WinnerShare, MaxRule, Times, Inner, TensorOps.ReduceSum, Hadamard;
    var y := ReduceMaximum(x, mask, e.lowest);
    var s, spread := WinnerShare(x, y, mask), Unreduce(dy, x.shape, mask);
    ReduceAdjoint(dy, Hadamard(s, dx), mask);
    forall I | Valid(x.shape, I) ensures At(MaxRule(e, x, y, dy, mask), I) == Times(At(spread, I), At(s, I)) {
      MaxRuleAt(e, x, dy, mask, I);
    }
    SlopeAdjoint(spread, s, MaxRule(e, x, y, dy, mask), dx);
  }
}
