/** Maxima over reduced axes. */
module Maxima {
  import opened Options
  import opened Sums
  import opened Shapes
  import opened IndexSums
  import opened Tensors
  import opened TensorOps
  import opened Adjoints

  /** Largest element among the first n positions whose kept coordinates are K, if any. */
  function MaxBefore(t: Tensor, mask: seq<bool>, K: Index, n: nat): Option<real>
    requires n <= Size(t.shape)
  {
    if n == 0 then None else
      var before, I := MaxBefore(t, mask, K, n - 1), Unflat(t.shape, n - 1);
      if Drop(I, mask) != K then before
      else if before.Some? && before.value >= At(t, I) then before else Some(At(t, I))
  }

  /** The maximum over the masked axes; over no elements, the given lowest value. */
  function ReduceMaximum(t: Tensor, mask: seq<bool>, lowest: real): (r: Tensor)
    ensures r.shape == Drop(t.shape, mask)
  {
    Build(Drop(t.shape, mask), (K: Index) => MaxOf(t, mask, K, lowest))
  }

  function MaxOf(t: Tensor, mask: seq<bool>, K: Index, lowest: real): real
  {
    match MaxBefore(t, mask, K, Size(t.shape))
    case None => lowest
    case Some(v) => v
  }

  /** The coordinate lies in the slice of K. */
  predicate InSlice(t: Tensor, mask: seq<bool>, K: Index, I: Index)
  {
    Valid(t.shape, I) && Drop(I, mask) == K
  }

  lemma {:induction false} MaxBeforeIs(t: Tensor, mask: seq<bool>, K: Index, n: nat)
    requires n <= Size(t.shape)
    ensures forall k: nat :: k < n && Drop(Unflat(t.shape, k), mask) == K ==>
      MaxBefore(t, mask, K, n).Some? && At(t, Unflat(t.shape, k)) <= MaxBefore(t, mask, K, n).value
    ensures MaxBefore(t, mask, K, n).Some? ==>
      exists J :: InSlice(t, mask, K, J) && At(t, J) == MaxBefore(t, mask, K, n).value
  {
    hide Size, At, Drop, Unflat, Valid;
    if n > 0 {
      MaxBeforeIs(t, mask, K, n - 1);
      var I := Unflat(t.shape, n - 1);
      if Drop(I, mask) == K {
        assert InSlice(t, mask, K, I);
      }
    }
  }

  /** The maximum of a slice bounds its elements and is one of them. */
  lemma MaximumOfSlice(t: Tensor, mask: seq<bool>, lowest: real, I: Index)
    requires |mask| == |t.shape| && Valid(t.shape, I)
    ensures At(t, I) <= At(ReduceMaximum(t, mask, lowest), Drop(I, mask))
    ensures exists J :: InSlice(t, mask, Drop(I, mask), J) && At(t, J) == At(ReduceMaximum(t, mask, lowest), Drop(I, mask))
  {
    hide Size, At, Drop, Unflat, MaxBefore;
    var K := Drop(I, mask);
    DropValid(t.shape, mask, I);
    MaxBeforeIs(t, mask, K, Size(t.shape));
    UnflatFlat(t.shape, I);
    assert Unflat(t.shape, Flat(t.shape, I)) == I;
  }

  lemma {:induction false} SumNonnegative(n: nat, f: nat -> real)
    requires forall i: nat :: i < n ==> f(i) >= 0.0
    ensures Sum(n, f) >= 0.0
  {
    if n > 0 {
      SumNonnegative(n - 1, f);
    }
  }

  /** A sum of nonnegative terms is at least any one of them. */
  lemma SumIxAtLeast(s: Shape, f: Index -> real, J: Index)
    requires Valid(s, J) && forall I :: Valid(s, I) ==> f(I) >= 0.0
    ensures SumIx(s, f) >= f(J)
  {
    hide Size, Valid, Unflat;
    var one := (I: Index) => if I == J then f(I) else 0.0;
    var rest := (I: Index) => if I == J then 0.0 else f(I);
    SumIxDelta(s, J, one);
    SumIxAdd(s, one, rest, f);
    SumNonnegative(Size(s), (k: nat) => IndexSums.Pick(s, rest, k));
  }
}
