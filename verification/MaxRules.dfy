/** The tangent and the reverse rule of a maximum: the derivative is shared equally among the winners. */
module MaxRules {
  import opened Shapes
  import opened Tensors
  import opened TensorOps
  import opened Adjoints
  import opened Program

  /** The winners of every slice. */
  function Winners(x: Tensor, y: Tensor, mask: seq<bool>): (r: Tensor)
    requires |mask| == |x.shape| && y.shape == Drop(x.shape, mask)
    ensures r.shape == x.shape
  {
    C(Equal, x, Unreduce(y, x.shape, mask))
  }

  /** Slice totals, spread back over the slice. */
  function SliceTotal(t: Tensor, mask: seq<bool>): (r: Tensor)
    requires |mask| == |t.shape|
    ensures r.shape == t.shape
  {
    Unreduce(TensorOps.ReduceSum(t, mask), t.shape, mask)
  }

  /** One over the number of winners at a winner, zero elsewhere. */
  function WinnerShare(x: Tensor, y: Tensor, mask: seq<bool>): (r: Tensor)
    requires |mask| == |x.shape| && y.shape == Drop(x.shape, mask)
    ensures r.shape == x.shape
  {
    var w := Winners(x, y, mask);
    Choose(w, B(Div, Fill(x.shape, 1.0), SliceTotal(w, mask)), Fill(x.shape, 0.0))
  }

  function MaxTangent(x: Tensor, y: Tensor, dx: Tensor, mask: seq<bool>): (r: Tensor)
    requires |mask| == |x.shape| && y.shape == Drop(x.shape, mask) && dx.shape == x.shape
    ensures r.shape == y.shape
  {
    TensorOps.ReduceSum(Hadamard(WinnerShare(x, y, mask), dx), mask)
  }

  /** What is recorded: the cotangent over the winner count at winners, and the not-a-number literal for slices that hold
      one or have no winner. */
  function MaxRule(e: RawEnv, x: Tensor, y: Tensor, dy: Tensor, mask: seq<bool>): (r: Tensor)
    requires |mask| == |x.shape| && y.shape == dy.shape == Drop(x.shape, mask)
    ensures r.shape == x.shape
  {
    var zero, nan := Fill(x.shape, 0.0), Fill(x.shape, e.nan);
    var w := Winners(x, y, mask);
    var count, unordered := SliceTotal(w, mask), SliceTotal(C(NotEqual, x, x), mask);
    var selected := Choose(w, B(Div, Unreduce(dy, x.shape, mask), count), zero);
    Choose(C(Greater, unordered, zero), nan, Choose(C(Greater, count, zero), selected, nan))
  }
}
