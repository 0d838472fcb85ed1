/** NHWC max pooling and its gradient: one element of the padded window is selected and receives the cotangent. */
module MaxPooling {
  import opened Shapes
  import opened IndexSums
  import opened Tensors
  import opened TensorOps
  import opened Adjoints
  import opened Convolution
  import opened Pooling

  // ----- padded windows -----

  function Window(p: PoolOptions): Shape
  {
    [p.windowH, p.windowW]
  }

  /** Position of tap L of output O in the padded input. */
  function PaddedTap(p: PoolOptions, O: Index, L: Index): Index
  {
    if |O| == 4 && |L| == 2 then [O[0], O[1] * p.h.stride + L[0], O[2] * p.w.stride + L[1], O[3]] else []
  }

  /** Position in the input of a position in the padded input. */
  function Crop(p: PoolOptions, P: Index): Index
  {
    if |P| == 4 then [P[0], P[1] - p.h.low, P[2] - p.w.low, P[3]] else []
  }

  function Uncrop(p: PoolOptions, J: Index): Index
  {
    if |J| == 4 then [J[0], J[1] + p.h.low, J[2] + p.w.low, J[3]] else []
  }

  /** At least as large, where padding is negative infinity. */
  predicate AtLeast(x: Tensor, p: PoolOptions, P: Index, Q: Index)
  {
    !Valid(x.shape, Crop(p, Q)) || (Valid(x.shape, Crop(p, P)) && At(x, Crop(p, P)) >= At(x, Crop(p, Q)))
  }

  /** The position selected among the first n taps of a window in row-major order; an earlier one stays on a tie. */
  function Selected(x: Tensor, p: PoolOptions, O: Index, n: nat): Index
    requires 0 < n <= Size(Window(p))
  {
    var here := PaddedTap(p, O, Unflat(Window(p), n - 1));
    if n == 1 then here else
      var before := Selected(x, p, O, n - 1);
      if AtLeast(x, p, before, here) then before else here
  }

  lemma WindowSize(p: PoolOptions, x: Shape)
    requires PoolOk(p, x)
    ensures Size(Window(p)) > 0
  {
    hide Size;
    var first := [0, 0];
    assert Valid(Window(p), first);
    assert Flat(Window(p), first) < Size(Window(p));
  }

  /** Input position selected for an output; outside the input when the whole window is padding. */
  function Winner(x: Tensor, p: PoolOptions, O: Index): Index
    requires PoolOk(p, x.shape)
  {
    WindowSize(p, x.shape);
    Crop(p, Selected(x, p, O, Size(Window(p))))
  }

  // ----- the operations -----

  /** Largest element of each window; a window of padding alone gives the lowest value. */
  function MaxPool2d(x: Tensor, p: PoolOptions, lowest: real): (r: Tensor)
    requires PoolOk(p, x.shape)
    ensures r.shape == PoolShape(p, x.shape)
  {
    Build(PoolShape(p, x.shape), (O: Index) => if Valid(x.shape, Winner(x, p, O)) then At(x, Winner(x, p, O)) else lowest)
  }

  /** The tangent of the selected element. */
  function MaxPoolTangent(x: Tensor, tx: Tensor, p: PoolOptions): (r: Tensor)
    requires PoolOk(p, x.shape)
    ensures r.shape == PoolShape(p, x.shape)
  {
    Build(PoolShape(p, x.shape), (O: Index) => At(tx, Winner(x, p, O)))
  }

  /** Scatter of the cotangent into a padded position: the windows that selected it are added up. */
  function Scattered(x: Tensor, dy: Tensor, p: PoolOptions, P: Index): real
    requires PoolOk(p, x.shape)
  {
    WindowSize(p, x.shape);
    FiberSum(dy, (O: Index) => Selected(x, p, O, Size(Window(p))), P)
  }

  /** Select and scatter over the padded input, cropped back to the input. */
  function MaxPoolGradient(x: Tensor, dy: Tensor, p: PoolOptions): (r: Tensor)
    requires PoolOk(p, x.shape)
    ensures r.shape == x.shape
  {
    Build(x.shape, (J: Index) => Scattered(x, dy, p, Uncrop(p, J)))
  }

  // ----- what is selected -----

  lemma CroppedTap(p: PoolOptions, x: Shape, O: Index, L: Index)
    requires PoolOk(p, x) && |L| == 2
    ensures Crop(p, PaddedTap(p, O, L)) == PoolIx(p, O, L)
  {
  }

  /** Tap k of a window, in row-major order. */
  function TapAt(p: PoolOptions, O: Index, k: nat): Index
    requires k < Size(Window(p))
  {
    PoolIx(p, O, Unflat(Window(p), k))
  }

  /** Among the first n taps, tap k is the first largest one inside the input. */
  predicate FirstLargest(x: Tensor, p: PoolOptions, O: Index, k: nat, n: nat)
    requires k < n <= Size(Window(p))
  {
    && Valid(x.shape, TapAt(p, O, k))
    && (forall j: nat :: j < n && Valid(x.shape, TapAt(p, O, j)) ==> At(x, TapAt(p, O, j)) <= At(x, TapAt(p, O, k)))
    && (forall j: nat :: j < k && Valid(x.shape, TapAt(p, O, j)) ==> At(x, TapAt(p, O, j)) < At(x, TapAt(p, O, k)))
  }

  predicate AllPadding(x: Tensor, p: PoolOptions, O: Index, n: nat)
    requires n <= Size(Window(p))
  {
    forall j: nat :: j < n ==> !Valid(x.shape, TapAt(p, O, j))
  }

  lemma {:induction false} SelectedIs(x: Tensor, p: PoolOptions, O: Index, n: nat) returns (k: nat)
    requires PoolOk(p, x.shape) && 0 < n <= Size(Window(p))
    ensures k < n && Crop(p, Selected(x, p, O, n)) == TapAt(p, O, k)
    ensures AllPadding(x, p, O, n) || FirstLargest(x, p, O, k, n)
  {
    hide Size, Valid, At, Unflat, PoolIx, Crop, PaddedTap;
    ValidLength(Window(p), Unflat(Window(p), n - 1));
    CroppedTap(p, x.shape, O, Unflat(Window(p), n - 1));
    k := n - 1;
    if n > 1 {
      var b := SelectedIs(x, p, O, n - 1);
      if AtLeast(x, p, Selected(x, p, O, n - 1), PaddedTap(p, O, Unflat(Window(p), n - 1))) {
        k := b;
      }
    }
  }

  /** I is the first largest element of the window inside the input. */
  ghost predicate Wins(x: Tensor, p: PoolOptions, O: Index, I: Index)
  {
    exists k: nat :: k < Size(Window(p)) && I == TapAt(p, O, k) && FirstLargest(x, p, O, k, Size(Window(p)))
  }

  /** A window that meets the input selects its first largest element there, in row-major order; a window of padding selects
      nothing of the input. */
  lemma WinnerIs(x: Tensor, p: PoolOptions, O: Index)
    requires PoolOk(p, x.shape)
    ensures Valid(x.shape, Winner(x, p, O)) <==> !AllPadding(x, p, O, Size(Window(p)))
    ensures Valid(x.shape, Winner(x, p, O)) ==> Wins(x, p, O, Winner(x, p, O))
  {
    hide Size, Valid, At, Crop, Selected, TapAt;
    WindowSize(p, x.shape);
    var k := SelectedIs(x, p, O, Size(Window(p)));
  }

  /** The pooled value is the maximum of the window's elements; of none, the lowest value. */
  lemma MaxPoolIs(x: Tensor, p: PoolOptions, lowest: real, O: Index)
    requires PoolOk(p, x.shape) && Valid(PoolShape(p, x.shape), O)
    ensures AllPadding(x, p, O, Size(Window(p))) ==> At(MaxPool2d(x, p, lowest), O) == lowest
    ensures !AllPadding(x, p, O, Size(Window(p))) ==>
      exists I :: Wins(x, p, O, I) && At(MaxPool2d(x, p, lowest), O) == At(x, I)
  {
    hide Size, Valid, At, Winner, AllPadding, Wins;
    WinnerIs(x, p, O);
  }

  // ----- the gradient -----

  lemma SelectedLength(x: Tensor, p: PoolOptions, O: Index, n: nat)
    requires 0 < n <= Size(Window(p)) && |O| == 4
    ensures |Selected(x, p, O, n)| == 4
  {
    hide Size, AtLeast, Unflat;
  }

  lemma CropUncrop(p: PoolOptions, P: Index, J: Index)
    requires |P| == 4 && |J| == 4
    ensures P == Uncrop(p, J) <==> Crop(p, P) == J
  {
    if Crop(p, P) == J {
      assert Crop(p, P)[1] == P[1] - p.h.low && Crop(p, P)[2] == P[2] - p.w.low;
      assert J[0] == P[0] && J[3] == P[3];
    }
    if P == Uncrop(p, J) {
      assert P[1] == J[1] + p.h.low && P[2] == J[2] + p.w.low;
    }
  }

  /** An element receives the cotangents of exactly the windows that selected it. */
  lemma MaxPoolGradientAt(x: Tensor, dy: Tensor, p: PoolOptions, J: Index)
    requires PoolOk(p, x.shape) && dy.shape == PoolShape(p, x.shape) && Valid(x.shape, J)
    ensures At(MaxPoolGradient(x, dy, p), J) == FiberSum(dy, (O: Index) => Winner(x, p, O), J)
  {
    hide Size, At, Selected, Crop, Uncrop, Valid;
    WindowSize(p, x.shape);
    ValidLength(x.shape, J);
    var n := Size(Window(p));
    var phi, psi := (O: Index) => Selected(x, p, O, n), (O: Index) => Winner(x, p, O);
    var f, g := (O: Index) => FiberAt(dy, phi, Uncrop(p, J), O), (O: Index) => FiberAt(dy, psi, J, O);
    forall O | Valid(dy.shape, O) ensures f(O) == g(O) {
      ValidLength(dy.shape, O);
      SelectedLength(x, p, O, n);
      CropUncrop(p, Selected(x, p, O, n), J);
    }
    SumIxCong(dy.shape, f, g);
    assert Scattered(x, dy, p, Uncrop(p, J)) == SumIx(dy.shape, f);
  }

  /** Select and scatter is adjoint to reading the selected elements, for every window, stride, padding and shape. */
  lemma MaxPoolAdjoint(x: Tensor, dy: Tensor, tx: Tensor, p: PoolOptions)
    requires PoolOk(p, x.shape) && dy.shape == PoolShape(p, x.shape) && tx.shape == x.shape
    ensures Inner(dy, MaxPoolTangent(x, tx, p)) == Inner(MaxPoolGradient(x, dy, p), tx)
  {
    hide Size, At, Inner, Winner, FiberSum, Scattered;
    var psi := (O: Index) => Winner(x, p, O);
    forall J | Valid(x.shape, J) ensures At(MaxPoolGradient(x, dy, p), J) == FiberSum(dy, psi, J) {
      MaxPoolGradientAt(x, dy, p, J);
    }
    FiberAdjoint(dy, tx, MaxPoolTangent(x, tx, p), MaxPoolGradient(x, dy, p), psi);
  }
}
