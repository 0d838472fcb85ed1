/** The operations the reverse sweep records for each node, and that they compute the reverse rules. */
module RuleRecipes {
  import opened Products
  import opened Shapes
  import opened Tensors
  import opened TensorOps
  import opened Adjoints
  import opened Program
  import opened Rules
  import opened NodeRules
  import opened Recipes
  import opened MaxRules
  import Convolution
  import MaxPooling
  import Pooling

  // ----- elementwise operations -----

  function AbsRecipe(x: Expr, dy: Expr, zero: Expr, nan: Expr): Expr
  {
    SelectOf(CompareOf(Greater, x, zero), dy,
             SelectOf(CompareOf(Less, x, zero), UnaryOf(Neg, dy), SelectOf(CompareOf(Equal, x, zero), zero, nan)))
  }

  /** The expression recorded for the operand of an elementwise function. */
  function UnaryRecipe(f: Fn, x: Expr, y: Expr, dy: Expr): Expr
  {
    var zero := FillOf(0.0, x.dims);
    match f
    case Neg => UnaryOf(Neg, dy)
    case Abs => AbsRecipe(x, dy, zero, SpreadOf(KnownOf(NaN), x.dims))
    case Relu => SelectOf(CompareOf(Greater, x, zero), dy, zero)
    case Sin => BinaryOf(Mul, dy, UnaryOf(Cos, x))
    case Cos => UnaryOf(Neg, BinaryOf(Mul, dy, UnaryOf(Sin, x)))
    case Erf => BinaryOf(Mul, BinaryOf(Mul, dy, UnaryOf(Exp, UnaryOf(Neg, BinaryOf(Mul, x, x)))),
                         SpreadOf(KnownOf(TwoOverRootPi), dy.dims))
    case Exp => BinaryOf(Mul, dy, y)
    case Log => BinaryOf(Div, dy, x)
    case Log1p => BinaryOf(Div, dy, AddScalarOf(x, 1.0))
    case Expm1 => BinaryOf(Mul, dy, UnaryOf(Exp, x))
    case Sqrt => MulScalarOf(BinaryOf(Div, dy, y), 0.5)
    case Rsqrt => MulScalarOf(BinaryOf(Mul, dy, BinaryOf(Mul, BinaryOf(Mul, y, y), y)), -0.5)
    case Tanh => BinaryOf(Mul, dy, AddScalarOf(UnaryOf(Neg, BinaryOf(Mul, y, y)), 1.0))
    case Softplus => BinaryOf(Mul, dy, UnaryOf(Sigmoid, x))
    case Sigmoid => BinaryOf(Mul, BinaryOf(Mul, dy, y), UnaryOf(Sigmoid, UnaryOf(Neg, x)))
    case _ => zero
  }

  lemma AbsYields(w: World, x: Expr, dy: Expr, X: Tensor, DY: Tensor)
    requires Yields(w, x, X) && Yields(w, dy, DY) && X.shape == DY.shape
    ensures Yields(w, UnaryRecipe(Abs, x, x, dy), UnaryRule(w.env, Abs, X, X, DY))
  {
    hide Size, Yields, Fill, U, B, C, Choose, UnaryOf, CompareOf, SelectOf, FillOf, SpreadOf, KnownOf;
    YieldsDims(w, x, X);
    var zero, nan := Fill(X.shape, 0.0), Fill(X.shape, w.env.nan);
    var z, n := FillOf(0.0, X.shape), SpreadOf(KnownOf(NaN), X.shape);
    FillYields(w, 0.0, X.shape);
    KnownYields(w, NaN, X.shape);
    CompareYields(w, Equal, x, z, X, zero);
    CompareYields(w, Less, x, z, X, zero);
    CompareYields(w, Greater, x, z, X, zero);
    UnaryYields(w, Neg, dy, DY);
    var inner := Choose(C(Equal, X, zero), zero, nan);
    SelectYields(w, CompareOf(Equal, x, z), z, n, C(Equal, X, zero), zero, nan);
    SelectYields(w, CompareOf(Less, x, z), UnaryOf(Neg, dy), SelectOf(CompareOf(Equal, x, z), z, n), C(Less, X, zero), U(w.env, Neg, DY), inner);
    SelectYields(w, CompareOf(Greater, x, z), dy, SelectOf(CompareOf(Less, x, z), UnaryOf(Neg, dy), SelectOf(CompareOf(Equal, x, z), z, n)),
                 C(Greater, X, zero), DY, Choose(C(Less, X, zero), U(w.env, Neg, DY), inner));
  }

  lemma SmoothYields(w: World, f: Fn, x: Expr, y: Expr, dy: Expr, X: Tensor, Y: Tensor, DY: Tensor)
    requires Yields(w, x, X) && Yields(w, y, Y) && Yields(w, dy, DY) && X.shape == Y.shape == DY.shape
    requires f.Sqrt? || f.Rsqrt? || f.Tanh? || f.Sigmoid? || f.Exp?
    ensures Yields(w, UnaryRecipe(f, x, y, dy), UnaryRule(w.env, f, X, Y, DY))
  {
    hide Size, Yields, Fill, U, B, C, Choose, UnaryOf, BinaryOf, CompareOf, SelectOf, FillOf, SpreadOf, KnownOf,
      AddScalarOf, MulScalarOf, AddScalar, MulScalar;
    var e := w.env;
    BinaryYields(w, Mul, y, y, Y, Y);
    match f
    case Sqrt =>
      BinaryYields(w, Div, dy, y, DY, Y);
      ScalarOpsYield(w, BinaryOf(Div, dy, y), 0.5, B(Div, DY, Y));
    case Rsqrt =>
      BinaryYields(w, Mul, BinaryOf(Mul, y, y), y, B(Mul, Y, Y), Y);
      BinaryYields(w, Mul, dy, BinaryOf(Mul, BinaryOf(Mul, y, y), y), DY, B(Mul, B(Mul, Y, Y), Y));
      ScalarOpsYield(w, BinaryOf(Mul, dy, BinaryOf(Mul, BinaryOf(Mul, y, y), y)), -0.5, B(Mul, DY, B(Mul, B(Mul, Y, Y), Y)));
    case Tanh =>
      UnaryYields(w, Neg, BinaryOf(Mul, y, y), B(Mul, Y, Y));
      ScalarOpsYield(w, UnaryOf(Neg, BinaryOf(Mul, y, y)), 1.0, U(e, Neg, B(Mul, Y, Y)));
      BinaryYields(w, Mul, dy, AddScalarOf(UnaryOf(Neg, BinaryOf(Mul, y, y)), 1.0), DY, AddScalar(U(e, Neg, B(Mul, Y, Y)), 1.0));
    case Sigmoid =>
      UnaryYields(w, Neg, x, X);
      UnaryYields(w, Sigmoid, UnaryOf(Neg, x), U(e, Neg, X));
      BinaryYields(w, Mul, dy, y, DY, Y);
      BinaryYields(w, Mul, BinaryOf(Mul, dy, y), UnaryOf(Sigmoid, UnaryOf(Neg, x)), B(Mul, DY, Y), U(e, Sigmoid, U(e, Neg, X)));
    case Exp => BinaryYields(w, Mul, dy, y, DY, Y);
  }

  lemma UnaryRecipeYields(w: World, f: Fn, x: Expr, y: Expr, dy: Expr, X: Tensor, Y: Tensor, DY: Tensor)
    requires Yields(w, x, X) && Yields(w, y, Y) && Yields(w, dy, DY) && X.shape == Y.shape == DY.shape
    ensures Yields(w, UnaryRecipe(f, x, y, dy), UnaryRule(w.env, f, X, Y, DY))
  {
    hide Size, Yields, Fill, U, B, C, Choose, UnaryOf, BinaryOf, CompareOf, SelectOf, FillOf, SpreadOf, KnownOf,
      AddScalarOf, MulScalarOf, AddScalar;
    var e := w.env;
    YieldsDims(w, x, X);
    YieldsDims(w, dy, DY);
    FillYields(w, 0.0, X.shape);
    match f
    case Neg => UnaryYields(w, Neg, dy, DY);
    case Abs => AbsYields(w, x, dy, X, DY);
    case Relu =>
      CompareYields(w, Greater, x, FillOf(0.0, X.shape), X, Fill(X.shape, 0.0));
      SelectYields(w, CompareOf(Greater, x, FillOf(0.0, X.shape)), dy, FillOf(0.0, X.shape),
                   C(Greater, X, Fill(X.shape, 0.0)), DY, Fill(X.shape, 0.0));
    case Sin =>
      UnaryYields(w, Cos, x, X);
      BinaryYields(w, Mul, dy, UnaryOf(Cos, x), DY, U(e, Cos, X));
    case Cos =>
      UnaryYields(w, Sin, x, X);
      BinaryYields(w, Mul, dy, UnaryOf(Sin, x), DY, U(e, Sin, X));
      UnaryYields(w, Neg, BinaryOf(Mul, dy, UnaryOf(Sin, x)), B(Mul, DY, U(e, Sin, X)));
    case Erf =>
      BinaryYields(w, Mul, x, x, X, X);
      UnaryYields(w, Neg, BinaryOf(Mul, x, x), B(Mul, X, X));
      UnaryYields(w, Exp, UnaryOf(Neg, BinaryOf(Mul, x, x)), U(e, Neg, B(Mul, X, X)));
      var g, G := UnaryOf(Exp, UnaryOf(Neg, BinaryOf(Mul, x, x))), U(e, Exp, U(e, Neg, B(Mul, X, X)));
      BinaryYields(w, Mul, dy, g, DY, G);
      KnownYields(w, TwoOverRootPi, DY.shape);
      BinaryYields(w, Mul, BinaryOf(Mul, dy, g), SpreadOf(KnownOf(TwoOverRootPi), DY.shape), B(Mul, DY, G), Fill(DY.shape, e.twoOverRootPi));
    case Log => BinaryYields(w, Div, dy, x, DY, X);
    case Log1p =>
      ScalarOpsYield(w, x, 1.0, X);
      BinaryYields(w, Div, dy, AddScalarOf(x, 1.0), DY, AddScalar(X, 1.0));
    case Expm1 =>
      UnaryYields(w, Exp, x, X);
      BinaryYields(w, Mul, dy, UnaryOf(Exp, x), DY, U(e, Exp, X));
    case Softplus =>
      UnaryYields(w, Sigmoid, x, X);
      BinaryYields(w, Mul, dy, UnaryOf(Sigmoid, x), DY, U(e, Sigmoid, X));
    case Floor =>
    case Ceil =>
    case Round =>
    case RoundTiesEven =>
    case _ => SmoothYields(w, f, x, y, dy, X, Y, DY);
  }

  /** Ties split the cotangent evenly; anything unordered gets the not-a-number literal. */
  function TieRecipe(left: Expr, right: Expr, x: Expr, y: Expr, dy: Expr): (Expr, Expr)
  {
    var zero := FillOf(0.0, x.dims);
    var tie := SelectOf(CompareOf(Equal, x, y), MulScalarOf(dy, 0.5), SpreadOf(KnownOf(NaN), x.dims));
    (SelectOf(left, dy, SelectOf(right, zero, tie)), SelectOf(right, dy, SelectOf(left, zero, tie)))
  }

  function BinaryRecipe(b: BinaryOp, x: Expr, y: Expr, dy: Expr): (Expr, Expr)
  {
    match b
    case Add => (dy, dy)
    case Sub => (dy, UnaryOf(Neg, dy))
    case Mul => (BinaryOf(Mul, dy, y), BinaryOf(Mul, dy, x))
    case Div => (BinaryOf(Div, dy, y), UnaryOf(Neg, BinaryOf(Div, BinaryOf(Mul, dy, BinaryOf(Div, x, y)), y)))
    case Maximum => TieRecipe(CompareOf(Greater, x, y), CompareOf(Less, x, y), x, y, dy)
    case Minimum => TieRecipe(CompareOf(Less, x, y), CompareOf(Greater, x, y), x, y, dy)
  }

  lemma TieYields(w: World, l: Expr, r: Expr, x: Expr, y: Expr, dy: Expr, L: Tensor, R: Tensor, X: Tensor, Y: Tensor, DY: Tensor)
    requires Yields(w, l, L) && Yields(w, r, R) && Yields(w, x, X) && Yields(w, y, Y) && Yields(w, dy, DY)
    requires L.shape == R.shape == X.shape == Y.shape == DY.shape
    ensures Yields(w, TieRecipe(l, r, x, y, dy).0, TieRule(w.env, L, R, X, Y, DY).0)
    ensures Yields(w, TieRecipe(l, r, x, y, dy).1, TieRule(w.env, L, R, X, Y, DY).1)
  {
    hide Size, Yields, Fill, C, Choose, CompareOf, SelectOf, FillOf, SpreadOf, KnownOf, MulScalarOf, MulScalar, AddScalar, AddScalarOf;
    YieldsDims(w, x, X);
    var zero, nan := Fill(X.shape, 0.0), Fill(X.shape, w.env.nan);
    var z, n := FillOf(0.0, X.shape), SpreadOf(KnownOf(NaN), X.shape);
    FillYields(w, 0.0, X.shape);
    KnownYields(w, NaN, X.shape);
    CompareYields(w, Equal, x, y, X, Y);
    ScalarOpsYield(w, dy, 0.5, DY);
    var t, T := SelectOf(CompareOf(Equal, x, y), MulScalarOf(dy, 0.5), n), Choose(C(Equal, X, Y), MulScalar(DY, 0.5), nan);
    SelectYields(w, CompareOf(Equal, x, y), MulScalarOf(dy, 0.5), n, C(Equal, X, Y), MulScalar(DY, 0.5), nan);
    SelectYields(w, r, z, t, R, zero, T);
    SelectYields(w, l, z, t, L, zero, T);
    SelectYields(w, l, dy, SelectOf(r, z, t), L, DY, Choose(R, zero, T));
    SelectYields(w, r, dy, SelectOf(l, z, t), R, DY, Choose(L, zero, T));
  }

  lemma BinaryRecipeYields(w: World, b: BinaryOp, x: Expr, y: Expr, dy: Expr, X: Tensor, Y: Tensor, DY: Tensor)
    requires Yields(w, x, X) && Yields(w, y, Y) && Yields(w, dy, DY) && X.shape == Y.shape == DY.shape
    ensures Yields(w, BinaryRecipe(b, x, y, dy).0, BinaryRule(w.env, b, X, Y, DY).0)
    ensures Yields(w, BinaryRecipe(b, x, y, dy).1, BinaryRule(w.env, b, X, Y, DY).1)
  {
    hide Size, Yields, U, B, C, UnaryOf, BinaryOf, CompareOf, TieRecipe, TieRule;
    match b
    case Add =>
    case Sub => UnaryYields(w, Neg, dy, DY);
    case Mul =>
      BinaryYields(w, Mul, dy, y, DY, Y);
      BinaryYields(w, Mul, dy, x, DY, X);
    case Div =>
      BinaryYields(w, Div, dy, y, DY, Y);
      BinaryYields(w, Div, x, y, X, Y);
      BinaryYields(w, Mul, dy, BinaryOf(Div, x, y), DY, B(Div, X, Y));
      BinaryYields(w, Div, BinaryOf(Mul, dy, BinaryOf(Div, x, y)), y, B(Mul, DY, B(Div, X, Y)), Y);
      UnaryYields(w, Neg, BinaryOf(Div, BinaryOf(Mul, dy, BinaryOf(Div, x, y)), y), B(Div, B(Mul, DY, B(Div, X, Y)), Y));
    case Maximum =>
      CompareYields(w, Greater, x, y, X, Y);
      CompareYields(w, Less, x, y, X, Y);
      TieYields(w, CompareOf(Greater, x, y), CompareOf(Less, x, y), x, y, dy, C(Greater, X, Y), C(Less, X, Y), X, Y, DY);
    case Minimum =>
      CompareYields(w, Greater, x, y, X, Y);
      CompareYields(w, Less, x, y, X, Y);
      TieYields(w, CompareOf(Less, x, y), CompareOf(Greater, x, y), x, y, dy, C(Less, X, Y), C(Greater, X, Y), X, Y, DY);
  }

  // ----- maxima -----

  function SliceTotalOf(x: Expr, mask: seq<bool>): Expr
  {
    UnreduceOf(SumOf(x, mask), x.dims, mask)
  }

  lemma SliceTotalYields(w: World, x: Expr, mask: seq<bool>, t: Tensor)
    requires Yields(w, x, t) && |mask| == |t.shape|
    ensures Yields(w, SliceTotalOf(x, mask), SliceTotal(t, mask))
  {
    hide Size, Yields, UnreduceOf, SumOf, Unreduce, TensorOps.ReduceSum, Drop;
    YieldsDims(w, x, t);
    SumYields(w, x, mask, t);
    UnreduceYields(w, SumOf(x, mask), t.shape, mask, TensorOps.ReduceSum(t, mask));
  }

  /** The cotangent over the winner count at winners; the count itself is detached. */
  function MaxRecipe(x: Expr, y: Expr, dy: Expr, mask: seq<bool>): Expr
  {
    var zero, nan := FillOf(0.0, x.dims), SpreadOf(KnownOf(NaN), x.dims);
    var winners := CompareOf(Equal, x, UnreduceOf(y, x.dims, mask));
    var count := DetachedTotalOf(winners, mask);
    var selected := SelectOf(winners, BinaryOf(Div, UnreduceOf(dy, x.dims, mask), count), zero);
    var unordered := SliceTotalOf(CompareOf(NotEqual, x, x), mask);
    SelectOf(CompareOf(Greater, unordered, zero), nan, SelectOf(CompareOf(Greater, count, zero), selected, nan))
  }

  function DetachedTotalOf(x: Expr, mask: seq<bool>): Expr
  {
    UnreduceOf(Make(StopGradient, [SumOf(x, mask)], SumOf(x, mask).dims), x.dims, mask)
  }

  lemma DetachedTotalYields(w: World, x: Expr, mask: seq<bool>, t: Tensor)
    requires Yields(w, x, t) && |mask| == |t.shape|
    ensures Yields(w, DetachedTotalOf(x, mask), SliceTotal(t, mask))
  {
    hide Size, Yields, UnreduceOf, SumOf, Unreduce, TensorOps.ReduceSum, Drop;
    YieldsDims(w, x, t);
    SumYields(w, x, mask, t);
    var s, S := SumOf(x, mask), TensorOps.ReduceSum(t, mask);
    YieldsDims(w, s, S);
    MakeOne(w, StopGradient, s, s.dims, S);
    UnreduceYields(w, Make(StopGradient, [s], s.dims), t.shape, mask, S);
  }

  lemma MaxRecipeYields(w: World, x: Expr, y: Expr, dy: Expr, mask: seq<bool>, X: Tensor, Y: Tensor, DY: Tensor)
    requires Yields(w, x, X) && Yields(w, y, Y) && Yields(w, dy, DY)
    requires |mask| == |X.shape| && Y.shape == DY.shape == Drop(X.shape, mask)
    ensures x.dims == X.shape && Yields(w, MaxRecipe(x, y, dy, mask), MaxRule(w.env, X, Y, DY, mask))
  {
    hide Size, Yields, Drop, Fill, B, C, Choose, CompareOf, SelectOf, BinaryOf, FillOf, SpreadOf, KnownOf, UnreduceOf, Unreduce,
      DetachedTotalOf, SliceTotalOf, SliceTotal;
    YieldsDims(w, x, X);
    var zero, nan := Fill(X.shape, 0.0), Fill(X.shape, w.env.nan);
    var z, n := FillOf(0.0, X.shape), SpreadOf(KnownOf(NaN), X.shape);
    FillYields(w, 0.0, X.shape);
    KnownYields(w, NaN, X.shape);
    UnreduceYields(w, y, X.shape, mask, Y);
    UnreduceYields(w, dy, X.shape, mask, DY);
    var v, V := CompareOf(Equal, x, UnreduceOf(y, X.shape, mask)), C(Equal, X, Unreduce(Y, X.shape, mask));
    CompareYields(w, Equal, x, UnreduceOf(y, X.shape, mask), X, Unreduce(Y, X.shape, mask));
    DetachedTotalYields(w, v, mask, V);
    var c, N := DetachedTotalOf(v, mask), SliceTotal(V, mask);
    var d, D := UnreduceOf(dy, X.shape, mask), Unreduce(DY, X.shape, mask);
    BinaryYields(w, Div, d, c, D, N);
    SelectYields(w, v, BinaryOf(Div, d, c), z, V, B(Div, D, N), zero);
    CompareYields(w, NotEqual, x, x, X, X);
    SliceTotalYields(w, CompareOf(NotEqual, x, x), mask, C(NotEqual, X, X));
    var u, M := SliceTotalOf(CompareOf(NotEqual, x, x), mask), SliceTotal(C(NotEqual, X, X), mask);
    CompareYields(w, Greater, u, z, M, zero);
    CompareYields(w, Greater, c, z, N, zero);
    var s, S := SelectOf(v, BinaryOf(Div, d, c), z), Choose(V, B(Div, D, N), zero);
    SelectYields(w, CompareOf(Greater, c, z), s, n, C(Greater, N, zero), S, nan);
    SelectYields(w, CompareOf(Greater, u, z), n, SelectOf(CompareOf(Greater, c, z), s, n), C(Greater, M, zero), nan,
                 Choose(C(Greater, N, zero), S, nan));
  }

  // ----- convolutions -----

  /** [a,b,c,g*d] becomes [a,b,g*c,d]. */
  function RegroupOf(k: Expr, g: nat, d: nat): Expr
  {
    if |k.dims| != 4 then k else
      var a, b, c := k.dims[0], k.dims[1], k.dims[2];
      ReshapeOf(TransposeOf(ReshapeOf(k, [a, b, c, g, d]), Convolution.GroupPerm, [a, b, g, c, d]), [a, b, Scale(g, c), d])
  }

  lemma RegroupYields(w: World, k: Expr, g: nat, d: nat, K: Tensor)
    requires Yields(w, k, K) && |K.shape| == 4 && K.shape[3] == Scale(g, d)
    ensures Yields(w, RegroupOf(k, g, d), Convolution.Regroup(K, g, d))
  {
    hide Size, Yields, TensorOps.Reshape, TensorOps.Transpose, IsPerm, PosIn, ReshapeOf, TransposeOf;
    YieldsDims(w, k, K);
    var a, b, c := K.shape[0], K.shape[1], K.shape[2];
    Convolution.RegroupSizes(a, b, c, g, d);
    assert K.shape == [a, b, c, Scale(g, d)];
    Convolution.GroupPermOk();
    var split := TensorOps.Reshape(K, [a, b, c, g, d]);
    ReshapeYields(w, k, [a, b, c, g, d], K);
    assert Permuted(split.shape, Convolution.GroupPerm) == [a, b, g, c, d];
    TransposeYields(w, ReshapeOf(k, [a, b, c, g, d]), Convolution.GroupPerm, [a, b, g, c, d], split);
    ReshapeYields(w, TransposeOf(ReshapeOf(k, [a, b, c, g, d]), Convolution.GroupPerm, [a, b, g, c, d]), [a, b, Scale(g, c), d],
                  TensorOps.Transpose(split, Convolution.GroupPerm));
  }

  /** [a,b,g*c,d] becomes [a,b,c,g*d]. */
  function UngroupOf(k: Expr, g: nat, c: nat): Expr
  {
    if |k.dims| != 4 then k else
      var a, b, d := k.dims[0], k.dims[1], k.dims[3];
      ReshapeOf(TransposeOf(ReshapeOf(k, [a, b, g, c, d]), Convolution.GroupPerm, [a, b, c, g, d]), [a, b, c, Scale(g, d)])
  }

  lemma UngroupYields(w: World, k: Expr, g: nat, c: nat, K: Tensor)
    requires Yields(w, k, K) && |K.shape| == 4 && K.shape[2] == Scale(g, c)
    ensures Yields(w, UngroupOf(k, g, c), Convolution.Ungroup(K, g, c))
  {
    hide Size, Yields, TensorOps.Reshape, TensorOps.Transpose, IsPerm, PosIn, ReshapeOf, TransposeOf;
    YieldsDims(w, k, K);
    var a, b, d := K.shape[0], K.shape[1], K.shape[3];
    Convolution.RegroupSizes(a, b, c, g, d);
    assert K.shape == [a, b, Scale(g, c), d];
    Convolution.GroupPermOk();
    var split := TensorOps.Reshape(K, [a, b, g, c, d]);
    ReshapeYields(w, k, [a, b, g, c, d], K);
    assert Permuted(split.shape, Convolution.GroupPerm) == [a, b, c, g, d];
    TransposeYields(w, ReshapeOf(k, [a, b, g, c, d]), Convolution.GroupPerm, [a, b, c, g, d], split);
    ReshapeYields(w, TransposeOf(ReshapeOf(k, [a, b, g, c, d]), Convolution.GroupPerm, [a, b, c, g, d]), [a, b, c, Scale(g, d)],
                  TensorOps.Transpose(split, Convolution.GroupPerm));
  }

  /** conv2d_input_gradient: one transposed convolution with the exact output padding. */
  function InputGradientRecipe(x: Shape, k: Expr, o: Convolution.ConvOptions, dy: Expr): Expr
    requires Convolution.ConvOk(o, x, k.dims) && dy.dims == Convolution.ConvShape(o, x, k.dims)
  {
    var kernel := if o.groups == 1 then k else RegroupOf(k, o.groups, k.dims[3] / o.groups);
    var eh := Convolution.OutputPadding(o.h, x[1], k.dims[0], dy.dims[1]);
    var ew := Convolution.OutputPadding(o.w, x[2], k.dims[1], dy.dims[2]);
    BilinearOf(ConvTranspose2d(o, eh, ew), dy, kernel, x)
  }

  lemma InputGradientYields(w: World, x: Shape, k: Expr, o: Convolution.ConvOptions, dy: Expr, K: Tensor, DY: Tensor)
    requires Yields(w, k, K) && Yields(w, dy, DY) && Convolution.ConvOk(o, x, K.shape) && DY.shape == Convolution.ConvShape(o, x, K.shape)
    requires DY.shape[1] > 0 && DY.shape[2] > 0 && x[1] > 0 && x[2] > 0
    ensures k.dims == K.shape && dy.dims == DY.shape
    ensures Yields(w, InputGradientRecipe(x, k, o, dy), Convolution.InputGradient(x, K, o, DY))
  {
    hide Size, Yields, RegroupOf, Convolution.Regroup, BilinearOf, Convolution.ConvTranspose2d, Convolution.OutputPadding,
      Convolution.TransposeOk, Convolution.TransposeShape;
    YieldsDims(w, k, K);
    YieldsDims(w, dy, DY);
    Convolution.ConvGroups(o, x, K.shape);
    Convolution.InputGradientOk(Fill(x, 0.0), K, o, DY);
    var eh := Convolution.OutputPadding(o.h, x[1], K.shape[0], DY.shape[1]);
    var ew := Convolution.OutputPadding(o.w, x[2], K.shape[1], DY.shape[2]);
    var kernel := if o.groups == 1 then k else RegroupOf(k, o.groups, K.shape[3] / o.groups);
    var V := Convolution.GradientKernel(K, o, x);
    if o.groups != 1 {
      RegroupYields(w, k, o.groups, K.shape[3] / o.groups, K);
    }
    BilinearYields(w, ConvTranspose2d(o, eh, ew), dy, kernel, x, DY, V);
  }

  function ConvInputRecipe(o: Convolution.ConvOptions, x: Shape, k: Expr, dy: Expr): Expr
    requires Convolution.ConvOk(o, x, k.dims) && dy.dims == Convolution.ConvShape(o, x, k.dims)
  {
    if AnyEmpty(x, dy.dims) then FillOf(0.0, x) else InputGradientRecipe(x, k, o, dy)
  }

  lemma ConvInputYields(w: World, o: Convolution.ConvOptions, x: Shape, k: Expr, dy: Expr, K: Tensor, DY: Tensor)
    requires Yields(w, k, K) && Yields(w, dy, DY) && Convolution.ConvOk(o, x, K.shape) && DY.shape == Convolution.ConvShape(o, x, K.shape)
    ensures k.dims == K.shape && dy.dims == DY.shape
    ensures Yields(w, ConvInputRecipe(o, x, k, dy), ConvInputRule(o, x, K, DY))
  {
    hide Size, Yields, Convolution.InputGradient, InputGradientRecipe, FillOf, Fill;
    YieldsDims(w, k, K);
    YieldsDims(w, dy, DY);
    if AnyEmpty(x, DY.shape) {
      FillYields(w, 0.0, x);
    } else {
      assert x[1] > 0 && x[2] > 0 && DY.shape[1] > 0 && DY.shape[2] > 0;
      InputGradientYields(w, x, k, o, dy, K, DY);
    }
  }

  function ConvKernelRecipe(o: Convolution.ConvOptions, x: Expr, k: Shape, dy: Expr): Expr
  {
    if AnyEmpty(x.dims, dy.dims) then FillOf(0.0, k) else BilinearOf(Conv2dKernelGradient(o), x, dy, k)
  }

  lemma ConvKernelYields(w: World, o: Convolution.ConvOptions, x: Expr, k: Shape, dy: Expr, X: Tensor, DY: Tensor)
    requires Yields(w, x, X) && Yields(w, dy, DY) && Convolution.ConvOk(o, X.shape, k) && DY.shape == Convolution.ConvShape(o, X.shape, k)
    ensures Yields(w, ConvKernelRecipe(o, x, k, dy), ConvKernelRule(o, X, k, DY))
  {
    hide Size, Yields, Convolution.KernelGradient, BilinearOf, FillOf, Fill;
    YieldsDims(w, x, X);
    YieldsDims(w, dy, DY);
    if AnyEmpty(X.shape, DY.shape) {
      FillYields(w, 0.0, k);
    } else {
      BilinearYields(w, Conv2dKernelGradient(o), x, dy, k, X, DY);
    }
  }

  function ForwardKernelOf(k: Expr, g: nat): Expr
  {
    if g == 1 || g == 0 || |k.dims| != 4 then k else UngroupOf(k, g, k.dims[2] / g)
  }

  lemma ForwardKernelYields(w: World, k: Expr, g: nat, K: Tensor)
    requires Yields(w, k, K) && |K.shape| == 4 && g > 0 && K.shape[2] % g == 0
    ensures Yields(w, ForwardKernelOf(k, g), Convolution.TransposeKernelAsForward(K, g))
  {
    hide Size, Yields, Convolution.Ungroup, UngroupOf;
    YieldsDims(w, k, K);
    Convolution.GroupWhole(K.shape[2], g);
    if g != 1 {
      UngroupYields(w, k, g, K.shape[2] / g, K);
    }
  }

  function TransposeKernelOf(k: Expr, g: nat): Expr
  {
    if g == 1 || g == 0 || |k.dims| != 4 then k else RegroupOf(k, g, k.dims[3] / g)
  }

  lemma TransposeKernelYields(w: World, k: Expr, g: nat, K: Tensor)
    requires Yields(w, k, K) && |K.shape| == 4 && g > 0 && K.shape[3] % g == 0
    ensures Yields(w, TransposeKernelOf(k, g), Convolution.ForwardKernelAsTranspose(K, g))
  {
    hide Size, Yields, Convolution.Regroup, RegroupOf;
    YieldsDims(w, k, K);
    Convolution.GroupWhole(K.shape[3], g);
    if g != 1 {
      RegroupYields(w, k, g, K.shape[3] / g, K);
    }
  }

  function TransposeInputRecipe(o: Convolution.ConvOptions, x: Shape, k: Expr, dy: Expr): Expr
  {
    if 0 in x then FillOf(0.0, x) else BilinearOf(Conv2d(o), dy, ForwardKernelOf(k, o.groups), x)
  }

  function TransposeKernelRecipe(o: Convolution.ConvOptions, x: Expr, k: Expr, dy: Expr): Expr
  {
    if 0 in x.dims then FillOf(0.0, k.dims)
    else TransposeKernelOf(BilinearOf(Conv2dKernelGradient(o), dy, x, ForwardKernelOf(k, o.groups).dims), o.groups)
  }

  lemma TransposeInputYields(w: World, o: Convolution.ConvOptions, eh: int, ew: int, x: Shape, k: Expr, dy: Expr, K: Tensor, DY: Tensor)
    requires Yields(w, k, K) && Yields(w, dy, DY) && Convolution.TransposeOk(o, eh, ew, x, K.shape)
    requires DY.shape == Convolution.TransposeShape(o, eh, ew, x, K.shape)
    ensures Yields(w, TransposeInputRecipe(o, x, k, dy), TransposeInputRule(o, eh, ew, x, K, DY))
  {
    hide Size, Yields, Convolution.Conv2d, Convolution.TransposeKernelAsForward, ForwardKernelOf, BilinearOf, FillOf, Fill;
    if 0 in x {
      FillYields(w, 0.0, x);
    } else {
      Convolution.PairedForwardOk(x, K, o, eh, ew);
      ForwardKernelYields(w, k, o.groups, K);
      BilinearYields(w, Conv2d(o), dy, ForwardKernelOf(k, o.groups), x, DY, Convolution.TransposeKernelAsForward(K, o.groups));
    }
  }

  lemma TransposeKernelRecipeYields(w: World, o: Convolution.ConvOptions, eh: int, ew: int, x: Expr, k: Expr, dy: Expr,
                                    X: Tensor, K: Tensor, DY: Tensor)
    requires Yields(w, x, X) && Yields(w, k, K) && Yields(w, dy, DY) && Convolution.TransposeOk(o, eh, ew, X.shape, K.shape)
    requires DY.shape == Convolution.TransposeShape(o, eh, ew, X.shape, K.shape)
    ensures Yields(w, TransposeKernelRecipe(o, x, k, dy), TransposeKernelRule(o, eh, ew, X, K, DY))
  {
    hide Size, Yields, Convolution.KernelGradient, Convolution.TransposeKernelAsForward, Convolution.ForwardKernelAsTranspose,
      ForwardKernelOf, TransposeKernelOf, BilinearOf, FillOf, Fill;
    YieldsDims(w, x, X);
    YieldsDims(w, k, K);
    if 0 in X.shape {
      FillYields(w, 0.0, K.shape);
    } else {
      Convolution.PairedForwardOk(X.shape, K, o, eh, ew);
      Convolution.TransposeKernelRuleAdjoint(X, K, o, eh, ew, DY);
      ForwardKernelYields(w, k, o.groups, K);
      var F := Convolution.TransposeKernelAsForward(K, o.groups);
      YieldsDims(w, ForwardKernelOf(k, o.groups), F);
      NonEmptyOutput(o, eh, ew, X.shape, K.shape);
      BilinearYields(w, Conv2dKernelGradient(o), dy, x, F.shape, DY, X);
      TransposeKernelYields(w, BilinearOf(Conv2dKernelGradient(o), dy, x, F.shape), o.groups, Convolution.KernelGradient(DY, X, F.shape, o));
    }
  }

  lemma NonEmptyOutput(o: Convolution.ConvOptions, eh: int, ew: int, x: Shape, k: Shape)
    requires Convolution.TransposeOk(o, eh, ew, x, k) && 0 !in x
    ensures 0 !in Convolution.TransposeShape(o, eh, ew, x, k)
  {
    hide Convolution.TransposedExtent;
    assert x[0] in x;
  }

  // ----- linear and bilinear operations -----

  /** sum_pool2d_gradient: channels to the batch, one transposed convolution with a kernel of ones, channels back. */
  function SumPoolRecipe(dy: Expr, x: Shape, p: Pooling.PoolOptions): Expr
    requires Pooling.PoolOk(p, x) && dy.dims == Pooling.PoolShape(p, x)
  {
    if 0 in x || 0 in dy.dims then FillOf(0.0, x)
    else
      var n, c, h, w := x[0], x[3], dy.dims[1], dy.dims[2];
      var first := ReshapeOf(TransposeOf(dy, Pooling.ToFirst, [n, c, h, w]), [Scale(n, c), h, w, 1]);
      var kernel := FillOf(1.0, [p.windowH, p.windowW, 1, 1]);
      var eh, ew := (x[1] + p.h.low + p.h.high - p.windowH) % p.h.stride, (x[2] + p.w.low + p.w.high - p.windowW) % p.w.stride;
      var scattered := BilinearOf(ConvTranspose2d(Pooling.PoolConv(p), eh, ew), first, kernel, [Scale(n, c), x[1], x[2], 1]);
      TransposeOf(ReshapeOf(scattered, [n, c, x[1], x[2]]), Pooling.ToLast, x)
  }

  lemma FirstYields(w: World, dy: Expr, DY: Tensor)
    requires Yields(w, dy, DY) && |DY.shape| == 4
    ensures var n, h, d, c := DY.shape[0], DY.shape[1], DY.shape[2], DY.shape[3];
      Yields(w, ReshapeOf(TransposeOf(dy, Pooling.ToFirst, [n, c, h, d]), [Scale(n, c), h, d, 1]), Pooling.ChannelsFirst(DY))
  {
    hide Size, Yields, TensorOps.Reshape, TensorOps.Transpose, IsPerm, PosIn, ReshapeOf, TransposeOf;
    var n, h, d, c := DY.shape[0], DY.shape[1], DY.shape[2], DY.shape[3];
    Pooling.FirstSizes(n, h, d, c);
    Pooling.RearrangePerms();
    assert Permuted(DY.shape, Pooling.ToFirst) == [n, c, h, d];
    TransposeYields(w, dy, Pooling.ToFirst, [n, c, h, d], DY);
    ReshapeYields(w, TransposeOf(dy, Pooling.ToFirst, [n, c, h, d]), [Scale(n, c), h, d, 1], TensorOps.Transpose(DY, Pooling.ToFirst));
  }

  lemma LastYields(w: World, x: Expr, n: nat, c: nat, X: Tensor)
    requires Yields(w, x, X) && |X.shape| == 4 && X.shape[0] == Scale(n, c) && X.shape[3] == 1
    ensures Yields(w, TransposeOf(ReshapeOf(x, [n, c, X.shape[1], X.shape[2]]), Pooling.ToLast, [n, X.shape[1], X.shape[2], c]),
                   Pooling.ChannelsLast(X, n, c))
  {
    hide Size, Yields, TensorOps.Reshape, TensorOps.Transpose, IsPerm, PosIn, ReshapeOf, TransposeOf;
    var h, d := X.shape[1], X.shape[2];
    Pooling.FirstSizes(n, h, d, c);
    Pooling.RearrangePerms();
    assert X.shape == [Scale(n, c), h, d, 1];
    ReshapeYields(w, x, [n, c, h, d], X);
    var split := TensorOps.Reshape(X, [n, c, h, d]);
    assert Permuted(split.shape, Pooling.ToLast) == [n, h, d, c];
    TransposeYields(w, ReshapeOf(x, [n, c, h, d]), Pooling.ToLast, [n, h, d, c], split);
  }

  lemma SumPoolYields(w: World, dy: Expr, x: Shape, p: Pooling.PoolOptions, DY: Tensor)
    requires Yields(w, dy, DY) && Pooling.PoolOk(p, x) && DY.shape == Pooling.PoolShape(p, x)
    ensures dy.dims == DY.shape
    ensures Yields(w, SumPoolRecipe(dy, x, p), Pooling.SumPoolGradient(DY, x, p))
  {
    hide Size, Yields, ReshapeOf, TransposeOf, FillOf, Fill, BilinearOf, Pooling.ChannelsFirst, Pooling.ChannelsLast,
      Convolution.ConvTranspose2d;
    YieldsDims(w, dy, DY);
    if 0 in x || 0 in DY.shape {
      FillYields(w, 0.0, x);
    } else {
      assert x[0] > 0 && x[1] > 0 && x[2] > 0 && x[3] > 0 && DY.shape[1] > 0 && DY.shape[2] > 0;
      SumPoolFullYields(w, dy, x, p, DY);
    }
  }

  lemma SumPoolFullYields(w: World, dy: Expr, x: Shape, p: Pooling.PoolOptions, DY: Tensor)
    requires Yields(w, dy, DY) && Pooling.PoolOk(p, x) && dy.dims == DY.shape == Pooling.PoolShape(p, x)
    requires 0 !in x && 0 !in DY.shape && x[1] > 0 && x[2] > 0 && x[3] > 0 && DY.shape[1] > 0 && DY.shape[2] > 0
    ensures Yields(w, SumPoolRecipe(dy, x, p), Pooling.SumPoolGradient(DY, x, p))
  {
    hide Size, Yields, ReshapeOf, TransposeOf, FillOf, Fill, BilinearOf, Pooling.ChannelsFirst, Pooling.ChannelsLast,
      Convolution.ConvTranspose2d, Convolution.TransposeOk, Convolution.TransposeShape;
    var n, c, h, d := x[0], x[3], DY.shape[1], DY.shape[2];
    var o, wide := Pooling.PoolConv(p), [Scale(n, c), x[1], x[2], 1];
    Pooling.PoolConvOk(x, p);
    Pooling.PoolPadding(p.h, x[1], p.windowH);
    Pooling.PoolPadding(p.w, x[2], p.windowW);
    var K := Pooling.PoolKernel(p);
    Convolution.InputGradientOk(Fill(wide, 0.0), K, o, Pooling.ChannelsFirst(DY));
    assert K.shape == Convolution.GradientKernel(K, o, wide).shape;
    var eh, ew := (x[1] + p.h.low + p.h.high - p.windowH) % p.h.stride, (x[2] + p.w.low + p.w.high - p.windowW) % p.w.stride;
    FirstYields(w, dy, DY);
    FillYields(w, 1.0, [p.windowH, p.windowW, 1, 1]);
    var first := ReshapeOf(TransposeOf(dy, Pooling.ToFirst, [n, c, h, d]), [Scale(n, c), h, d, 1]);
    var kernel := FillOf(1.0, [p.windowH, p.windowW, 1, 1]);
    BilinearYields(w, ConvTranspose2d(o, eh, ew), first, kernel, wide, Pooling.ChannelsFirst(DY), K);
    LastYields(w, BilinearOf(ConvTranspose2d(o, eh, ew), first, kernel, wide), n, c,
               Convolution.ConvTranspose2d(Pooling.ChannelsFirst(DY), K, o, eh, ew));
    assert x == [n, x[1], x[2], c];
  }

  function LinearRecipe(l: Linear, dy: Expr, x: Shape): Expr
    requires LinearOk(l, x, dy.dims)
  {
    match l
    case Reshape => ReshapeOf(dy, x)
    case OptimizationBarrier => LinearOf(OptimizationBarrier, dy, x)
    case Slice(axes) => LinearOf(SliceGradient(axes), dy, x)
    case SliceGradient(axes) => SliceOf(dy, axes, x)
    case Transpose(perm) => TransposeOf(dy, Inverse(perm), x)
    case Reverse(axes) => FlipOf(dy, axes)
    case Broadcast(axes) => UnbroadcastOf(dy, x, axes)
    case ReduceSum(axes) => UnreduceOf(dy, x, Mask(axes, |x|))
    case Cumsum(axis) => FlipOf(LinearOf(Cumsum(axis), FlipOf(dy, [axis]), x), [axis])
    case SumPool2d(p) => SumPoolRecipe(dy, x, p)
  }

  lemma CumsumYields(w: World, axis: nat, dy: Expr, DY: Tensor)
    requires Yields(w, dy, DY) && axis < |DY.shape|
    ensures Yields(w, FlipOf(LinearOf(Cumsum(axis), FlipOf(dy, [axis]), DY.shape), [axis]), Flip(TensorOps.Cumsum(Flip(DY, [axis]), axis), [axis]))
  {
    hide Size, Yields, LinearOf, FlipOf, Flip, TensorOps.Cumsum;
    FlipYields(w, dy, [axis], DY);
    LinearYields(w, Cumsum(axis), FlipOf(dy, [axis]), DY.shape, Flip(DY, [axis]));
    FlipYields(w, LinearOf(Cumsum(axis), FlipOf(dy, [axis]), DY.shape), [axis], TensorOps.Cumsum(Flip(DY, [axis]), axis));
  }

  lemma TransposeRuleYields(w: World, dy: Expr, perm: seq<nat>, x: Shape, DY: Tensor)
    requires Yields(w, dy, DY) && IsPerm(perm, |x|) && DY.shape == Permuted(x, perm)
    ensures Yields(w, TransposeOf(dy, Inverse(perm), x), TensorOps.Transpose(DY, Inverse(perm)))
  {
    hide Size, Yields, TensorOps.Transpose, TransposeOf;
    PermutedInverse(perm, x);
    TransposeYields(w, dy, Inverse(perm), x, DY);
  }

  lemma LinearRecipeYields(w: World, l: Linear, dy: Expr, x: Shape, DY: Tensor)
    requires Yields(w, dy, DY) && LinearOk(l, x, DY.shape)
    ensures dy.dims == DY.shape && Yields(w, LinearRecipe(l, dy, x), LinearRule(l, DY, x))
  {
    hide Size, Yields, Flip, LinearOf, FlipOf, SliceOf, TransposeOf, ReshapeOf, UnreduceOf, Unreduce, UnbroadcastOf, Unbroadcast,
      SumPoolRecipe, Pooling.SumPoolGradient, TensorOps.Reshape, TensorOps.Slice, TensorOps.SliceGradient, TensorOps.Transpose,
      TensorOps.Cumsum, BroadcastOk, IsPerm, SliceOk, Drop, Permuted, Inverse, SliceShape;
    YieldsDims(w, dy, DY);
    match l
    case Reshape => ReshapeYields(w, dy, x, DY);
    case OptimizationBarrier => LinearYields(w, OptimizationBarrier, dy, x, DY);
    case Slice(axes) => LinearYields(w, SliceGradient(axes), dy, x, DY);
    case SliceGradient(axes) => SliceYields(w, dy, axes, x, DY);
    case Transpose(perm) =>
      TransposeRuleYields(w, dy, perm, x, DY);
    case Reverse(axes) => FlipYields(w, dy, axes, DY);
    case Broadcast(axes) => UnbroadcastYields(w, dy, x, axes, DY);
    case ReduceSum(axes) => UnreduceYields(w, dy, x, Mask(axes, |x|), DY);
    case Cumsum(axis) => CumsumYields(w, axis, dy, DY);
    case SumPool2d(p) => SumPoolYields(w, dy, x, p, DY);
  }

  function LeftRecipe(b: Bilinear, dy: Expr, x: Expr, y: Expr): Expr
    requires BilinearOk(b, x.dims, y.dims, dy.dims)
  {
    match b
    case Matmul => MatmulOf(dy, SwapOf(y), x.dims)
    case Conv2d(o) => ConvInputRecipe(o, x.dims, y, dy)
    case Conv2dOihw(o) => ConvInputRecipe(o, x.dims, TransposeOf(y, Convolution.FromOihw, HwioShape(y.dims)), dy)
    case ConvTranspose2d(o, _, _) => TransposeInputRecipe(o, x.dims, y, dy)
    case Conv2dInputGradient(o) => BilinearOf(Conv2d(o), dy, y, x.dims)
    case Conv2dKernelGradient(o) => ConvInputRecipe(o, x.dims, dy, y)
  }

  function RightRecipe(b: Bilinear, dy: Expr, x: Expr, y: Expr): Expr
    requires BilinearOk(b, x.dims, y.dims, dy.dims)
  {
    match b
    case Matmul => MatmulOf(SwapOf(x), dy, y.dims)
    case Conv2d(o) => ConvKernelRecipe(o, x, y.dims, dy)
    case Conv2dOihw(o) =>
      if AnyEmpty(x.dims, dy.dims) then FillOf(0.0, y.dims)
      else TransposeOf(BilinearOf(Conv2dKernelGradient(o), x, dy, HwioShape(y.dims)), Convolution.ToOihw, y.dims)
    case ConvTranspose2d(o, _, _) => TransposeKernelRecipe(o, x, y, dy)
    case Conv2dInputGradient(o) => BilinearOf(Conv2dKernelGradient(o), dy, x, y.dims)
    case Conv2dKernelGradient(o) => BilinearOf(Conv2d(o), x, dy, y.dims)
  }

  lemma HwioYields(w: World, y: Expr, Y: Tensor)
    requires Yields(w, y, Y) && |Y.shape| == 4
    ensures Yields(w, TransposeOf(y, Convolution.FromOihw, HwioShape(Y.shape)), Convolution.Hwio(Y))
  {
    hide Size, Yields, TransposeOf, TensorOps.Transpose, IsPerm, PosIn;
    Convolution.OihwPerms();
    assert Permuted(Y.shape, Convolution.FromOihw) == HwioShape(Y.shape);
    TransposeYields(w, y, Convolution.FromOihw, HwioShape(Y.shape), Y);
  }

  lemma OihwYields(w: World, k: Expr, dims: Shape, K: Tensor)
    requires Yields(w, k, K) && |dims| == 4 && K.shape == HwioShape(dims)
    ensures Yields(w, TransposeOf(k, Convolution.ToOihw, dims), Convolution.Oihw(K))
  {
    hide Size, Yields, TransposeOf, TensorOps.Transpose, IsPerm, PosIn;
    Convolution.OihwPerms();
    assert Permuted(K.shape, Convolution.ToOihw) == dims;
    TransposeYields(w, k, Convolution.ToOihw, dims, K);
  }

  lemma LeftRecipeYields(w: World, b: Bilinear, dy: Expr, x: Expr, y: Expr, DY: Tensor, X: Tensor, Y: Tensor)
    requires Yields(w, dy, DY) && Yields(w, x, X) && Yields(w, y, Y) && BilinearOk(b, X.shape, Y.shape, DY.shape)
    ensures dy.dims == DY.shape && x.dims == X.shape && y.dims == Y.shape
    ensures Yields(w, LeftRecipe(b, dy, x, y), LeftRule(b, DY, X, Y))
  {
    hide Size, Yields, MatmulOf, SwapOf, SwapTensor, TensorOps.Matmul, ConvInputRecipe, ConvInputRule, TransposeInputRecipe,
      TransposeInputRule, TransposeOf, Convolution.Hwio, BilinearOf, Convolution.Conv2d;
    YieldsDims(w, dy, DY);
    YieldsDims(w, x, X);
    YieldsDims(w, y, Y);
    match b
    case Matmul =>
      MatmulLeftAdjoint(DY, X, Y);
      SwapYields(w, y, Y);
      MatmulYields(w, dy, SwapOf(y), DY, SwapTensor(Y));
    case Conv2d(o) => ConvInputYields(w, o, X.shape, y, dy, Y, DY);
    case Conv2dOihw(o) =>
      HwioYields(w, y, Y);
      ConvInputYields(w, o, X.shape, TransposeOf(y, Convolution.FromOihw, HwioShape(Y.shape)), dy, Convolution.Hwio(Y), DY);
    case ConvTranspose2d(o, eh, ew) => TransposeInputYields(w, o, eh, ew, X.shape, y, dy, Y, DY);
    case Conv2dInputGradient(o) => BilinearYields(w, Conv2d(o), dy, y, X.shape, DY, Y);
    case Conv2dKernelGradient(o) => ConvInputYields(w, o, X.shape, dy, y, DY, Y);
  }

  lemma RightRecipeYields(w: World, b: Bilinear, dy: Expr, x: Expr, y: Expr, DY: Tensor, X: Tensor, Y: Tensor)
    requires Yields(w, dy, DY) && Yields(w, x, X) && Yields(w, y, Y) && BilinearOk(b, X.shape, Y.shape, DY.shape)
    ensures dy.dims == DY.shape && x.dims == X.shape && y.dims == Y.shape
    ensures Yields(w, RightRecipe(b, dy, x, y), RightRule(b, DY, X, Y))
  {
    hide Size, Yields, MatmulOf, SwapOf, SwapTensor, TensorOps.Matmul, ConvKernelRecipe, ConvKernelRule, TransposeKernelRecipe,
      TransposeKernelRule, TransposeOf, Convolution.Oihw, BilinearOf, Convolution.KernelGradient, Convolution.Conv2d, FillOf, Fill;
    YieldsDims(w, dy, DY);
    YieldsDims(w, x, X);
    YieldsDims(w, y, Y);
    match b
    case Matmul =>
      MatmulRightAdjoint(DY, X, Y);
      SwapYields(w, x, X);
      MatmulYields(w, SwapOf(x), dy, SwapTensor(X), DY);
    case Conv2d(o) => ConvKernelYields(w, o, x, Y.shape, dy, X, DY);
    case Conv2dOihw(o) => OihwRecipeYields(w, o, dy, x, y, DY, X, Y);
    case ConvTranspose2d(o, eh, ew) => TransposeKernelRecipeYields(w, o, eh, ew, x, y, dy, X, Y, DY);
    case Conv2dInputGradient(o) => BilinearYields(w, Conv2dKernelGradient(o), dy, x, Y.shape, DY, X);
    case Conv2dKernelGradient(o) => BilinearYields(w, Conv2d(o), x, dy, Y.shape, X, DY);
  }

  lemma OihwRecipeYields(w: World, o: Convolution.ConvOptions, dy: Expr, x: Expr, y: Expr, DY: Tensor, X: Tensor, Y: Tensor)
    requires Yields(w, dy, DY) && Yields(w, x, X) && Yields(w, y, Y) && BilinearOk(Conv2dOihw(o), X.shape, Y.shape, DY.shape)
    requires dy.dims == DY.shape && x.dims == X.shape && y.dims == Y.shape
    ensures Yields(w, RightRecipe(Conv2dOihw(o), dy, x, y), RightRule(Conv2dOihw(o), DY, X, Y))
  {
    hide Size, Yields, TransposeOf, Convolution.Oihw, BilinearOf, Convolution.KernelGradient, FillOf, Fill;
    if AnyEmpty(X.shape, DY.shape) {
      FillYields(w, 0.0, Y.shape);
    } else {
      BilinearYields(w, Conv2dKernelGradient(o), x, dy, HwioShape(Y.shape), X, DY);
      OihwYields(w, BilinearOf(Conv2dKernelGradient(o), x, dy, HwioShape(Y.shape)), Y.shape,
                 Convolution.KernelGradient(X, DY, HwioShape(Y.shape), o));
    }
  }

  // ----- attention -----

  function RowTotalOf(x: Expr): Expr
  {
    UnreduceOf(SumOf(x, LastMask(|x.dims|)), x.dims, LastMask(|x.dims|))
  }

  lemma RowTotalYields(w: World, x: Expr, t: Tensor)
    requires Yields(w, x, t)
    ensures Yields(w, RowTotalOf(x), RowTotal(t))
  {
    hide Size, Yields, UnreduceOf, SumOf, Unreduce, TensorOps.ReduceSum, Drop;
    YieldsDims(w, x, t);
    var mask := LastMask(|t.shape|);
    SumYields(w, x, mask, t);
    UnreduceYields(w, SumOf(x, mask), t.shape, mask, TensorOps.ReduceSum(t, mask));
  }

  function SoftmaxOf(x: Expr): Expr
  {
    BinaryOf(Div, UnaryOf(Exp, x), RowTotalOf(UnaryOf(Exp, x)))
  }

  lemma SoftmaxYields(w: World, x: Expr, t: Tensor)
    requires Yields(w, x, t)
    ensures Yields(w, SoftmaxOf(x), Softmax(w.env, t))
  {
    hide Size, Yields, UnaryOf, BinaryOf, RowTotalOf, RowTotal, U, B;
    UnaryYields(w, Exp, x, t);
    var u, v := UnaryOf(Exp, x), U(w.env, Exp, t);
    RowTotalYields(w, u, v);
    BinaryYields(w, Div, u, RowTotalOf(u), v, RowTotal(v));
  }

  function SoftmaxRuleOf(p: Expr, dp: Expr): Expr
  {
    BinaryOf(Mul, p, BinaryOf(Sub, dp, RowTotalOf(BinaryOf(Mul, dp, p))))
  }

  lemma SoftmaxRuleYields(w: World, p: Expr, dp: Expr, P: Tensor, DP: Tensor)
    requires Yields(w, p, P) && Yields(w, dp, DP) && P.shape == DP.shape
    ensures Yields(w, SoftmaxRuleOf(p, dp), SoftmaxRule(P, DP))
  {
    hide Size, Yields, BinaryOf, RowTotalOf, RowTotal, B;
    BinaryYields(w, Mul, dp, p, DP, P);
    var m, M := BinaryOf(Mul, dp, p), B(Mul, DP, P);
    RowTotalYields(w, m, M);
    BinaryYields(w, Sub, dp, RowTotalOf(m), DP, RowTotal(M));
    BinaryYields(w, Mul, p, BinaryOf(Sub, dp, RowTotalOf(m)), P, B(Sub, DP, RowTotal(M)));
  }

  /** Shape of the scores of an attention node. */
  function ScoreDims(args: seq<Expr>): Shape
    requires |args| >= 2
  {
    var q, k := args[0].dims, args[1].dims;
    if |q| == |k| >= 2 then q[..|q| - 1] + [k[|k| - 2]] else []
  }

  function ProbabilitiesOf(args: seq<Expr>, scale: real): Expr
    requires |args| >= 2
  {
    var s := MulScalarOf(MatmulOf(args[0], SwapOf(args[1]), ScoreDims(args)), scale);
    SoftmaxOf(if |args| == 4 then BinaryOf(Add, s, args[3]) else s)
  }

  lemma ProbabilitiesYield(w: World, args: seq<Expr>, ts: seq<Tensor>, dims: Shape, scale: real)
    requires AllYield(w, args, ts) && AttentionOk(ShapesOf(ts), dims)
    ensures Yields(w, ProbabilitiesOf(args, scale), Probabilities(w.env, ts, dims, scale))
  {
    hide Size, Yields, MulScalarOf, MatmulOf, SwapOf, SoftmaxOf, BinaryOf, MulScalar, SwapTensor, TensorOps.Matmul, Softmax, B,
      AddScalarOf, AddScalar;
    YieldsDims(w, args[0], ts[0]);
    YieldsDims(w, args[1], ts[1]);
    var r := |dims|;
    SwapYields(w, args[1], ts[1]);
    var K := SwapTensor(ts[1]);
    assert MatmulShape(ts[0].shape, K.shape) == ScoreDims(args);
    MatmulYields(w, args[0], SwapOf(args[1]), ts[0], K);
    var m, M := MatmulOf(args[0], SwapOf(args[1]), ScoreDims(args)), TensorOps.Matmul(ts[0], K);
    ScalarOpsYield(w, m, scale, M);
    if |args| == 4 {
      BinaryYields(w, Add, MulScalarOf(m, scale), args[3], MulScalar(M, scale), ts[3]);
      SoftmaxYields(w, BinaryOf(Add, MulScalarOf(m, scale), args[3]), B(Add, MulScalar(M, scale), ts[3]));
    } else {
      SoftmaxYields(w, MulScalarOf(m, scale), MulScalar(M, scale));
    }
  }

  /** Score cotangent from the probabilities. */
  function ScoresRuleOf(args: seq<Expr>, scale: real, dy: Expr): Expr
    requires |args| >= 3
  {
    SoftmaxRuleOf(ProbabilitiesOf(args, scale), MatmulOf(dy, SwapOf(args[2]), ScoreDims(args)))
  }

  lemma ScoresRuleYields(w: World, args: seq<Expr>, ts: seq<Tensor>, dims: Shape, scale: real, dy: Expr, DY: Tensor)
    requires AllYield(w, args, ts) && AttentionOk(ShapesOf(ts), dims) && Yields(w, dy, DY) && DY.shape == dims
    ensures Yields(w, ScoresRuleOf(args, scale, dy), ScoresCotangent(w.env, ts, dims, scale, DY))
  {
    hide Size, Yields, ProbabilitiesOf, Probabilities, MatmulOf, SwapOf, SoftmaxRuleOf, SoftmaxRule, SwapTensor, TensorOps.Matmul;
    YieldsDims(w, args[0], ts[0]);
    YieldsDims(w, args[1], ts[1]);
    ProbabilitiesYield(w, args, ts, dims, scale);
    var P := Probabilities(w.env, ts, dims, scale);
    MatmulLeftAdjoint(DY, P, ts[2]);
    SwapYields(w, args[2], ts[2]);
    var V := SwapTensor(ts[2]);
    assert MatmulShape(DY.shape, V.shape) == ScoreDims(args);
    MatmulYields(w, dy, SwapOf(args[2]), DY, V);
    SoftmaxRuleYields(w, ProbabilitiesOf(args, scale), MatmulOf(dy, SwapOf(args[2]), ScoreDims(args)), P, TensorOps.Matmul(DY, V));
  }

  function AttentionRecipe(args: seq<Expr>, scale: real, dy: Expr): (r: seq<Expr>)
    requires 3 <= |args| <= 4
    ensures |r| == |args|
  {
    var p, ds := ProbabilitiesOf(args, scale), ScoresRuleOf(args, scale, dy);
    var qkv := [MulScalarOf(MatmulOf(ds, args[1], args[0].dims), scale),
                MulScalarOf(MatmulOf(SwapOf(ds), args[0], args[1].dims), scale),
                MatmulOf(SwapOf(p), dy, args[2].dims)];
    if |args| == 4 then qkv + [ds] else qkv
  }

  lemma AttentionRecipeYields(w: World, args: seq<Expr>, ts: seq<Tensor>, dims: Shape, scale: real, dy: Expr, DY: Tensor)
    requires AllYield(w, args, ts) && AttentionOk(ShapesOf(ts), dims) && Yields(w, dy, DY) && DY.shape == dims
    ensures AllYield(w, AttentionRecipe(args, scale, dy), AttentionRule(w.env, ts, dims, scale, DY))
  {
    hide Size, Yields, ProbabilitiesOf, Probabilities, ScoresRuleOf, ScoresCotangent, MatmulOf, SwapOf, SwapTensor, MatmulOk,
      TensorOps.Matmul, MulScalarOf, MulScalar, AddScalarOf, AddScalar, MatmulShape, AttentionOk;
    assert 3 <= |ts| <= 4 by { AttentionArity(ts, dims); }
    YieldsDims(w, args[0], ts[0]);
    YieldsDims(w, args[1], ts[1]);
    YieldsDims(w, args[2], ts[2]);
    ProbabilitiesYield(w, args, ts, dims, scale);
    ScoresRuleYields(w, args, ts, dims, scale, dy, DY);
    var p, P := ProbabilitiesOf(args, scale), Probabilities(w.env, ts, dims, scale);
    var ds, DS := ScoresRuleOf(args, scale, dy), ScoresCotangent(w.env, ts, dims, scale, DY);
    AttentionShapes(ts, dims, DS, DY, P);
    AttentionRanks(ts, dims, DS, P);
    SwapYields(w, p, P);
    SwapYields(w, ds, DS);
    MatmulYields(w, ds, args[1], DS, ts[1]);
    ScalarOpsYield(w, MatmulOf(ds, args[1], ts[0].shape), scale, TensorOps.Matmul(DS, ts[1]));
    MatmulYields(w, SwapOf(ds), args[0], SwapTensor(DS), ts[0]);
    ScalarOpsYield(w, MatmulOf(SwapOf(ds), args[0], ts[1].shape), scale, TensorOps.Matmul(SwapTensor(DS), ts[0]));
    MatmulYields(w, SwapOf(p), dy, SwapTensor(P), DY);
  }

  lemma AttentionArity(ts: seq<Tensor>, dims: Shape)
    requires AttentionOk(ShapesOf(ts), dims)
    ensures 3 <= |ts| <= 4
  {
  }

  lemma AttentionRanks(ts: seq<Tensor>, dims: Shape, ds: Tensor, p: Tensor)
    requires AttentionOk(ShapesOf(ts), dims) && ds.shape == p.shape == dims[..|dims| - 1] + [ts[1].shape[|dims| - 2]]
    ensures |ds.shape| == |p.shape| >= 2
  {
  }

  // ----- contributions of a node -----

  /** One recorded contribution: an operand position and the expression of its cotangent. */
  datatype Entry = Entry(operand: nat, gradient: Expr)

  /** The entries compute the contributions, one for one. */
  ghost predicate Computes(w: World, es: seq<Entry>, cs: seq<Contribution>)
  {
    |es| == |cs| && forall k :: 0 <= k < |es| ==> es[k].operand == cs[k].operand && Yields(w, es[k].gradient, cs[k].gradient)
  }

  function PadRecipe(args: seq<Expr>, padding: seq<Edge>, dy: Expr): seq<Entry>
    requires |args| == 2 && |padding| == |args[0].dims|
  {
    var x := args[0];
    var interior := PadOf(FillOf(1.0, x.dims), padding, ScalarOf(0.0), dy.dims);
    var border := SelectOf(interior, FillOf(0.0, dy.dims), dy);
    [Entry(0, SliceOf(dy, InteriorAxes(x.dims, padding), x.dims)), Entry(1, SumOf(border, AllMask(|dy.dims|)))]
  }

  lemma PadRecipeYields(w: World, args: seq<Expr>, ts: seq<Tensor>, padding: seq<Edge>, dy: Expr, DY: Tensor)
    requires AllYield(w, args, ts) && PadTyped(ShapesOf(ts), padding, DY.shape) && Yields(w, dy, DY)
    ensures |args| == 2 && |padding| == |args[0].dims| && Computes(w, PadRecipe(args, padding, dy), PadRule(ts, padding, DY))
  {
    hide Size, Yields, SliceOf, SumOf, PadOf, FillOf, Fill, SelectOf, ScalarOf, TensorOps.Slice, TensorOps.ReduceSum, TensorOps.Pad,
      Choose, Drop;
    YieldsDims(w, args[0], ts[0]);
    YieldsDims(w, dy, DY);
    PadAdjoint(DY, ts[0], padding, ts[1]);
    var x := ts[0].shape;
    FillYields(w, 1.0, x);
    ScalarYields(w, 0.0);
    FillYields(w, 0.0, DY.shape);
    PadYields(w, FillOf(1.0, x), padding, ScalarOf(0.0), DY.shape, Fill(x, 1.0), Fill([], 0.0));
    var interior, Interior := PadOf(FillOf(1.0, x), padding, ScalarOf(0.0), DY.shape), TensorOps.Pad(Fill(x, 1.0), padding, Fill([], 0.0));
    SelectYields(w, interior, FillOf(0.0, DY.shape), dy, Interior, Fill(DY.shape, 0.0), DY);
    SumYields(w, SelectOf(interior, FillOf(0.0, DY.shape), dy), AllMask(|DY.shape|), Border(DY, x, padding));
    SliceYields(w, dy, InteriorAxes(x, padding), x, DY);
  }

  /** Each operand gets its stretch of the cotangent along the axis. */
  function PieceRecipe(args: seq<Expr>, axis: nat, dy: Expr, n: nat): seq<Entry>
    requires n <= |args|
  {
    if n == 0 then [] else
      var x := args[n - 1].dims;
      var size := if axis < |x| then x[axis] else 0;
      PieceRecipe(args, axis, dy, n - 1)
        + [Entry(n - 1, SliceOf(dy, NarrowAxes(dy.dims, axis, SumAxis(DimsOf(args), axis, n - 1), size), x))]
  }

  lemma {:induction false} PieceRecipeYields(w: World, args: seq<Expr>, ts: seq<Tensor>, axis: nat, dy: Expr, DY: Tensor, n: nat)
    requires AllYield(w, args, ts) && ConcatTyped(ShapesOf(ts), axis, DY.shape) && Yields(w, dy, DY) && n <= |ts|
    ensures Computes(w, PieceRecipe(args, axis, dy, n), PieceRule(ts, axis, DY, n))
  {
    hide Size, Yields, SliceOf, TensorOps.Slice, ConcatTyped, SliceOk, SliceShape, NarrowAxes;
    if n > 0 {
      PieceRecipeYields(w, args, ts, axis, dy, DY, n - 1);
      YieldsDims(w, dy, DY);
      YieldsDims(w, args[n - 1], ts[n - 1]);
      SameDims(w, args, ts);
      StartIsSum(ts, axis, n - 1);
      PieceShapes(ts, axis, DY.shape, n - 1);
      SliceYields(w, dy, PieceAxes(ts, axis, n - 1, DY.shape), ts[n - 1].shape, DY);
    }
  }

  lemma SameDims(w: World, args: seq<Expr>, ts: seq<Tensor>)
    requires AllYield(w, args, ts)
    ensures DimsOf(args) == ShapesOf(ts)
  {
    hide ExprOk, Eval, Size;
  }

  function PairRecipe(args: seq<Expr>, dy: Expr, n: nat): seq<Entry>
    requires 2 * n + 1 <= |args|
  {
    if n == 0 then [] else PairRecipe(args, dy, n - 1) + [Entry(2 * n - 1, BinaryOf(Mul, dy, args[2 * n]))]
  }

  lemma {:induction false} PairRecipeYields(w: World, args: seq<Expr>, ts: seq<Tensor>, dy: Expr, DY: Tensor, n: nat)
    requires AllYield(w, args, ts) && Yields(w, dy, DY) && 2 * n + 1 <= |args|
    requires forall k :: 0 <= k < |ts| ==> ts[k].shape == DY.shape
    ensures Computes(w, PairRecipe(args, dy, n), PairRule(ts, DY, n))
  {
    hide Size, Yields, BinaryOf, B;
    if n > 0 {
      PairRecipeYields(w, args, ts, dy, DY, n - 1);
      BinaryYields(w, Mul, dy, args[2 * n], DY, ts[2 * n]);
    }
  }

  // ----- indexed operations -----

  function IndexedRecipe(op: Op, args: seq<Expr>, dy: Expr): seq<Entry>
    requires Indexed(op) && |args| >= if op.DynamicSlice? then 1 else 2
  {
    var x := args[0].dims;
    match op
    case Take(axis, batched) => [Entry(0, Make(GatherGradient(axis, batched), [dy, args[1]], x))]
    case GatherGradient(axis, batched) => [Entry(0, Make(Take(axis, batched), [dy, args[1]], x))]
    case DynamicSlice => [Entry(0, Make(DynamicUpdateSlice, [FillOf(0.0, x), dy] + args[1..], x))]
    case DynamicUpdateSlice =>
      [Entry(0, Make(DynamicUpdateSlice, [dy, FillOf(0.0, args[1].dims)] + args[2..], dy.dims)),
       Entry(1, Make(DynamicSlice, [dy] + args[2..], args[1].dims))]
  }

  lemma GatherRecipes(w: World, axis: nat, batched: bool, dy: Expr, index: Expr, dims: Shape, DY: Tensor, I: Tensor)
    requires Yields(w, dy, DY) && Yields(w, index, I)
    ensures axis < |dims| && DY.shape == GatherShape(dims, I.shape, axis, batched) ==>
      Yields(w, Make(GatherGradient(axis, batched), [dy, index], dims), TensorOps.GatherGradient(DY, I, axis, batched, dims))
    ensures axis < |DY.shape| && dims == GatherShape(DY.shape, I.shape, axis, batched) ==>
      Yields(w, Make(Take(axis, batched), [dy, index], dims), Gather(DY, I, axis, batched))
  {
    hide Size, Yields, Gather, TensorOps.GatherGradient, GatherShape;
    if axis < |dims| && DY.shape == GatherShape(dims, I.shape, axis, batched) {
      MakeTwo(w, GatherGradient(axis, batched), dy, index, dims, DY, I);
    }
    if axis < |DY.shape| && dims == GatherShape(DY.shape, I.shape, axis, batched) {
      MakeTwo(w, Take(axis, batched), dy, index, dims, DY, I);
    }
  }

  /** Start operands that are scalars, one per axis. */
  predicate ScalarStarts(ts: seq<Tensor>, rank: nat)
  {
    |ts| == rank && forall k :: 0 <= k < |ts| ==> ts[k].shape == []
  }

  lemma SameStarts(a: seq<Tensor>, b: seq<Tensor>, from: nat, to: nat)
    requires from <= |a| && to <= |b| && a[from..] == b[to..]
    ensures Starts(a, from) == Starts(b, to)
  {
    hide Size, At;
    assert |Starts(a, from)| == |a[from..]| == |b[to..]| == |Starts(b, to)|;
    forall k: nat | k < |a| - from ensures Starts(a, from)[k] == Starts(b, to)[k] {
      assert a[from + k] == a[from..][k] == b[to..][k] == b[to + k];
    }
  }

  lemma UpdateRecipe(w: World, x: Expr, u: Expr, xs: seq<Expr>, X: Tensor, V: Tensor, ts: seq<Tensor>, all: seq<Tensor>, from: nat)
    requires Yields(w, x, X) && Yields(w, u, V) && AllYield(w, xs, ts) && ScalarStarts(ts, |X.shape|) && Program.Fits(V.shape, X.shape)
    requires from <= |all| && all[from..] == ts
    ensures Yields(w, Make(DynamicUpdateSlice, [x, u] + xs, X.shape), TensorOps.DynamicUpdateSlice(X, V, Starts(all, from)))
  {
    hide Size, Yields, TensorOps.DynamicUpdateSlice, Starts;
    var args := [X, V] + ts;
    assert args[2..] == ts;
    SameStarts(all, args, from, 2);
    MakeYields(w, DynamicUpdateSlice, [x, u] + xs, X.shape, args);
  }

  lemma WindowRecipe(w: World, x: Expr, xs: seq<Expr>, X: Tensor, dims: Shape, ts: seq<Tensor>, all: seq<Tensor>, from: nat)
    requires Yields(w, x, X) && AllYield(w, xs, ts) && ScalarStarts(ts, |X.shape|) && Program.Fits(dims, X.shape)
    requires from <= |all| && all[from..] == ts
    ensures Yields(w, Make(DynamicSlice, [x] + xs, dims), TensorOps.DynamicSlice(X, Starts(all, from), dims))
  {
    hide Size, Yields, TensorOps.DynamicSlice, Starts;
    var args := [X] + ts;
    assert args[1..] == ts;
    SameStarts(all, args, from, 1);
    MakeYields(w, DynamicSlice, [x] + xs, dims, args);
  }

  lemma IndexedRecipeYields(w: World, op: Op, dims: Shape, args: seq<Expr>, ts: seq<Tensor>, dy: Expr, DY: Tensor)
    requires AllYield(w, args, ts) && NodeOk(op, ShapesOf(ts), dims) && Indexed(op) && Yields(w, dy, DY) && DY.shape == dims
    ensures Computes(w, IndexedRecipe(op, args, dy), RuleIndexed(op, dims, ts, DY))
  {
    hide Size, Yields, Gather, TensorOps.GatherGradient, TensorOps.DynamicSlice, TensorOps.DynamicUpdateSlice, Starts, FillOf, Fill, GatherShape;
    YieldsDims(w, args[0], ts[0]);
    YieldsDims(w, dy, DY);
    match op
    case Take(axis, batched) => GatherRecipes(w, axis, batched, dy, args[1], ts[0].shape, DY, ts[1]);
    case GatherGradient(axis, batched) =>
      GatherRecipes(w, axis, batched, dy, args[1], ts[0].shape, DY, ts[1]);
    case DynamicSlice =>
      FillYields(w, 0.0, ts[0].shape);
      UpdateRecipe(w, FillOf(0.0, ts[0].shape), dy, args[1..], Fill(ts[0].shape, 0.0), DY, ts[1..], ts, 1);
    case DynamicUpdateSlice =>
      YieldsDims(w, args[1], ts[1]);
      FillYields(w, 0.0, ts[1].shape);
      UpdateRecipe(w, dy, FillOf(0.0, ts[1].shape), args[2..], DY, Fill(ts[1].shape, 0.0), ts[2..], ts, 2);
      WindowRecipe(w, dy, args[2..], DY, ts[1].shape, ts[2..], ts, 2);
  }

  // ----- every operation -----

  function EntriesOf(xs: seq<Expr>): (es: seq<Entry>)
    ensures |es| == |xs| && forall k :: 0 <= k < |es| ==> es[k] == Entry(k, xs[k])
  {
    seq(|xs|, (k: nat) requires k < |xs| => Entry(k, xs[k]))
  }

  function StructuralRecipe(op: Op, args: seq<Expr>, dy: Expr): seq<Entry>
    requires NodeOk(op, DimsOf(args), dy.dims) && Structural(op)
  {
    hide LinearOk, BilinearOk;
    match op
    case Apply(l) => [Entry(0, LinearRecipe(l, dy, args[0].dims))]
    case Pad(padding) => PadRecipe(args, padding, dy)
    case Concatenate(axis) => PieceRecipe(args, axis, dy, |args|)
    case Combine(b) => [Entry(0, LeftRecipe(b, dy, args[0], args[1])), Entry(1, RightRecipe(b, dy, args[0], args[1]))]
    case Attention(scale) => EntriesOf(AttentionRecipe(args, scale, dy))
  }

  /** The expressions recorded for a node with value y and cotangent dy, in order. */
  function Recipe(op: Op, sources: seq<DType>, args: seq<Expr>, y: Expr, dy: Expr): seq<Entry>
    requires NodeOk(op, DimsOf(args), dy.dims) && |sources| == |args|
  {
    if Structural(op) then StructuralRecipe(op, args, dy)
    else if Indexed(op) then IndexedRecipe(op, args, dy) else
    match op
    case Convert => if Floating(sources[0]) then [Entry(0, Make(Convert, [dy], dy.dims))] else []
    case StateWrite => [Entry(0, dy)]
    case ReduceMax(axes) => [Entry(0, MaxRecipe(args[0], y, dy, Mask(axes, |args[0].dims|)))]
    case MaxPool2d(p) => [Entry(0, Make(MaxPool2dGradient(p), [args[0], dy], args[0].dims))]
    case WithGradient => [Entry(1, dy)]
    case WithElementwiseDerivative => PairRecipe(args, dy, |args| / 2)
    case Unary(f) => if Rounding(f) then [] else [Entry(0, UnaryRecipe(f, args[0], y, dy))]
    case Binary(b) =>
      var g := BinaryRecipe(b, args[0], args[1], dy);
      [Entry(0, g.0), Entry(1, g.1)]
    case Select =>
      var zero := FillOf(0.0, dy.dims);
      [Entry(1, SelectOf(args[0], dy, zero)), Entry(2, SelectOf(args[0], zero, dy))]
    case _ => []
  }

  lemma StructuralRecipeYields(w: World, op: Op, args: seq<Expr>, ts: seq<Tensor>, dy: Expr, DY: Tensor)
    requires AllYield(w, args, ts) && NodeOk(op, ShapesOf(ts), DY.shape) && Structural(op) && Yields(w, dy, DY)
    ensures DimsOf(args) == ShapesOf(ts) && dy.dims == DY.shape
    ensures Computes(w, StructuralRecipe(op, args, dy), RuleStructural(op, DY.shape, ts, DY, w.env))
  {
    hide Size, Yields, LinearOk, BilinearOk, LinearRecipe, LinearRule, LeftRecipe, LeftRule, RightRecipe, RightRule, AttentionOk,
      AttentionRecipe, AttentionRule, PadRecipe, PadRule, PieceRecipe, PieceRule, ConcatTyped, PadTyped;
    SameDims(w, args, ts);
    YieldsDims(w, dy, DY);
    match op
    case Apply(l) => LinearRecipeYields(w, l, dy, ts[0].shape, DY);
    case Pad(padding) => PadRecipeYields(w, args, ts, padding, dy, DY);
    case Concatenate(axis) => PieceRecipeYields(w, args, ts, axis, dy, DY, |args|);
    case Combine(b) =>
      LeftRecipeYields(w, b, dy, args[0], args[1], DY, ts[0], ts[1]);
      RightRecipeYields(w, b, dy, args[0], args[1], DY, ts[0], ts[1]);
    case Attention(scale) =>
      AttentionArity(ts, DY.shape);
      AttentionRecipeYields(w, args, ts, DY.shape, scale, dy, DY);
  }

  lemma MaxPoolRecipeYields(w: World, p: Pooling.PoolOptions, x: Expr, dy: Expr, X: Tensor, DY: Tensor)
    requires Yields(w, x, X) && Yields(w, dy, DY) && Pooling.PoolOk(p, X.shape) && DY.shape == Pooling.PoolShape(p, X.shape)
    ensures x.dims == X.shape && Yields(w, Make(MaxPool2dGradient(p), [x, dy], X.shape), MaxPooling.MaxPoolGradient(X, DY, p))
  {
    hide Size, Yields, MaxPooling.MaxPoolGradient;
    YieldsDims(w, x, X);
    MakeTwo(w, MaxPool2dGradient(p), x, dy, X.shape, X, DY);
  }

  predicate Pointwise(op: Op)
  {
    op.Unary? || op.Binary? || op.Select?
  }

  lemma PointwiseRecipeComputes(w: World, op: Op, sources: seq<DType>, args: seq<Expr>, ts: seq<Tensor>, y: Expr, Y: Tensor, dy: Expr, DY: Tensor)
    requires AllYield(w, args, ts) && NodeOk(op, ShapesOf(ts), DY.shape) && |sources| == |ts|
    requires Yields(w, y, Y) && Yields(w, dy, DY) && Y.shape == DY.shape && Pointwise(op)
    requires DimsOf(args) == ShapesOf(ts) && dy.dims == DY.shape
    ensures Computes(w, Recipe(op, sources, args, y, dy), Rule(op, DY.shape, sources, ts, Y, DY, w.env))
  {
    hide Size, Yields, UnaryRecipe, UnaryRule, BinaryRecipe, BinaryRule, SelectOf, Choose, FillOf, Fill;
    if op.Unary? {
      UnaryRecipeYields(w, op.fn, args[0], y, dy, ts[0], Y, DY);
    } else if op.Binary? {
      BinaryRecipeYields(w, op.bin, args[0], args[1], dy, ts[0], ts[1], DY);
    } else {
      FillYields(w, 0.0, DY.shape);
      SelectYields(w, args[0], dy, FillOf(0.0, DY.shape), ts[0], DY, Fill(DY.shape, 0.0));
      SelectYields(w, args[0], FillOf(0.0, DY.shape), dy, ts[0], Fill(DY.shape, 0.0), DY);
    }
  }

  lemma OtherRecipeComputes(w: World, op: Op, sources: seq<DType>, args: seq<Expr>, ts: seq<Tensor>, y: Expr, Y: Tensor, dy: Expr, DY: Tensor)
    requires AllYield(w, args, ts) && NodeOk(op, ShapesOf(ts), DY.shape) && |sources| == |ts|
    requires Yields(w, y, Y) && Yields(w, dy, DY) && Y.shape == DY.shape && !Structural(op) && !Indexed(op) && !Pointwise(op)
    requires DimsOf(args) == ShapesOf(ts) && dy.dims == DY.shape
    ensures Computes(w, Recipe(op, sources, args, y, dy), Rule(op, DY.shape, sources, ts, Y, DY, w.env))
  {
    hide Size, Yields, PairRecipe, PairRule, MaxRecipe, MaxRule, MaxPooling.MaxPoolGradient, Drop;
    match op
    case Convert => MakeOne(w, Convert, dy, DY.shape, DY);
    case ReduceMax(axes) => MaxRecipeYields(w, args[0], y, dy, Mask(axes, |ts[0].shape|), ts[0], Y, DY);
    case MaxPool2d(p) => MaxPoolRecipeYields(w, p, args[0], dy, ts[0], DY);
    case WithElementwiseDerivative => PairRecipeYields(w, args, ts, dy, DY, |args| / 2);
    case _ =>
  }

  /** What is recorded for a node computes exactly its reverse rule, in every environment. */
  lemma RecipeComputes(w: World, op: Op, sources: seq<DType>, args: seq<Expr>, ts: seq<Tensor>, y: Expr, Y: Tensor, dy: Expr, DY: Tensor)
    requires AllYield(w, args, ts) && NodeOk(op, ShapesOf(ts), DY.shape) && |sources| == |ts|
    requires Yields(w, y, Y) && Yields(w, dy, DY) && Y.shape == DY.shape
    ensures DimsOf(args) == ShapesOf(ts) && dy.dims == DY.shape
    ensures Computes(w, Recipe(op, sources, args, y, dy), Rule(op, DY.shape, sources, ts, Y, DY, w.env))
  {
    hide Size, Yields, StructuralRecipe, RuleStructural, IndexedRecipe, RuleIndexed, NodeOk, Computes;
    SameDims(w, args, ts);
    YieldsDims(w, dy, DY);
    if Structural(op) {
      StructuralRecipeYields(w, op, args, ts, dy, DY);
    } else if Indexed(op) {
      IndexedRecipeYields(w, op, DY.shape, args, ts, dy, DY);
    } else if Pointwise(op) {
      PointwiseRecipeComputes(w, op, sources, args, ts, y, Y, dy, DY);
    } else {
      OtherRecipeComputes(w, op, sources, args, ts, y, Y, dy, DY);
    }
  }
}
