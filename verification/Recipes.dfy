/** Expressions over the nodes of a graph: what they compute, and the operations they are made of. */
module Recipes {
  import opened Products
  import opened Shapes
  import opened Tensors
  import opened TensorOps
  import opened Adjoints
  import opened Program
  import opened Rules
  import Convolution
  import Pooling

  /** An existing node, or a new node of an operation. */
  datatype Expr =
    | Ref(id: nat, dims: Shape)
    | Make(op: Op, args: seq<Expr>, dims: Shape)

  function DimsOf(xs: seq<Expr>): (s: seq<Shape>)
    ensures |s| == |xs| && forall k :: 0 <= k < |xs| ==> s[k] == xs[k].dims
  {
    seq(|xs|, (k: nat) requires k < |xs| => xs[k].dims)
  }

  /** Well typed over nodes of these shapes. */
  predicate ExprOk(x: Expr, shapes: seq<Shape>)
    decreases x
  {
    match x
    case Ref(id, dims) => id < |shapes| && shapes[id] == dims
    case Make(op, args, dims) => (forall k :: 0 <= k < |args| ==> ExprOk(args[k], shapes)) && NodeOk(op, DimsOf(args), dims)
  }

  /** The value of an expression, given the values of the nodes it refers to. */
  function Eval(x: Expr, vs: seq<Tensor>, e: RawEnv): (r: Tensor)
    requires ExprOk(x, ShapesOf(vs))
    ensures r.shape == x.dims
    decreases x
  {
    hide Size, NodeOk, Forward;
    match x
    case Ref(id, _) => vs[id]
    case Make(op, args, dims) =>
      var ts := seq(|args|, (k: nat) requires k < |args| && ExprOk(args[k], ShapesOf(vs)) => Eval(args[k], vs, e));
      assert ShapesOf(ts) == DimsOf(args);
      Forward(op, dims, ts, e)
  }

  /** Node values and the environment they were computed in. */
  datatype World = World(vs: seq<Tensor>, env: RawEnv)

  /** The expression is well typed and its value is t. */
  ghost predicate Yields(w: World, x: Expr, t: Tensor)
  {
    ExprOk(x, ShapesOf(w.vs)) && Eval(x, w.vs, w.env) == t && x.dims == t.shape
  }

  ghost predicate AllYield(w: World, xs: seq<Expr>, ts: seq<Tensor>)
  {
    |xs| == |ts| && forall k :: 0 <= k < |xs| ==> Yields(w, xs[k], ts[k])
  }

  lemma YieldsDims(w: World, x: Expr, t: Tensor)
    requires Yields(w, x, t)
    ensures x.dims == t.shape
  {
  }

  lemma MakeYields(w: World, op: Op, xs: seq<Expr>, dims: Shape, ts: seq<Tensor>)
    requires AllYield(w, xs, ts) && NodeOk(op, ShapesOf(ts), dims)
    ensures Yields(w, Make(op, xs, dims), Forward(op, dims, ts, w.env))
  {
    hide Size, NodeOk, Forward;
    assert DimsOf(xs) == ShapesOf(ts);
    var all := seq(|xs|, (k: nat) requires k < |xs| && ExprOk(xs[k], ShapesOf(w.vs)) => Eval(xs[k], w.vs, w.env));
    assert all == ts;
  }

  lemma MakeOne(w: World, op: Op, x: Expr, dims: Shape, t: Tensor)
    requires Yields(w, x, t) && NodeOk(op, [t.shape], dims)
    ensures ShapesOf([t]) == [t.shape] && Yields(w, Make(op, [x], dims), Forward(op, dims, [t], w.env))
  {
    hide Size, NodeOk, Forward, Yields;
    assert ShapesOf([t]) == [t.shape];
    MakeYields(w, op, [x], dims, [t]);
  }

  lemma MakeTwo(w: World, op: Op, x: Expr, y: Expr, dims: Shape, s: Tensor, t: Tensor)
    requires Yields(w, x, s) && Yields(w, y, t) && NodeOk(op, [s.shape, t.shape], dims)
    ensures ShapesOf([s, t]) == [s.shape, t.shape] && Yields(w, Make(op, [x, y], dims), Forward(op, dims, [s, t], w.env))
  {
    hide Size, NodeOk, Forward, Yields;
    assert ShapesOf([s, t]) == [s.shape, t.shape];
    MakeYields(w, op, [x, y], dims, [s, t]);
  }

  // ----- one node each -----

  function UnaryOf(f: Fn, x: Expr): Expr
  {
    Make(Unary(f), [x], x.dims)
  }

  lemma UnaryYields(w: World, f: Fn, x: Expr, t: Tensor)
    requires Yields(w, x, t)
    ensures Yields(w, UnaryOf(f, x), U(w.env, f, t))
  {
    hide Size, U;
    MakeOne(w, Unary(f), x, t.shape, t);
  }

  function BinaryOf(b: BinaryOp, x: Expr, y: Expr): Expr
  {
    Make(Binary(b), [x, y], x.dims)
  }

  lemma BinaryYields(w: World, b: BinaryOp, x: Expr, y: Expr, s: Tensor, t: Tensor)
    requires Yields(w, x, s) && Yields(w, y, t) && s.shape == t.shape
    ensures Yields(w, BinaryOf(b, x, y), B(b, s, t))
  {
    hide Size, B;
    MakeTwo(w, Binary(b), x, y, s.shape, s, t);
  }

  function CompareOf(c: Comparison, x: Expr, y: Expr): Expr
  {
    Make(CompareMask(c), [x, y], x.dims)
  }

  lemma CompareYields(w: World, c: Comparison, x: Expr, y: Expr, s: Tensor, t: Tensor)
    requires Yields(w, x, s) && Yields(w, y, t) && s.shape == t.shape
    ensures Yields(w, CompareOf(c, x, y), C(c, s, t))
  {
    hide Size, C;
    MakeTwo(w, CompareMask(c), x, y, s.shape, s, t);
  }

  function SelectOf(m: Expr, x: Expr, y: Expr): Expr
  {
    Make(Select, [m, x, y], x.dims)
  }

  lemma SelectYields(w: World, m: Expr, x: Expr, y: Expr, r: Tensor, s: Tensor, t: Tensor)
    requires Yields(w, m, r) && Yields(w, x, s) && Yields(w, y, t) && r.shape == s.shape == t.shape
    ensures Yields(w, SelectOf(m, x, y), Choose(r, s, t))
  {
    hide Size, Choose, Yields;
    assert ShapesOf([r, s, t]) == [s.shape, s.shape, s.shape];
    YieldsDims(w, x, s);
    MakeYields(w, Select, [m, x, y], s.shape, [r, s, t]);
  }

  function LinearOf(l: Linear, x: Expr, dims: Shape): Expr
  {
    Make(Apply(l), [x], dims)
  }

  lemma LinearYields(w: World, l: Linear, x: Expr, dims: Shape, t: Tensor)
    requires Yields(w, x, t) && LinearOk(l, t.shape, dims)
    ensures Yields(w, LinearOf(l, x, dims), ApplyLinear(l, t, dims))
  {
    hide Size, LinearOk, ApplyLinear;
    MakeOne(w, Apply(l), x, dims, t);
  }

  function BilinearOf(b: Bilinear, x: Expr, y: Expr, dims: Shape): Expr
  {
    Make(Combine(b), [x, y], dims)
  }

  lemma BilinearYields(w: World, b: Bilinear, x: Expr, y: Expr, dims: Shape, s: Tensor, t: Tensor)
    requires Yields(w, x, s) && Yields(w, y, t) && BilinearOk(b, s.shape, t.shape, dims)
    ensures Yields(w, BilinearOf(b, x, y, dims), ApplyBilinear(b, s, t, dims))
  {
    hide Size, BilinearOk, ApplyBilinear;
    MakeTwo(w, Combine(b), x, y, dims, s, t);
  }

  function ScalarOf(c: real): Expr
  {
    Make(Constant(Fill([], c)), [], [])
  }

  function KnownOf(known: Known): Expr
  {
    Make(Literal(known), [], [])
  }

  /** A scalar broadcast to a shape. */
  function SpreadOf(x: Expr, dims: Shape): Expr
  {
    LinearOf(Broadcast([]), x, dims)
  }

  function FillOf(c: real, dims: Shape): Expr
  {
    SpreadOf(ScalarOf(c), dims)
  }

  lemma SpreadYields(w: World, x: Expr, c: real, dims: Shape)
    requires Yields(w, x, Fill([], c))
    ensures Yields(w, SpreadOf(x, dims), Fill(dims, c))
  {
    hide Size, At, Yields;
    var s := Fill([], c);
    LinearYields(w, Broadcast([]), x, dims, s);
    var t := TensorOps.Broadcast(s, dims, []);
    forall I | Valid(dims, I) ensures At(t, I) == c {
      assert BroadcastIx([], [], I) == [];
      assert Valid([], []);
    }
    Ext(t, Fill(dims, c));
  }

  lemma ScalarYields(w: World, c: real)
    ensures Yields(w, ScalarOf(c), Fill([], c))
  {
    hide Size, Fill, Yields;
    assert ShapesOf([]) == [];
    MakeYields(w, Constant(Fill([], c)), [], [], []);
  }

  lemma FillYields(w: World, c: real, dims: Shape)
    ensures Yields(w, FillOf(c, dims), Fill(dims, c))
  {
    hide Size, Fill, Yields;
    ScalarYields(w, c);
    SpreadYields(w, ScalarOf(c), c, dims);
  }

  lemma KnownYields(w: World, known: Known, dims: Shape)
    ensures Yields(w, SpreadOf(KnownOf(known), dims), Fill(dims, if known.NaN? then w.env.nan else w.env.twoOverRootPi))
  {
    hide Size, Fill, Yields;
    assert ShapesOf([]) == [];
    MakeYields(w, Literal(known), [], [], []);
    SpreadYields(w, KnownOf(known), if known.NaN? then w.env.nan else w.env.twoOverRootPi, dims);
  }

  function PadOf(x: Expr, padding: seq<Edge>, fill: Expr, dims: Shape): Expr
  {
    Make(Pad(padding), [x, fill], dims)
  }

  lemma PadYields(w: World, x: Expr, padding: seq<Edge>, fill: Expr, dims: Shape, s: Tensor, t: Tensor)
    requires Yields(w, x, s) && Yields(w, fill, t)
    requires |padding| == |s.shape| && t.shape == [] && dims == PadShape(s.shape, padding)
    ensures Yields(w, PadOf(x, padding, fill, dims), TensorOps.Pad(s, padding, t))
  {
    hide Size, TensorOps.Pad;
    MakeTwo(w, Pad(padding), x, fill, dims, s, t);
  }

  // ----- scalars, sums and transposes -----

  function AddScalarOf(x: Expr, c: real): Expr
  {
    BinaryOf(Add, x, FillOf(c, x.dims))
  }

  function MulScalarOf(x: Expr, c: real): Expr
  {
    BinaryOf(Mul, x, FillOf(c, x.dims))
  }

  lemma ScalarOpsYield(w: World, x: Expr, c: real, t: Tensor)
    requires Yields(w, x, t)
    ensures Yields(w, AddScalarOf(x, c), AddScalar(t, c)) && Yields(w, MulScalarOf(x, c), MulScalar(t, c))
  {
    hide Size, Fill, B, Yields, Eval, ExprOk, BinaryOf, FillOf;
    YieldsDims(w, x, t);
    FillYields(w, c, t.shape);
    BinaryYields(w, Add, x, FillOf(c, t.shape), t, Fill(t.shape, c));
    BinaryYields(w, Mul, x, FillOf(c, t.shape), t, Fill(t.shape, c));
  }

  /** The axes a mask selects. */
  function AxesOf(mask: seq<bool>): (axes: seq<nat>)
    ensures forall a: nat :: a in axes <==> a < |mask| && mask[a]
  {
    if mask == [] then [] else
      var n := |mask| - 1;
      AxesOf(mask[..n]) + if mask[n] then [n] else []
  }

  /** Sum over the masked axes. */
  function SumOf(x: Expr, mask: seq<bool>): Expr
  {
    LinearOf(ReduceSum(AxesOf(mask)), x, Drop(x.dims, mask))
  }

  lemma SumYields(w: World, x: Expr, mask: seq<bool>, t: Tensor)
    requires Yields(w, x, t) && |mask| == |t.shape|
    ensures Yields(w, SumOf(x, mask), TensorOps.ReduceSum(t, mask))
  {
    hide Size, Yields, TensorOps.ReduceSum, Drop;
    assert Mask(AxesOf(mask), |mask|) == mask;
    YieldsDims(w, x, t);
    LinearYields(w, ReduceSum(AxesOf(mask)), x, Drop(t.shape, mask), t);
  }

  function ReshapeOf(x: Expr, dims: Shape): Expr
  {
    LinearOf(Reshape, x, dims)
  }

  lemma ReshapeYields(w: World, x: Expr, dims: Shape, t: Tensor)
    requires Yields(w, x, t) && Size(dims) == Size(t.shape)
    ensures Yields(w, ReshapeOf(x, dims), TensorOps.Reshape(t, dims))
  {
    hide Size, Yields, TensorOps.Reshape;
    LinearYields(w, Reshape, x, dims, t);
  }

  function TransposeOf(x: Expr, perm: seq<nat>, dims: Shape): Expr
  {
    LinearOf(Transpose(perm), x, dims)
  }

  lemma TransposeYields(w: World, x: Expr, perm: seq<nat>, dims: Shape, t: Tensor)
    requires Yields(w, x, t) && IsPerm(perm, |t.shape|) && dims == Permuted(t.shape, perm)
    ensures Yields(w, TransposeOf(x, perm, dims), TensorOps.Transpose(t, perm))
  {
    hide Size, Yields, TensorOps.Transpose, IsPerm, Permuted;
    LinearYields(w, Transpose(perm), x, dims, t);
  }

  /** Restore the masked axes as singletons, then broadcast. */
  function UnreduceOf(x: Expr, dims: Shape, mask: seq<bool>): Expr
  {
    LinearOf(Broadcast(Iota(|dims|)), ReshapeOf(x, Ones(dims, mask)), dims)
  }

  lemma UnreduceYields(w: World, x: Expr, dims: Shape, mask: seq<bool>, t: Tensor)
    requires Yields(w, x, t) && |mask| == |dims| && t.shape == Drop(dims, mask)
    ensures Yields(w, UnreduceOf(x, dims, mask), Unreduce(t, dims, mask))
  {
    hide Size, Yields, TensorOps.Reshape, TensorOps.Broadcast, Drop;
    OnesSize(dims, mask);
    ReshapeYields(w, x, Ones(dims, mask), t);
    LinearYields(w, Broadcast(Iota(|dims|)), ReshapeOf(x, Ones(dims, mask)), dims, TensorOps.Reshape(t, Ones(dims, mask)));
  }

  /** Sum the expanded axes, keeping them as singletons, then restore the input shape. */
  function UnbroadcastOf(x: Expr, dims: Shape, axes: seq<nat>): Expr
  {
    var mask := BroadcastMask(dims, x.dims, axes);
    ReshapeOf(ReshapeOf(SumOf(x, mask), Ones(x.dims, mask)), dims)
  }

  lemma UnbroadcastYields(w: World, x: Expr, dims: Shape, axes: seq<nat>, t: Tensor)
    requires Yields(w, x, t) && BroadcastOk(dims, t.shape, axes)
    ensures Yields(w, UnbroadcastOf(x, dims, axes), Unbroadcast(t, dims, axes))
  {
    hide Size, Yields, TensorOps.ReduceSum, Drop, BroadcastMask, BroadcastOk, Ones;
    YieldsDims(w, x, t);
    var mask := BroadcastMask(dims, t.shape, axes);
    BroadcastSize(dims, t.shape, axes);
    OnesSize(t.shape, mask);
    SumYields(w, x, mask, t);
    var kept := TensorOps.ReduceSum(t, mask);
    ReshapeYields(w, SumOf(x, mask), Ones(t.shape, mask), kept);
    ReshapeYields(w, ReshapeOf(SumOf(x, mask), Ones(t.shape, mask)), dims, TensorOps.Reshape(kept, Ones(t.shape, mask)));
  }

  function FlipOf(x: Expr, axes: seq<nat>): Expr
  {
    LinearOf(Reverse(axes), x, x.dims)
  }

  lemma FlipYields(w: World, x: Expr, axes: seq<nat>, t: Tensor)
    requires Yields(w, x, t)
    ensures Yields(w, FlipOf(x, axes), Flip(t, axes))
  {
    hide Size, Yields, Flip;
    YieldsDims(w, x, t);
    LinearYields(w, Reverse(axes), x, t.shape, t);
  }

  function SliceOf(x: Expr, axes: seq<SliceAxis>, dims: Shape): Expr
  {
    LinearOf(Slice(axes), x, dims)
  }

  lemma SliceYields(w: World, x: Expr, axes: seq<SliceAxis>, dims: Shape, t: Tensor)
    requires Yields(w, x, t) && SliceOk(t.shape, axes) && dims == SliceShape(axes)
    ensures Yields(w, SliceOf(x, axes, dims), TensorOps.Slice(t, axes))
  {
    hide Size, Yields, TensorOps.Slice, SliceOk, SliceShape;
    LinearYields(w, Slice(axes), x, dims, t);
  }

  /** The last two axes exchanged. */
  function SwapOf(x: Expr): Expr
  {
    var r := |x.dims|;
    if r < 2 then x
    else TransposeOf(x, SwapLast(r), x.dims[..r - 2] + [x.dims[r - 1], x.dims[r - 2]])
  }

  lemma SwapYields(w: World, x: Expr, t: Tensor)
    requires Yields(w, x, t) && |t.shape| >= 2
    ensures Yields(w, SwapOf(x), SwapTensor(t))
  {
    hide Size, Yields, TensorOps.Transpose, IsPerm, PosIn;
    YieldsDims(w, x, t);
    SwapLastPerm(|t.shape|);
    assert Permuted(t.shape, SwapLast(|t.shape|)) == SwapTensor(t).shape;
    TransposeYields(w, x, SwapLast(|t.shape|), SwapTensor(t).shape, t);
  }

  function MatmulOf(x: Expr, y: Expr, dims: Shape): Expr
  {
    BilinearOf(Matmul, x, y, dims)
  }

  lemma MatmulYields(w: World, x: Expr, y: Expr, s: Tensor, t: Tensor)
    requires Yields(w, x, s) && Yields(w, y, t) && MatmulOk(s.shape, t.shape)
    ensures Yields(w, MatmulOf(x, y, MatmulShape(s.shape, t.shape)), TensorOps.Matmul(s, t))
  {
    hide Size, Yields, TensorOps.Matmul, MatmulOk, MatmulShape;
    BilinearYields(w, Matmul, x, y, MatmulShape(s.shape, t.shape), s, t);
  }
}
