/** Graph operations, their typing, their values and their forward tangents. */
module Program {
  import opened Products
  import opened Sums
  import opened Shapes
  import opened IndexSums
  import opened Tensors
  import opened TensorOps
  import opened Adjoints
  import opened Maxima
  import Convolution
  import MaxPooling
  import Pooling

  datatype DType = F32 | F16 | BF16 | I32 | U8

  predicate Floating(d: DType)
  {
    d.F32? || d.F16? || d.BF16?
  }

  /** Elementwise functions of one operand. */
  datatype Fn = Neg | Abs | Relu | Sin | Cos | Erf | Exp | Log | Log1p | Expm1 | Sqrt | Rsqrt | Tanh
              | Softplus | Sigmoid | Floor | Ceil | Round | RoundTiesEven

  /** Scalar literals whose value is left to the environment. */
  datatype Known = NaN | TwoOverRootPi

  datatype BinaryOp = Add | Sub | Mul | Div | Maximum | Minimum

  datatype Comparison = Equal | NotEqual | Less | LessEqual | Greater | GreaterEqual

  /** Operations linear in their only differentiable operand. */
  datatype Linear =
    | Reshape
    | OptimizationBarrier
    | Slice(slices: seq<SliceAxis>)
    | SliceGradient(slices: seq<SliceAxis>)
    | Transpose(permutation: seq<nat>)
    | Reverse(axes: seq<nat>)
    | Broadcast(axes: seq<nat>)
    | ReduceSum(axes: seq<nat>)
    | Cumsum(axis: nat)
    | SumPool2d(pool: Pooling.PoolOptions)

  /** Operations linear in each of their two operands. */
  datatype Bilinear =
    | Matmul
    | Conv2d(options: Convolution.ConvOptions)
    | Conv2dOihw(options: Convolution.ConvOptions)
    | ConvTranspose2d(options: Convolution.ConvOptions, extraH: int, extraW: int)
    | Conv2dInputGradient(options: Convolution.ConvOptions)
    | Conv2dKernelGradient(options: Convolution.ConvOptions)

  datatype Op =
    | Leaf(slot: nat)
    | StateInput(slot: nat)
    | StateWrite
    | Constant(value: Tensor)
    | Literal(known: Known)
    | StopGradient
    | IndexToFloat
    | Convert
    | WithGradient
    | WithElementwiseDerivative
    | Unary(fn: Fn)
    | Binary(bin: BinaryOp)
    | Select
    | ReduceMax(axes: seq<nat>)
    | MaxPool2d(pool: Pooling.PoolOptions)
    | MaxPool2dGradient(pool: Pooling.PoolOptions)
    | CompareMask(cmp: Comparison)
    | Apply(linear: Linear)
    | Pad(padding: seq<Edge>)
    | Concatenate(axis: nat)
    | Combine(bilinear: Bilinear)
    | Attention(scale: real)
    | Take(axis: nat, batched: bool)
    | GatherGradient(axis: nat, batched: bool)
    | DynamicSlice
    | DynamicUpdateSlice
    | Opaque(tag: nat)

  datatype Node = Node(op: Op, operands: seq<nat>, dims: Shape, dtype: DType)

  /** Values of the graph's inputs and of the elementary functions. */
  datatype RawEnv = Env(
    leaf: nat -> Tensor,
    state: nat -> Tensor,
    fn: (Fn, real) -> real,
    nan: real,
    lowest: real,
    twoOverRootPi: real,
    opaque_: (nat, seq<Tensor>) -> Tensor)

  // ----- scalar functions -----

  /** Division, with an arbitrary value where the divisor is zero. */
  function Quot(a: real, b: real): real
  {
    if b == 0.0 then 0.0 else a / b
  }

  function Fun(e: RawEnv, f: Fn, x: real): real
  {
    match f
    case Neg => -x
    case Abs => if x < 0.0 then -x else x
    case Relu => if x > 0.0 then x else 0.0
    case _ => e.fn(f, x)
  }

  /** Derivative of each elementwise function, with its convention at kinks. */
  function Slope(e: RawEnv, f: Fn, x: real): real
  {
    match f
    case Neg => -1.0
    case Abs => if x > 0.0 then 1.0 else if x < 0.0 then -1.0 else 0.0
    case Relu => if x > 0.0 then 1.0 else 0.0
    case Sin => e.fn(Cos, x)
    case Cos => -e.fn(Sin, x)
    case Erf => Times(e.twoOverRootPi, e.fn(Exp, -Times(x, x)))
    case Exp => e.fn(Exp, x)
    case Log => Quot(1.0, x)
    case Log1p => Quot(1.0, x + 1.0)
    case Expm1 => e.fn(Exp, x)
    case Sqrt => Quot(0.5, e.fn(Sqrt, x))
    case Rsqrt => Times(-0.5, Times(Times(e.fn(Rsqrt, x), e.fn(Rsqrt, x)), e.fn(Rsqrt, x)))
    case Tanh => 1.0 - Times(e.fn(Tanh, x), e.fn(Tanh, x))
    case Softplus => e.fn(Sigmoid, x)
    case Sigmoid => Times(e.fn(Sigmoid, x), e.fn(Sigmoid, -x))
    case Floor => 0.0
    case Ceil => 0.0
    case Round => 0.0
    case RoundTiesEven => 0.0
  }

  function Bin(b: BinaryOp, x: real, y: real): real
  {
    match b
    case Add => x + y
    case Sub => x - y
    case Mul => Times(x, y)
    case Div => Quot(x, y)
    case Maximum => if x >= y then x else y
    case Minimum => if x <= y then x else y
  }

  /** Partial derivative in the left operand; ties split evenly. */
  function LeftSlope(b: BinaryOp, x: real, y: real): real
  {
    match b
    case Add => 1.0
    case Sub => 1.0
    case Mul => y
    case Div => Quot(1.0, y)
    case Maximum => if x > y then 1.0 else if x < y then 0.0 else 0.5
    case Minimum => if x < y then 1.0 else if x > y then 0.0 else 0.5
  }

  function RightSlope(b: BinaryOp, x: real, y: real): real
  {
    match b
    case Add => 1.0
    case Sub => -1.0
    case Mul => x
    case Div => -Quot(Quot(x, y), y)
    case Maximum => if x < y then 1.0 else if x > y then 0.0 else 0.5
    case Minimum => if x > y then 1.0 else if x < y then 0.0 else 0.5
  }

  function Compare(c: Comparison, x: real, y: real): real
  {
    var holds := match c
      case Equal => x == y
      case NotEqual => x != y
      case Less => x < y
      case LessEqual => x <= y
      case Greater => x > y
      case GreaterEqual => x >= y;
    if holds then 1.0 else 0.0
  }

  // ----- elementwise tensors -----

  function U(e: RawEnv, f: Fn, t: Tensor): (r: Tensor)
    ensures r.shape == t.shape
  {
    Map(t, (x: real) => Fun(e, f, x))
  }

  function B(b: BinaryOp, s: Tensor, t: Tensor): (r: Tensor)
    requires s.shape == t.shape
    ensures r.shape == s.shape
  {
    Zip(s, t, (x: real, y: real) => Bin(b, x, y))
  }

  function C(c: Comparison, s: Tensor, t: Tensor): (r: Tensor)
    requires s.shape == t.shape
    ensures r.shape == s.shape
  {
    Zip(s, t, (x: real, y: real) => Compare(c, x, y))
  }

  function AddScalar(t: Tensor, c: real): (r: Tensor)
    ensures r.shape == t.shape
  {
    B(Add, t, Fill(t.shape, c))
  }

  function MulScalar(t: Tensor, c: real): (r: Tensor)
    ensures r.shape == t.shape
  {
    B(Mul, t, Fill(t.shape, c))
  }

  // ----- typing -----

  predicate LinearOk(l: Linear, x: Shape, dims: Shape)
  {
    match l
    case Reshape => Size(x) == Size(dims)
    case OptimizationBarrier => dims == x
    case Slice(axes) => SliceOk(x, axes) && dims == SliceShape(axes)
    case SliceGradient(axes) => SliceOk(dims, axes) && x == SliceShape(axes)
    case Transpose(perm) => IsPerm(perm, |x|) && dims == Permuted(x, perm)
    case Reverse(axes) => dims == x
    case Broadcast(axes) => BroadcastOk(x, dims, axes)
    case ReduceSum(axes) => dims == Drop(x, Mask(axes, |x|))
    case Cumsum(axis) => axis < |x| && dims == x
    case SumPool2d(p) => Pooling.PoolOk(p, x) && dims == Pooling.PoolShape(p, x)
  }

  predicate BilinearOk(b: Bilinear, s: Shape, t: Shape, dims: Shape)
  {
    match b
    case Matmul => MatmulOk(s, t) && dims == MatmulShape(s, t)
    case Conv2d(o) => Convolution.ConvOk(o, s, t) && dims == Convolution.ConvShape(o, s, t)
    case Conv2dOihw(o) => |t| == 4 && Convolution.ConvOk(o, s, HwioShape(t)) && dims == Convolution.ConvShape(o, s, HwioShape(t))
    case ConvTranspose2d(o, eh, ew) =>
      Convolution.TransposeOk(o, eh, ew, s, t) && dims == Convolution.TransposeShape(o, eh, ew, s, t)
    case Conv2dInputGradient(o) =>
      Convolution.ConvOk(o, dims, t) && s == Convolution.ConvShape(o, dims, t) && 0 !in s && 0 !in dims
    case Conv2dKernelGradient(o) =>
      Convolution.ConvOk(o, s, dims) && t == Convolution.ConvShape(o, s, dims) && 0 !in s && 0 !in t
  }

  function HwioShape(t: Shape): Shape
    requires |t| == 4
  {
    [t[2], t[3], t[1], t[0]]
  }

  predicate AttentionOk(shapes: seq<Shape>, dims: Shape)
  {
    3 <= |shapes| <= 4 &&
    var q, k, v := shapes[0], shapes[1], shapes[2];
    && |q| == |k| == |v| >= 2
    && q[..|q| - 2] == k[..|q| - 2] == v[..|q| - 2]
    && q[|q| - 1] == k[|q| - 1] && k[|q| - 2] == v[|q| - 2]
    && dims == q[..|q| - 1] + [v[|q| - 1]]
    && (|shapes| == 4 ==> shapes[3] == q[..|q| - 1] + [k[|q| - 2]])
  }

  predicate ConcatTyped(shapes: seq<Shape>, axis: nat, dims: Shape)
  {
    && |shapes| > 0 && axis < |dims|
    && (forall k :: 0 <= k < |shapes| ==> |shapes[k]| == |dims| && shapes[k] == dims[axis := shapes[k][axis]])
    && dims[axis] == SumAxis(shapes, axis, |shapes|)
  }

  predicate PadTyped(shapes: seq<Shape>, padding: seq<Edge>, dims: Shape)
  {
    |shapes| == 2 && |padding| == |shapes[0]| && shapes[1] == [] && dims == PadShape(shapes[0], padding)
  }

  predicate StartsOk(shapes: seq<Shape>, from: nat, rank: nat)
  {
    |shapes| == from + rank && forall k :: from <= k < |shapes| ==> shapes[k] == []
  }

  predicate NodeOk(op: Op, shapes: seq<Shape>, dims: Shape)
  {
    match op
    case Leaf(_) => shapes == []
    case StateInput(_) => shapes == []
    case StateWrite => shapes == [dims]
    case Constant(t) => shapes == [] && t.shape == dims
    case Literal(_) => shapes == [] && dims == []
    case StopGradient => shapes == [dims]
    case IndexToFloat => shapes == [dims]
    case Convert => shapes == [dims]
    case WithGradient => shapes == [dims, dims]
    case WithElementwiseDerivative =>
      |shapes| >= 3 && |shapes| % 2 == 1 && forall k :: 0 <= k < |shapes| ==> shapes[k] == dims
    case Unary(_) => shapes == [dims]
    case Binary(_) => shapes == [dims, dims]
    case Select => shapes == [dims, dims, dims]
    case ReduceMax(axes) => |shapes| == 1 && dims == Drop(shapes[0], Mask(axes, |shapes[0]|))
    case MaxPool2d(p) => |shapes| == 1 && Pooling.PoolOk(p, shapes[0]) && dims == Pooling.PoolShape(p, shapes[0])
    case MaxPool2dGradient(p) =>
      |shapes| == 2 && Pooling.PoolOk(p, dims) && shapes[0] == dims && shapes[1] == Pooling.PoolShape(p, dims)
    case CompareMask(_) => shapes == [dims, dims]
    case Apply(l) => |shapes| == 1 && LinearOk(l, shapes[0], dims)
    case Pad(padding) => PadTyped(shapes, padding, dims)
    case Concatenate(axis) => ConcatTyped(shapes, axis, dims)
    case Combine(b) => |shapes| == 2 && BilinearOk(b, shapes[0], shapes[1], dims)
    case Attention(_) => AttentionOk(shapes, dims)
    case Take(axis, batched) =>
      |shapes| == 2 && axis < |shapes[0]| && dims == GatherShape(shapes[0], shapes[1], axis, batched)
    case GatherGradient(axis, batched) =>
      |shapes| == 2 && axis < |dims| && shapes[0] == GatherShape(dims, shapes[1], axis, batched)
    case DynamicSlice => |shapes| >= 1 && |dims| == |shapes[0]| && StartsOk(shapes, 1, |dims|) && Fits(dims, shapes[0])
    case DynamicUpdateSlice =>
      |shapes| >= 2 && shapes[0] == dims && |shapes[1]| == |dims| && StartsOk(shapes, 2, |dims|) && Fits(shapes[1], dims)
    case Opaque(_) => true
  }

  predicate Fits(inner: Shape, outer: Shape)
  {
    |inner| == |outer| && forall a :: 0 <= a < |inner| ==> inner[a] <= outer[a]
  }

  function SumAxis(shapes: seq<Shape>, axis: nat, k: nat): nat
  {
    if k == 0 then 0 else
      var last := if k - 1 < |shapes| && axis < |shapes[k - 1]| then shapes[k - 1][axis] else 0;
      SumAxis(shapes, axis, k - 1) + last
  }

  function ShapesOf(args: seq<Tensor>): (s: seq<Shape>)
    ensures |s| == |args| && forall k :: 0 <= k < |args| ==> s[k] == args[k].shape
  {
    seq(|args|, (k: nat) requires k < |args| => args[k].shape)
  }

  function Shaped(t: Tensor, dims: Shape): (r: Tensor)
    ensures r.shape == dims
  {
    if t.shape == dims then t else Fill(dims, 0.0)
  }

  // ----- values -----

  function ApplyLinear(l: Linear, t: Tensor, dims: Shape): (r: Tensor)
    requires LinearOk(l, t.shape, dims)
    ensures r.shape == dims
  {
    match l
    case Reshape => TensorOps.Reshape(t, dims)
    case OptimizationBarrier => t
    case Slice(axes) => TensorOps.Slice(t, axes)
    case SliceGradient(axes) => TensorOps.SliceGradient(t, axes, dims)
    case Transpose(perm) => TensorOps.Transpose(t, perm)
    case Reverse(axes) => Flip(t, axes)
    case Broadcast(axes) => TensorOps.Broadcast(t, dims, axes)
    case ReduceSum(axes) => TensorOps.ReduceSum(t, Mask(axes, |t.shape|))
    case Cumsum(axis) => TensorOps.Cumsum(t, axis)
    case SumPool2d(p) => Pooling.SumPool2d(t, p)
  }

  lemma NonemptyAxes(x: Shape, y: Shape)
    requires |x| == 4 && |y| == 4 && 0 !in x && 0 !in y
    ensures x[1] > 0 && x[2] > 0 && y[1] > 0 && y[2] > 0
  {
    assert x[1] in x && x[2] in x && y[1] in y && y[2] in y;
  }

  function ApplyBilinear(b: Bilinear, s: Tensor, t: Tensor, dims: Shape): (r: Tensor)
    requires BilinearOk(b, s.shape, t.shape, dims)
    ensures r.shape == dims
  {
    match b
    case Matmul => TensorOps.Matmul(s, t)
    case Conv2d(o) => Convolution.Conv2d(s, t, o)
    case Conv2dOihw(o) => Convolution.Conv2d(s, Convolution.Hwio(t), o)
    case ConvTranspose2d(o, eh, ew) => Convolution.ConvTranspose2d(s, t, o, eh, ew)
    case Conv2dInputGradient(o) =>
      NonemptyAxes(dims, s.shape);
      Convolution.InputGradient(dims, t, o, s)
    case Conv2dKernelGradient(o) => Convolution.KernelGradient(s, t, dims, o)
  }

  /** Runtime starts are scalar I32 operands. */
  function Starts(args: seq<Tensor>, from: nat): seq<int>
    requires from <= |args|
  {
    seq(|args| - from, (k: nat) requires k < |args| - from => At(args[from + k], []).Floor)
  }

  function LastMask(rank: nat): seq<bool>
  {
    seq(rank, (a: nat) => a + 1 == rank)
  }

  /** Sum over the last axis, broadcast back. */
  function RowTotal(t: Tensor): (r: Tensor)
    ensures r.shape == t.shape
  {
    Unreduce(TensorOps.ReduceSum(t, LastMask(|t.shape|)), t.shape, LastMask(|t.shape|))
  }

  function Softmax(e: RawEnv, t: Tensor): (r: Tensor)
    ensures r.shape == t.shape
  {
    var w := U(e, Exp, t);
    B(Div, w, RowTotal(w))
  }

  function Scores(q: Tensor, k: Tensor, scale: real): (r: Tensor)
    requires |q.shape| == |k.shape| >= 2 && q.shape[..|q.shape| - 2] == k.shape[..|q.shape| - 2]
    requires q.shape[|q.shape| - 1] == k.shape[|q.shape| - 1]
    ensures r.shape == q.shape[..|q.shape| - 1] + [k.shape[|q.shape| - 2]]
  {
    MulScalar(TensorOps.Matmul(q, SwapTensor(k)), scale)
  }

  function Probabilities(e: RawEnv, args: seq<Tensor>, dims: Shape, scale: real): (r: Tensor)
    requires AttentionOk(ShapesOf(args), dims)
    ensures r.shape == dims[..|dims| - 1] + [args[1].shape[|dims| - 2]]
  {
    var s := Scores(args[0], args[1], scale);
    Softmax(e, if |args| == 4 then B(Add, s, args[3]) else s)
  }

  function AttentionValue(e: RawEnv, args: seq<Tensor>, dims: Shape, scale: real): (r: Tensor)
    requires AttentionOk(ShapesOf(args), dims)
    ensures r.shape == dims
  {
    TensorOps.Matmul(Probabilities(e, args, dims, scale), args[2])
  }

  /** Operations whose position is chosen by integer operands at run time. */
  predicate Indexed(op: Op)
  {
    op.Take? || op.GatherGradient? || op.DynamicSlice? || op.DynamicUpdateSlice?
  }

  function ForwardIndexed(op: Op, dims: Shape, args: seq<Tensor>): (r: Tensor)
    requires NodeOk(op, ShapesOf(args), dims) && Indexed(op)
    ensures r.shape == dims
  {
    match op
    case Take(axis, batched) => Gather(args[0], args[1], axis, batched)
    case GatherGradient(axis, batched) => TensorOps.GatherGradient(args[0], args[1], axis, batched, dims)
    case DynamicSlice => TensorOps.DynamicSlice(args[0], Starts(args, 1), dims)
    case DynamicUpdateSlice => TensorOps.DynamicUpdateSlice(args[0], args[1], Starts(args, 2))
  }

  /** Operations that rearrange or contract their operands. */
  predicate Structural(op: Op)
  {
    op.Apply? || op.Pad? || op.Concatenate? || op.Combine? || op.Attention?
  }

  function ForwardStructural(op: Op, dims: Shape, args: seq<Tensor>, e: RawEnv): (r: Tensor)
    requires NodeOk(op, ShapesOf(args), dims) && Structural(op)
    ensures r.shape == dims
  {
    match op
    case Apply(l) => ApplyLinear(l, args[0], dims)
    case Pad(padding) => TensorOps.Pad(args[0], padding, args[1])
    case Concatenate(axis) => Pieces(args, axis, |args|, dims)
    case Combine(b) => ApplyBilinear(b, args[0], args[1], dims)
    case Attention(scale) => AttentionValue(e, args, dims, scale)
  }

  /** The value of one node. */
  function Forward(op: Op, dims: Shape, args: seq<Tensor>, e: RawEnv): (r: Tensor)
    requires NodeOk(op, ShapesOf(args), dims)
    ensures r.shape == dims
  {
    if Structural(op) then ForwardStructural(op, dims, args, e)
    else if Indexed(op) then ForwardIndexed(op, dims, args) else
    match op
    case Leaf(slot) => Shaped(e.leaf(slot), dims)
    case StateInput(slot) => Shaped(e.state(slot), dims)
    case StateWrite => args[0]
    case Constant(t) => t
    case Literal(known) => Fill([], if known.NaN? then e.nan else e.twoOverRootPi)
    case StopGradient => args[0]
    case IndexToFloat => args[0]
    case Convert => args[0]
    case WithGradient => args[0]
    case WithElementwiseDerivative => args[0]
    case Unary(f) => U(e, f, args[0])
    case Binary(b) => B(b, args[0], args[1])
    case Select => Choose(args[0], args[1], args[2])
    case ReduceMax(axes) => ReduceMaximum(args[0], Mask(axes, |args[0].shape|), e.lowest)
    case MaxPool2d(p) => MaxPooling.MaxPool2d(args[0], p, e.lowest)
    case MaxPool2dGradient(p) => MaxPooling.MaxPoolGradient(args[0], args[1], p)
    case CompareMask(c) => C(c, args[0], args[1])
    case Opaque(tag) => Shaped(e.opaque_(tag, args), dims)
  }
}
