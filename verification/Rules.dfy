/** Forward tangents, the reverse rule of each operation, and their adjointness. */
module Rules {
  import opened Products
  import opened Sums
  import opened Shapes
  import opened IndexSums
  import opened Tensors
  import opened TensorOps
  import opened Adjoints
  import opened Program
  import opened Maxima
  import opened MaxRules
  import Convolution
  import MaxPooling
  import Pooling

  // ----- elementwise rules -----

  predicate Rounding(f: Fn)
  {
    f.Floor? || f.Ceil? || f.Round? || f.RoundTiesEven?
  }

  /** Cotangent recorded for the operand of an elementwise function; y is the forward value. */
  function UnaryRule(e: RawEnv, f: Fn, x: Tensor, y: Tensor, dy: Tensor): (r: Tensor)
    requires x.shape == y.shape == dy.shape
    ensures r.shape == x.shape
  {
    var zero, nan := Fill(x.shape, 0.0), Fill(x.shape, e.nan);
    match f
    case Neg => U(e, Neg, dy)
    case Abs => Choose(C(Greater, x, zero), dy, Choose(C(Less, x, zero), U(e, Neg, dy), Choose(C(Equal, x, zero), zero, nan)))
    case Relu => Choose(C(Greater, x, zero), dy, zero)
    case Sin => B(Mul, dy, U(e, Cos, x))
    case Cos => U(e, Neg, B(Mul, dy, U(e, Sin, x)))
    case Erf => MulScalar(B(Mul, dy, U(e, Exp, U(e, Neg, B(Mul, x, x)))), e.twoOverRootPi)
    case Exp => B(Mul, dy, y)
    case Log => B(Div, dy, x)
    case Log1p => B(Div, dy, AddScalar(x, 1.0))
    case Expm1 => B(Mul, dy, U(e, Exp, x))
    case Sqrt => MulScalar(B(Div, dy, y), 0.5)
    case Rsqrt => MulScalar(B(Mul, dy, B(Mul, B(Mul, y, y), y)), -0.5)
    case Tanh => B(Mul, dy, AddScalar(U(e, Neg, B(Mul, y, y)), 1.0))
    case Softplus => B(Mul, dy, U(e, Sigmoid, x))
    case Sigmoid => B(Mul, B(Mul, dy, y), U(e, Sigmoid, U(e, Neg, x)))
    case _ => zero
  }

  lemma QuotScale(a: real, x: real)
    ensures Quot(a, x) == Times(a, Quot(1.0, x))
    ensures Times(Quot(a, x), 0.5) == Times(a, Quot(0.5, x))
    ensures -Quot(Times(a, Quot(1.0, x)), x) == Times(a, -Quot(Quot(1.0, x), x))
  {
    if x != 0.0 {
      DivMul(a, x);
      DivMul(0.5, x);
      DivMul(a * (1.0 / x), x);
      DivMul(1.0 / x, x);
    }
  }

  lemma DivMul(a: real, x: real)
    requires x != 0.0
    ensures a / x == a * (1.0 / x)
  {
    var q, r := a / x, 1.0 / x;
    assert q * x == a && r * x == 1.0;
    assert (q - a * r) * x == a - a * (r * x);
  }

  lemma QuotTimes(a: real, p: real, b: real)
    ensures Quot(Times(a, p), b) == Times(a, Quot(p, b))
  {
    QuotScale(Times(a, p), b);
    QuotScale(p, b);
    TimesAssoc(a, p, Quot(1.0, b));
  }

  predicate Quotient(f: Fn)
  {
    f.Log? || f.Log1p? || f.Sqrt?
  }

  lemma QuotientRuleAt(e: RawEnv, f: Fn, x: Tensor, dy: Tensor, I: Index)
    requires x.shape == dy.shape && Valid(x.shape, I) && Quotient(f)
    ensures At(UnaryRule(e, f, x, U(e, f, x), dy), I) == Times(At(dy, I), Slope(e, f, At(x, I)))
  {
    hide Size, At, Flat, Valid;
    var v, d := At(x, I), At(dy, I);
    QuotScale(d, if f.Log? then v else if f.Log1p? then v + 1.0 else e.fn(Sqrt, v));
  }

  /** Slopes that are products or squares themselves. */
  predicate Compound(f: Fn)
  {
    f.Erf? || f.Rsqrt? || f.Tanh? || f.Sigmoid?
  }

  lemma CompoundRuleAt(e: RawEnv, f: Fn, x: Tensor, dy: Tensor, I: Index)
    requires x.shape == dy.shape && Valid(x.shape, I) && Compound(f)
    ensures At(UnaryRule(e, f, x, U(e, f, x), dy), I) == Times(At(dy, I), Slope(e, f, At(x, I)))
  {
    hide Size, At, Flat, Valid, Quot;
  }

  lemma SimpleRuleAt(e: RawEnv, f: Fn, x: Tensor, dy: Tensor, I: Index)
    requires x.shape == dy.shape && Valid(x.shape, I) && !Rounding(f) && !Quotient(f) && !Compound(f)
    ensures At(UnaryRule(e, f, x, U(e, f, x), dy), I) == Times(At(dy, I), Slope(e, f, At(x, I)))
  {
    hide Size, At, Flat, Valid, Quot;
  }

  lemma UnaryRuleAt(e: RawEnv, f: Fn, x: Tensor, dy: Tensor, I: Index)
    requires x.shape == dy.shape && Valid(x.shape, I) && !Rounding(f)
    ensures At(UnaryRule(e, f, x, U(e, f, x), dy), I) == Times(At(dy, I), Slope(e, f, At(x, I)))
  {
    hide *;
    if Quotient(f) {
      QuotientRuleAt(e, f, x, dy, I);
    } else if Compound(f) {
      CompoundRuleAt(e, f, x, dy, I);
    } else {
      SimpleRuleAt(e, f, x, dy, I);
    }
  }

  /** Tangent of an elementwise function: slope times operand tangent. */
  function UnaryTangent(e: RawEnv, f: Fn, x: Tensor, dx: Tensor): (r: Tensor)
    requires x.shape == dx.shape
    ensures r.shape == x.shape
  {
    Hadamard(Map(x, (v: real) => Slope(e, f, v)), dx)
  }

  /** An elementwise rule that multiplies by the slope is adjoint to the tangent. */
  lemma SlopeAdjoint(dy: Tensor, slope: Tensor, c: Tensor, dx: Tensor)
    requires dy.shape == slope.shape == c.shape == dx.shape
    requires forall I :: Valid(dy.shape, I) ==> At(c, I) == Times(At(dy, I), At(slope, I))
    ensures Inner(dy, Hadamard(slope, dx)) == Inner(c, dx)
  {
    hide Times, Size, At, Inner;
    HadamardAdjoint(dy, slope, dx);
    Ext(c, Hadamard(dy, slope));
  }

  lemma UnaryAdjoint(e: RawEnv, f: Fn, x: Tensor, dy: Tensor, dx: Tensor)
    requires x.shape == dy.shape == dx.shape && !Rounding(f)
    ensures Inner(dy, UnaryTangent(e, f, x, dx)) == Inner(UnaryRule(e, f, x, U(e, f, x), dy), dx)
  {
    hide Times, Size, At, Inner, UnaryRule, Slope, U;
    forall I | Valid(x.shape, I)
      ensures At(UnaryRule(e, f, x, U(e, f, x), dy), I) == Times(At(dy, I), At(Map(x, (v: real) => Slope(e, f, v)), I))
    {
      UnaryRuleAt(e, f, x, dy, I);
    }
    SlopeAdjoint(dy, Map(x, (v: real) => Slope(e, f, v)), UnaryRule(e, f, x, U(e, f, x), dy), dx);
  }

  /** Cotangents recorded for the two operands of a binary operation. */
  function BinaryRule(e: RawEnv, b: BinaryOp, s: Tensor, t: Tensor, dy: Tensor): (r: (Tensor, Tensor))
    requires s.shape == t.shape == dy.shape
    ensures r.0.shape == r.1.shape == s.shape
  {
    match b
    case Add => (dy, dy)
    case Sub => (dy, U(e, Neg, dy))
    case Mul => (B(Mul, dy, t), B(Mul, dy, s))
    case Div => (B(Div, dy, t), U(e, Neg, B(Div, B(Mul, dy, B(Div, s, t)), t)))
    case Maximum => TieRule(e, C(Greater, s, t), C(Less, s, t), s, t, dy)
    case Minimum => TieRule(e, C(Less, s, t), C(Greater, s, t), s, t, dy)
  }

  function TieRule(e: RawEnv, left: Tensor, right: Tensor, s: Tensor, t: Tensor, dy: Tensor): (r: (Tensor, Tensor))
    requires left.shape == right.shape == s.shape == t.shape == dy.shape
    ensures r.0.shape == r.1.shape == s.shape
  {
    var zero, nan := Fill(s.shape, 0.0), Fill(s.shape, e.nan);
    var tie := Choose(C(Equal, s, t), MulScalar(dy, 0.5), nan);
    (Choose(left, dy, Choose(right, zero, tie)), Choose(right, dy, Choose(left, zero, tie)))
  }

  lemma BinaryRuleAt(e: RawEnv, b: BinaryOp, s: Tensor, t: Tensor, dy: Tensor, I: Index)
    requires s.shape == t.shape == dy.shape && Valid(s.shape, I)
    ensures At(BinaryRule(e, b, s, t, dy).0, I) == Times(At(dy, I), LeftSlope(b, At(s, I), At(t, I)))
    ensures At(BinaryRule(e, b, s, t, dy).1, I) == Times(At(dy, I), RightSlope(b, At(s, I), At(t, I)))
  {
    hide Size, At, Flat, Valid;
    var x, y, d := At(s, I), At(t, I), At(dy, I);
    match b
    case Div =>
      QuotScale(d, y);
      QuotTimes(d, Quot(x, y), y);
    case _ =>
  }

  function BinaryTangent(b: BinaryOp, s: Tensor, t: Tensor, ds: Tensor, dt: Tensor): (r: Tensor)
    requires s.shape == t.shape == ds.shape == dt.shape
    ensures r.shape == s.shape
  {
    Plus(Hadamard(Zip(s, t, (x: real, y: real) => LeftSlope(b, x, y)), ds),
         Hadamard(Zip(s, t, (x: real, y: real) => RightSlope(b, x, y)), dt))
  }

  lemma BinaryAdjoint(e: RawEnv, b: BinaryOp, s: Tensor, t: Tensor, dy: Tensor, ds: Tensor, dt: Tensor)
    requires s.shape == t.shape == dy.shape == ds.shape == dt.shape
    ensures Inner(dy, BinaryTangent(b, s, t, ds, dt))
         == Inner(BinaryRule(e, b, s, t, dy).0, ds) + Inner(BinaryRule(e, b, s, t, dy).1, dt)
  {
    hide Times, Size, At, Inner, BinaryRule, LeftSlope, RightSlope;
    var r := BinaryRule(e, b, s, t, dy);
    var left := Zip(s, t, (x: real, y: real) => LeftSlope(b, x, y));
    var right := Zip(s, t, (x: real, y: real) => RightSlope(b, x, y));
    forall I | Valid(s.shape, I)
      ensures At(r.0, I) == Times(At(dy, I), At(left, I)) && At(r.1, I) == Times(At(dy, I), At(right, I))
    {
      BinaryRuleAt(e, b, s, t, dy, I);
    }
    SlopeAdjoint(dy, left, r.0, ds);
    SlopeAdjoint(dy, right, r.1, dt);
    InnerAdd(dy, Hadamard(left, ds), Hadamard(right, dt), BinaryTangent(b, s, t, ds, dt));
  }

  /** Select routes the cotangent to the branch the mask chose. */
  lemma SelectAdjoint(mask: Tensor, dy: Tensor, ds: Tensor, dt: Tensor)
    requires mask.shape == dy.shape == ds.shape == dt.shape
    ensures Inner(dy, Choose(mask, ds, dt))
         == Inner(Choose(mask, dy, Fill(dy.shape, 0.0)), ds) + Inner(Choose(mask, Fill(dy.shape, 0.0), dy), dt)
  {
    hide Times, Size, At, Inner;
    var zero := Fill(dy.shape, 0.0);
    var one := Fill(dy.shape, 1.0);
    var left, right := Choose(mask, one, zero), Choose(mask, zero, one);
    forall I | Valid(dy.shape, I)
      ensures At(Choose(mask, dy, zero), I) == Times(At(dy, I), At(left, I))
      ensures At(Choose(mask, zero, dy), I) == Times(At(dy, I), At(right, I))
      ensures At(Choose(mask, ds, dt), I) == At(Hadamard(left, ds), I) + At(Hadamard(right, dt), I)
    {
      SelectAt(mask, dy, ds, dt, I);
    }
    SlopeAdjoint(dy, left, Choose(mask, dy, zero), ds);
    SlopeAdjoint(dy, right, Choose(mask, zero, dy), dt);
    InnerAdd(dy, Hadamard(left, ds), Hadamard(right, dt), Choose(mask, ds, dt));
  }

  lemma SelectAt(mask: Tensor, dy: Tensor, ds: Tensor, dt: Tensor, I: Index)
    requires mask.shape == dy.shape == ds.shape == dt.shape && Valid(dy.shape, I)
    ensures var zero, one := Fill(dy.shape, 0.0), Fill(dy.shape, 1.0);
            && At(Choose(mask, dy, zero), I) == Times(At(dy, I), At(Choose(mask, one, zero), I))
            && At(Choose(mask, zero, dy), I) == Times(At(dy, I), At(Choose(mask, zero, one), I))
            && At(Choose(mask, ds, dt), I)
              == At(Hadamard(Choose(mask, one, zero), ds), I) + At(Hadamard(Choose(mask, zero, one), dt), I)
  {
    hide Size, At, Flat, Valid;
  }

  // ----- linear operations -----

  /** The operation recorded for the operand of a linear operation. */
  function LinearRule(l: Linear, dy: Tensor, x: Shape): (r: Tensor)
    requires LinearOk(l, x, dy.shape)
    ensures r.shape == x
  {
    match l
    case Reshape => TensorOps.Reshape(dy, x)
    case OptimizationBarrier => dy
    case Slice(axes) => TensorOps.SliceGradient(dy, axes, x)
    case SliceGradient(axes) => TensorOps.Slice(dy, axes)
    case Transpose(perm) =>
      PermutedInverse(perm, x);
      TensorOps.Transpose(dy, Inverse(perm))
    case Reverse(axes) => Flip(dy, axes)
    case Broadcast(axes) => Unbroadcast(dy, x, axes)
    case ReduceSum(axes) => Unreduce(dy, x, Mask(axes, |x|))
    case Cumsum(axis) => Flip(TensorOps.Cumsum(Flip(dy, [axis]), axis), [axis])
    case SumPool2d(p) => Pooling.SumPoolGradient(dy, x, p)
  }

  lemma LinearAdjoint(l: Linear, dy: Tensor, x: Tensor)
    requires LinearOk(l, x.shape, dy.shape)
    ensures Inner(dy, ApplyLinear(l, x, dy.shape)) == Inner(LinearRule(l, dy, x.shape), x)
  {
    hide Times, Size, At, Inner, Drop, SliceOk, BroadcastOk, IsPerm;
    match l
    case Reshape => ReshapeAdjoint(dy, x);
    case OptimizationBarrier =>
    case Slice(axes) => SliceAdjoint(dy, x, axes);
    case SliceGradient(axes) => SliceGradientAdjoint(dy, x, axes);
    case Transpose(perm) => TransposeAdjoint(dy, x, perm);
    case Reverse(axes) => FlipAdjoint(dy, x, axes);
    case Broadcast(axes) => BroadcastAdjoint(dy, x, axes);
    case ReduceSum(axes) => ReduceAdjoint(dy, x, Mask(axes, |x.shape|));
    case Cumsum(axis) => CumsumAdjoint(dy, x, axis);
    case SumPool2d(p) => Pooling.SumPoolAdjoint(x, dy, p);
  }

  // ----- bilinear operations -----

  predicate AnyEmpty(s: Shape, t: Shape)
  {
    0 in s || 0 in t
  }

  /** Input cotangent of a convolution: zeros when an operand or the output is empty. */
  function ConvInputRule(o: Convolution.ConvOptions, x: Shape, k: Tensor, dy: Tensor): (r: Tensor)
    requires Convolution.ConvOk(o, x, k.shape) && dy.shape == Convolution.ConvShape(o, x, k.shape)
    ensures r.shape == x
  {
    if AnyEmpty(x, dy.shape) then Fill(x, 0.0)
    else
      assert x[1] > 0 && x[2] > 0 && dy.shape[1] > 0 && dy.shape[2] > 0;
      Convolution.InputGradient(x, k, o, dy)
  }

  function ConvKernelRule(o: Convolution.ConvOptions, x: Tensor, k: Shape, dy: Tensor): (r: Tensor)
    requires Convolution.ConvOk(o, x.shape, k) && dy.shape == Convolution.ConvShape(o, x.shape, k)
    ensures r.shape == k
  {
    if AnyEmpty(x.shape, dy.shape) then Fill(k, 0.0) else Convolution.KernelGradient(x, dy, k, o)
  }

  lemma ConvRulesAdjoint(o: Convolution.ConvOptions, x: Tensor, k: Tensor, dy: Tensor)
    requires Convolution.ConvOk(o, x.shape, k.shape) && dy.shape == Convolution.ConvShape(o, x.shape, k.shape)
    ensures Inner(dy, Convolution.Conv2d(x, k, o)) == Inner(ConvInputRule(o, x.shape, k, dy), x)
    ensures Inner(dy, Convolution.Conv2d(x, k, o)) == Inner(ConvKernelRule(o, x, k.shape, dy), k)
  {
    hide Size, At, Times, Inner, Convolution.Conv2d, Convolution.InputGradient, Convolution.KernelGradient;
    if AnyEmpty(x.shape, dy.shape) {
      Convolution.ConvEmpty(x, k, o, dy);
      InnerZero(x, Fill(x.shape, 0.0));
      InnerZero(k, Fill(k.shape, 0.0));
    } else {
      assert x.shape[1] > 0 && x.shape[2] > 0 && dy.shape[1] > 0 && dy.shape[2] > 0;
      Convolution.ConvInputAdjoint(x, k, o, dy);
      Convolution.ConvKernelAdjoint(x, k, o, dy);
    }
  }

  function TransposeInputRule(o: Convolution.ConvOptions, eh: int, ew: int, x: Shape, w: Tensor, dy: Tensor): (r: Tensor)
    requires Convolution.TransposeOk(o, eh, ew, x, w.shape) && dy.shape == Convolution.TransposeShape(o, eh, ew, x, w.shape)
    ensures r.shape == x
  {
    if 0 in x then Fill(x, 0.0)
    else
      Convolution.PairedForwardOk(x, w, o, eh, ew);
      Convolution.Conv2d(dy, Convolution.TransposeKernelAsForward(w, o.groups), o)
  }

  function TransposeKernelRule(o: Convolution.ConvOptions, eh: int, ew: int, x: Tensor, w: Tensor, dy: Tensor): (r: Tensor)
    requires Convolution.TransposeOk(o, eh, ew, x.shape, w.shape)
    requires dy.shape == Convolution.TransposeShape(o, eh, ew, x.shape, w.shape)
    ensures r.shape == w.shape
  {
    if 0 in x.shape then Fill(w.shape, 0.0)
    else
      Convolution.PairedForwardOk(x.shape, w, o, eh, ew);
      Convolution.TransposeKernelRuleAdjoint(x, w, o, eh, ew, dy);
      var k := Convolution.TransposeKernelAsForward(w, o.groups);
      Convolution.ForwardKernelAsTranspose(Convolution.KernelGradient(dy, x, k.shape, o), o.groups)
  }

  lemma TransposeRulesAdjoint(o: Convolution.ConvOptions, eh: int, ew: int, x: Tensor, w: Tensor, dy: Tensor)
    requires Convolution.TransposeOk(o, eh, ew, x.shape, w.shape)
    requires dy.shape == Convolution.TransposeShape(o, eh, ew, x.shape, w.shape)
    ensures Inner(dy, Convolution.ConvTranspose2d(x, w, o, eh, ew)) == Inner(TransposeInputRule(o, eh, ew, x.shape, w, dy), x)
    ensures Inner(dy, Convolution.ConvTranspose2d(x, w, o, eh, ew)) == Inner(TransposeKernelRule(o, eh, ew, x, w, dy), w)
  {
    hide Size, At, Times, Inner, Convolution.Conv2d, Convolution.ConvTranspose2d, Convolution.KernelGradient,
      Convolution.TransposeKernelAsForward, Convolution.ForwardKernelAsTranspose;
    if 0 in x.shape {
      assert x.shape[0] == 0;
      assert dy.shape[0] == 0;
      forall I ensures !Valid(dy.shape, I) { NoIndex(dy.shape, I); }
      InnerZero(dy, Convolution.ConvTranspose2d(x, w, o, eh, ew));
      InnerZero(x, Fill(x.shape, 0.0));
      InnerZero(w, Fill(w.shape, 0.0));
    } else {
      Convolution.TransposeInputAdjoint(x, w, o, eh, ew, dy);
      Convolution.TransposeKernelRuleAdjoint(x, w, o, eh, ew, dy);
    }
  }

  /** Cotangent recorded for the left operand. */
  function LeftRule(b: Bilinear, dy: Tensor, s: Tensor, t: Tensor): (r: Tensor)
    requires BilinearOk(b, s.shape, t.shape, dy.shape)
    ensures r.shape == s.shape
  {
    match b
    case Matmul =>
      MatmulLeftAdjoint(dy, s, t);
      TensorOps.Matmul(dy, SwapTensor(t))
    case Conv2d(o) => ConvInputRule(o, s.shape, t, dy)
    case Conv2dOihw(o) => ConvInputRule(o, s.shape, Convolution.Hwio(t), dy)
    case ConvTranspose2d(o, eh, ew) => TransposeInputRule(o, eh, ew, s.shape, t, dy)
    case Conv2dInputGradient(o) => Convolution.Conv2d(dy, t, o)
    case Conv2dKernelGradient(o) => ConvInputRule(o, s.shape, dy, t)
  }

  /** Cotangent recorded for the right operand. */
  function RightRule(b: Bilinear, dy: Tensor, s: Tensor, t: Tensor): (r: Tensor)
    requires BilinearOk(b, s.shape, t.shape, dy.shape)
    ensures r.shape == t.shape
  {
    match b
    case Matmul =>
      MatmulRightAdjoint(dy, s, t);
      TensorOps.Matmul(SwapTensor(s), dy)
    case Conv2d(o) => ConvKernelRule(o, s, t.shape, dy)
    case Conv2dOihw(o) =>
      if AnyEmpty(s.shape, dy.shape) then Fill(t.shape, 0.0)
      else
        var r := Convolution.Oihw(Convolution.KernelGradient(s, dy, HwioShape(t.shape), o));
        assert t.shape == [t.shape[0], t.shape[1], t.shape[2], t.shape[3]];
        r
    case ConvTranspose2d(o, eh, ew) => TransposeKernelRule(o, eh, ew, s, t, dy)
    case Conv2dInputGradient(o) => Convolution.KernelGradient(dy, s, t.shape, o)
    case Conv2dKernelGradient(o) => Convolution.Conv2d(s, dy, o)
  }

  lemma OihwAdjoint(o: Convolution.ConvOptions, dy: Tensor, s: Tensor, dt: Tensor)
    requires BilinearOk(Conv2dOihw(o), s.shape, dt.shape, dy.shape)
    ensures Inner(dy, Convolution.Conv2d(s, Convolution.Hwio(dt), o)) == Inner(RightRule(Conv2dOihw(o), dy, s, dt), dt)
  {
    hide Size, At, Times, Inner, Convolution.Conv2d, Convolution.KernelGradient, Convolution.Hwio, Convolution.Oihw;
    var k := Convolution.Hwio(dt);
    ConvRulesAdjoint(o, s, k, dy);
    if AnyEmpty(s.shape, dy.shape) {
      InnerZero(k, Fill(k.shape, 0.0));
      InnerZero(dt, Fill(dt.shape, 0.0));
    } else {
      Convolution.HwioAdjoint(Convolution.KernelGradient(s, dy, k.shape, o), dt);
    }
  }

  lemma KernelGradientAdjoint(o: Convolution.ConvOptions, dy: Tensor, s: Tensor, t: Tensor)
    requires BilinearOk(Conv2dKernelGradient(o), s.shape, t.shape, dy.shape)
    ensures Inner(dy, Convolution.KernelGradient(s, t, dy.shape, o)) == Inner(ConvInputRule(o, s.shape, dy, t), s)
    ensures Inner(dy, Convolution.KernelGradient(s, t, dy.shape, o)) == Inner(Convolution.Conv2d(s, dy, o), t)
  {
    hide Size, At, Times, Inner, Convolution.Conv2d, Convolution.KernelGradient;
    Convolution.ConvKernelAdjoint(s, dy, o, t);
    ConvRulesAdjoint(o, s, dy, t);
    InnerComm(dy, Convolution.KernelGradient(s, t, dy.shape, o));
    InnerComm(t, Convolution.Conv2d(s, dy, o));
  }

  lemma InputGradientAdjoint(o: Convolution.ConvOptions, dy: Tensor, s: Tensor, t: Tensor)
    requires BilinearOk(Conv2dInputGradient(o), s.shape, t.shape, dy.shape)
    ensures Inner(dy, ApplyBilinear(Conv2dInputGradient(o), s, t, dy.shape)) == Inner(Convolution.Conv2d(dy, t, o), s)
    ensures Inner(dy, ApplyBilinear(Conv2dInputGradient(o), s, t, dy.shape)) == Inner(Convolution.KernelGradient(dy, s, t.shape, o), t)
  {
    hide Size, At, Times, Inner, Convolution.Conv2d, Convolution.InputGradient, Convolution.KernelGradient;
    NonemptyAxes(dy.shape, s.shape);
    Convolution.ConvInputAdjoint(dy, t, o, s);
    Convolution.ConvKernelAdjoint(dy, t, o, s);
    InnerComm(dy, Convolution.InputGradient(dy.shape, t, o, s));
    InnerComm(s, Convolution.Conv2d(dy, t, o));
  }

  lemma LeftAdjoint(b: Bilinear, dy: Tensor, ds: Tensor, t: Tensor)
    requires BilinearOk(b, ds.shape, t.shape, dy.shape)
    ensures Inner(dy, ApplyBilinear(b, ds, t, dy.shape)) == Inner(LeftRule(b, dy, ds, t), ds)
  {
    hide Size, At, Times, Inner, SwapTensor, TensorOps.Matmul, Convolution.Conv2d, Convolution.ConvTranspose2d,
      Convolution.KernelGradient, ConvInputRule, TransposeInputRule, Convolution.Hwio;
    match b
    case Matmul => MatmulLeftAdjoint(dy, ds, t);
    case Conv2d(o) => ConvRulesAdjoint(o, ds, t, dy);
    case Conv2dOihw(o) => ConvRulesAdjoint(o, ds, Convolution.Hwio(t), dy);
    case ConvTranspose2d(o, eh, ew) => TransposeRulesAdjoint(o, eh, ew, ds, t, dy);
    case Conv2dInputGradient(o) => InputGradientAdjoint(o, dy, ds, t);
    case Conv2dKernelGradient(o) => KernelGradientAdjoint(o, dy, ds, t);
  }

  lemma RightAdjoint(b: Bilinear, dy: Tensor, s: Tensor, dt: Tensor)
    requires BilinearOk(b, s.shape, dt.shape, dy.shape)
    ensures Inner(dy, ApplyBilinear(b, s, dt, dy.shape)) == Inner(RightRule(b, dy, s, dt), dt)
  {
    hide Size, At, Times, Inner, SwapTensor, TensorOps.Matmul, Convolution.Conv2d, Convolution.ConvTranspose2d,
      Convolution.KernelGradient, ConvKernelRule, TransposeKernelRule, Convolution.Hwio;
    match b
    case Matmul => MatmulRightAdjoint(dy, s, dt);
    case Conv2d(o) => ConvRulesAdjoint(o, s, dt, dy);
    case Conv2dOihw(o) => OihwAdjoint(o, dy, s, dt);
    case ConvTranspose2d(o, eh, ew) => TransposeRulesAdjoint(o, eh, ew, s, dt, dy);
    case Conv2dInputGradient(o) => InputGradientAdjoint(o, dy, s, dt);
    case Conv2dKernelGradient(o) => KernelGradientAdjoint(o, dy, s, dt);
  }

  /** The left rule does not depend on the left operand's value, only on its shape; likewise the right. */
  lemma BilinearAdjoint(b: Bilinear, dy: Tensor, s: Tensor, t: Tensor, ds: Tensor, dt: Tensor)
    requires BilinearOk(b, s.shape, t.shape, dy.shape) && ds.shape == s.shape && dt.shape == t.shape
    ensures Inner(dy, ApplyBilinear(b, ds, t, dy.shape)) == Inner(LeftRule(b, dy, s, t), ds)
    ensures Inner(dy, ApplyBilinear(b, s, dt, dy.shape)) == Inner(RightRule(b, dy, s, t), dt)
  {
    hide Size, At, Times, Inner, SwapTensor, TensorOps.Matmul, Convolution.Conv2d, Convolution.KernelGradient, ApplyBilinear, BilinearOk;
    LeftAdjoint(b, dy, ds, t);
    RightAdjoint(b, dy, s, dt);
    LeftShapeOnly(b, dy, s, ds, t);
    RightShapeOnly(b, dy, s, t, dt);
  }

  lemma LeftShapeOnly(b: Bilinear, dy: Tensor, s: Tensor, ds: Tensor, t: Tensor)
    requires BilinearOk(b, s.shape, t.shape, dy.shape) && ds.shape == s.shape
    ensures LeftRule(b, dy, s, t) == LeftRule(b, dy, ds, t)
  {
    hide Size, SwapTensor, TensorOps.Matmul;
  }

  lemma RightShapeOnly(b: Bilinear, dy: Tensor, s: Tensor, t: Tensor, dt: Tensor)
    requires BilinearOk(b, s.shape, t.shape, dy.shape) && dt.shape == t.shape
    ensures RightRule(b, dy, s, t) == RightRule(b, dy, s, dt)
  {
    hide Size, SwapTensor, TensorOps.Matmul, TransposeKernelRule;
    if b.ConvTranspose2d? {
      TransposeKernelShapeOnly(b.options, b.extraH, b.extraW, s, t, dt, dy);
    }
  }

  lemma TransposeKernelShapeOnly(o: Convolution.ConvOptions, eh: int, ew: int, x: Tensor, w: Tensor, dw: Tensor, dy: Tensor)
    requires Convolution.TransposeOk(o, eh, ew, x.shape, w.shape) && dw.shape == w.shape
    requires dy.shape == Convolution.TransposeShape(o, eh, ew, x.shape, w.shape)
    ensures TransposeKernelRule(o, eh, ew, x, w, dy) == TransposeKernelRule(o, eh, ew, x, dw, dy)
  {
    hide Size, Convolution.KernelGradient, Convolution.ForwardKernelAsTranspose;
  }

  // ----- attention -----

  lemma RowTotalAdjoint(a: Tensor, b: Tensor)
    requires a.shape == b.shape
    ensures Inner(a, RowTotal(b)) == Inner(RowTotal(a), b)
  {
    hide Times, Size, At, Inner, Drop, Unreduce, TensorOps.ReduceSum;
    var mask := LastMask(|a.shape|);
    var ra, rb := TensorOps.ReduceSum(a, mask), TensorOps.ReduceSum(b, mask);
    ReduceAdjoint(rb, a, mask);
    ReduceAdjoint(ra, b, mask);
    InnerComm(a, Unreduce(rb, a.shape, mask));
    InnerComm(ra, rb);
  }

  /** Tangent of a softmax with value p: each row of ds is centred by its p-weighted mean, then scaled by p. */
  function SoftmaxTangent(p: Tensor, ds: Tensor): (r: Tensor)
    requires p.shape == ds.shape
    ensures r.shape == p.shape
  {
    B(Mul, p, B(Sub, ds, RowTotal(B(Mul, p, ds))))
  }

  /** The score cotangent recorded from the probability cotangent. */
  function SoftmaxRule(p: Tensor, dp: Tensor): (r: Tensor)
    requires p.shape == dp.shape
    ensures r.shape == p.shape
  {
    B(Mul, p, B(Sub, dp, RowTotal(B(Mul, dp, p))))
  }

  lemma SoftmaxAdjoint(p: Tensor, dp: Tensor, ds: Tensor)
    requires p.shape == dp.shape == ds.shape
    ensures Inner(dp, SoftmaxTangent(p, ds)) == Inner(SoftmaxRule(p, dp), ds)
  {
    hide Times, Size, Inner, At, RowTotal;
    var pd, ps := B(Mul, dp, p), B(Mul, p, ds);
    var R, S := RowTotal(pd), RowTotal(ps);
    var zero := Fill(p.shape, 0.0);
    // <dp, p(ds - S)> = <dp p, ds> - <dp p, S> and <p(dp - R), ds> = <dp p, ds> - <R, p ds>
    forall I | Valid(p.shape, I)
      ensures Times(At(dp, I), At(SoftmaxTangent(p, ds), I)) == Times(At(pd, I), At(B(Sub, ds, S), I))
      ensures Times(At(SoftmaxRule(p, dp), I), At(ds, I)) == Times(At(B(Sub, dp, R), I), At(ps, I))
    {
      TimesAssoc(At(dp, I), At(p, I), At(B(Sub, ds, S), I));
      TimesComm(At(p, I), At(B(Sub, dp, R), I));
      TimesAssoc(At(B(Sub, dp, R), I), At(p, I), At(ds, I));
    }
    InnerCong(dp, SoftmaxTangent(p, ds), pd, B(Sub, ds, S));
    InnerCong(SoftmaxRule(p, dp), ds, B(Sub, dp, R), ps);
    InnerAdd(pd, B(Sub, ds, S), S, ds);
    InnerAdd(ps, B(Sub, dp, R), R, dp);
    RowTotalAdjoint(pd, ps);
    forall I | Valid(p.shape, I) ensures Times(At(pd, I), At(ds, I)) == Times(At(dp, I), At(ps, I)) {
      TimesAssoc(At(dp, I), At(p, I), At(ds, I));
    }
    InnerCong(pd, ds, dp, ps);
    InnerComm(ps, B(Sub, dp, R));
    InnerComm(pd, B(Sub, ds, S));
  }

  lemma SwapSwap(t: Tensor)
    requires |t.shape| >= 2
    ensures SwapTensor(SwapTensor(t)) == t
  {
    hide Size, At, SwapTensor;
    forall I | Valid(t.shape, I) ensures At(SwapTensor(SwapTensor(t)), I) == At(t, I) {
      SwapTensorAt(SwapTensor(t), I);
      SwapTensorAt(t, SwapIx(I));
      assert SwapIx(SwapIx(I)) == I;
    }
    Ext(SwapTensor(SwapTensor(t)), t);
  }

  lemma SwapAdjoint(y: Tensor, x: Tensor)
    requires |x.shape| >= 2 && y.shape == SwapTensor(x).shape
    ensures Inner(y, SwapTensor(x)) == Inner(SwapTensor(y), x)
  {
    hide Times, Size, At, Inner, IsPerm;
    SwapLastPerm(|x.shape|);
    TransposeAdjoint(y, x, SwapLast(|x.shape|));
  }

  lemma SwapMatmulTerm(A: Tensor, B: Tensor, I: Index, L: Index)
    requires |A.shape| == |B.shape| == |I| >= 2 && |L| == 1
    ensures Times(At(A, MatLeft(SwapIx(I) + L)), At(B, MatRight(SwapIx(I) + L)))
         == Times(At(SwapTensor(B), MatLeft(I + L)), At(SwapTensor(A), MatRight(I + L)))
  {
    hide Size, At, Times, SwapTensor;
    SwapTensorAt(B, MatLeft(I + L));
    SwapTensorAt(A, MatRight(I + L));
    assert SwapIx(MatLeft(I + L)) == MatRight(SwapIx(I) + L);
    assert SwapIx(MatRight(I + L)) == MatLeft(SwapIx(I) + L);
    TimesComm(At(A, MatLeft(SwapIx(I) + L)), At(B, MatRight(SwapIx(I) + L)));
  }

  lemma MatmulAt(A: Tensor, B: Tensor, I: Index)
    requires MatmulOk(A.shape, B.shape) && Valid(MatmulShape(A.shape, B.shape), I)
    ensures At(TensorOps.Matmul(A, B), I)
         == SumIx([A.shape[|A.shape| - 1]], (L: Index) => ContractTerm(A, MatLeft, B, MatRight, I, L))
  {
    hide Size, At, Times;
  }

  /** The transpose of a product is the reversed product of transposes. */
  lemma SwapMatmul(A: Tensor, B: Tensor)
    requires MatmulOk(A.shape, B.shape)
    ensures MatmulOk(SwapTensor(B).shape, SwapTensor(A).shape)
    ensures SwapTensor(TensorOps.Matmul(A, B)) == TensorOps.Matmul(SwapTensor(B), SwapTensor(A))
  {
    hide Size, At, Times, SwapTensor, TensorOps.Matmul;
    var left, right := SwapTensor(TensorOps.Matmul(A, B)), TensorOps.Matmul(SwapTensor(B), SwapTensor(A));
    var k := [A.shape[|A.shape| - 1]];
    forall I | Valid(left.shape, I) ensures At(left, I) == At(right, I) {
      SwapTensorAt(TensorOps.Matmul(A, B), I);
      MatmulAt(A, B, SwapIx(I));
      MatmulAt(SwapTensor(B), SwapTensor(A), I);
      var f := (L: Index) => ContractTerm(A, MatLeft, B, MatRight, SwapIx(I), L);
      var g := (L: Index) => ContractTerm(SwapTensor(B), MatLeft, SwapTensor(A), MatRight, I, L);
      forall L | Valid(k, L) ensures f(L) == g(L) {
        SwapMatmulTerm(A, B, I, L);
      }
      SumIxCong(k, f, g);
    }
    Ext(left, right);
  }

  lemma MulScalarAdjoint(y: Tensor, x: Tensor, c: real)
    requires y.shape == x.shape
    ensures Inner(y, MulScalar(x, c)) == Inner(MulScalar(y, c), x)
  {
    hide Size, At, Times, Inner;
    forall I | Valid(y.shape, I) ensures Times(At(y, I), At(MulScalar(x, c), I)) == Times(At(MulScalar(y, c), I), At(x, I)) {
      TimesComm(At(x, I), c);
      TimesAssoc(At(y, I), c, At(x, I));
    }
    InnerCong(y, MulScalar(x, c), MulScalar(y, c), x);
  }

  predicate ScoresOk(q: Shape, k: Shape)
  {
    |q| == |k| >= 2 && q[..|q| - 2] == k[..|q| - 2] && q[|q| - 1] == k[|q| - 1]
  }

  /** Scores are linear in the query; the rule multiplies by the key. */
  lemma ScoresQueryAdjoint(ds: Tensor, dq: Tensor, k: Tensor, scale: real)
    requires ScoresOk(dq.shape, k.shape) && ds.shape == dq.shape[..|dq.shape| - 1] + [k.shape[|dq.shape| - 2]]
    ensures MatmulOk(ds.shape, k.shape) && MatmulShape(ds.shape, k.shape) == dq.shape
    ensures Inner(ds, Scores(dq, k, scale)) == Inner(MulScalar(TensorOps.Matmul(ds, k), scale), dq)
  {
    hide Size, At, Times, Inner, SwapTensor, TensorOps.Matmul, MulScalar;
    var r := |dq.shape|;
    assert MatmulShape(ds.shape, k.shape) == dq.shape;
    var t := SwapTensor(k);
    assert MatmulShape(dq.shape, t.shape) == ds.shape;
    MulScalarAdjoint(ds, TensorOps.Matmul(dq, t), scale);
    MatmulLeftAdjoint(MulScalar(ds, scale), dq, t);
    SwapSwap(k);
    MatmulLeftAdjoint(ds, dq, t);
    ScaleLeft(ds, k, scale);
  }

  lemma ScaleLeft(a: Tensor, b: Tensor, c: real)
    requires MatmulOk(a.shape, b.shape)
    ensures TensorOps.Matmul(MulScalar(a, c), b) == MulScalar(TensorOps.Matmul(a, b), c)
  {
    hide Size, At, Times, TensorOps.Matmul;
    var k := [a.shape[|a.shape| - 1]];
    var left, right := TensorOps.Matmul(MulScalar(a, c), b), MulScalar(TensorOps.Matmul(a, b), c);
    forall I | Valid(left.shape, I) ensures At(left, I) == At(right, I) {
      MatmulAt(a, b, I);
      MatmulAt(MulScalar(a, c), b, I);
      var f := (L: Index) => ContractTerm(a, MatLeft, b, MatRight, I, L);
      var g := (L: Index) => ContractTerm(MulScalar(a, c), MatLeft, b, MatRight, I, L);
      forall L | Valid(k, L) ensures g(L) == Times(c, f(L)) {
        ScaleLeftTerm(a, c, MatLeft(I + L), At(b, MatRight(I + L)));
      }
      SumIxScale(k, c, f, g);
      TimesComm(c, SumIx(k, f));
    }
    Ext(left, right);
  }

  lemma ScaleLeftTerm(a: Tensor, c: real, J: Index, v: real)
    ensures Times(At(MulScalar(a, c), J), v) == Times(c, Times(At(a, J), v))
  {
    hide Size, Flat;
    TimesComm(At(a, J), c);
    TimesAssoc(c, At(a, J), v);
    TimesZero(c);
    TimesZero(v);
  }

  /** Scores are linear in the key; the rule multiplies the transposed cotangent by the query. */
  lemma ScoresKeyAdjoint(ds: Tensor, q: Tensor, dk: Tensor, scale: real)
    requires ScoresOk(q.shape, dk.shape) && ds.shape == q.shape[..|q.shape| - 1] + [dk.shape[|q.shape| - 2]]
    ensures MatmulOk(SwapTensor(ds).shape, q.shape) && MatmulShape(SwapTensor(ds).shape, q.shape) == dk.shape
    ensures Inner(ds, Scores(q, dk, scale)) == Inner(MulScalar(TensorOps.Matmul(SwapTensor(ds), q), scale), dk)
  {
    hide Size, At, Times, Inner, SwapTensor, TensorOps.Matmul, MulScalar;
    var r := |q.shape|;
    assert MatmulShape(SwapTensor(ds).shape, q.shape) == dk.shape;
    var t := SwapTensor(dk);
    assert MatmulShape(q.shape, t.shape) == ds.shape;
    MulScalarAdjoint(ds, TensorOps.Matmul(q, t), scale);
    var c := MulScalar(ds, scale);
    MatmulRightAdjoint(c, q, t);
    var g := TensorOps.Matmul(SwapTensor(q), c);
    SwapAdjoint(g, dk);
    SwapMatmul(SwapTensor(q), c);
    SwapSwap(q);
    SwapScale(ds, scale);
    ScaleLeft(SwapTensor(ds), q, scale);
  }

  lemma SwapScale(t: Tensor, c: real)
    requires |t.shape| >= 2
    ensures SwapTensor(MulScalar(t, c)) == MulScalar(SwapTensor(t), c)
  {
    hide Size, At, Times, SwapTensor;
    var left, right := SwapTensor(MulScalar(t, c)), MulScalar(SwapTensor(t), c);
    forall I | Valid(left.shape, I) ensures At(left, I) == At(right, I) {
      SwapTensorAt(MulScalar(t, c), I);
      SwapTensorAt(t, I);
    }
    Ext(left, right);
  }

  lemma AddAdjoint(y: Tensor, a: Tensor, b: Tensor)
    requires y.shape == a.shape == b.shape
    ensures Inner(y, B(Add, a, b)) == Inner(y, a) + Inner(y, b)
  {
    hide Size, At, Times, Inner;
    InnerAdd(y, a, b, B(Add, a, b));
  }

  /** Tangent of the scaled, masked scores. */
  function ScoresTangent(args: seq<Tensor>, tans: seq<Tensor>, dims: Shape, scale: real): (r: Tensor)
    requires AttentionOk(ShapesOf(args), dims) && ShapesOf(tans) == ShapesOf(args)
    ensures r.shape == dims[..|dims| - 1] + [args[1].shape[|dims| - 2]]
  {
    SameShapes(args, tans);
    var s := B(Add, Scores(tans[0], args[1], scale), Scores(args[0], tans[1], scale));
    if |args| == 4 then B(Add, s, tans[3]) else s
  }

  lemma SameShapes(args: seq<Tensor>, tans: seq<Tensor>)
    requires ShapesOf(args) == ShapesOf(tans)
    ensures |args| == |tans| && forall k :: 0 <= k < |args| ==> args[k].shape == tans[k].shape
  {
    assert |ShapesOf(args)| == |ShapesOf(tans)|;
    assert forall k :: 0 <= k < |args| ==> ShapesOf(args)[k] == ShapesOf(tans)[k];
  }

  function AttentionTangent(e: RawEnv, args: seq<Tensor>, tans: seq<Tensor>, dims: Shape, scale: real): (r: Tensor)
    requires AttentionOk(ShapesOf(args), dims) && ShapesOf(tans) == ShapesOf(args)
    ensures r.shape == dims
  {
    SameShapes(args, tans);
    var p := Probabilities(e, args, dims, scale);
    B(Add, TensorOps.Matmul(SoftmaxTangent(p, ScoresTangent(args, tans, dims, scale)), args[2]), TensorOps.Matmul(p, tans[2]))
  }

  /** Score cotangent of an attention node. */
  function ScoresCotangent(e: RawEnv, args: seq<Tensor>, dims: Shape, scale: real, dy: Tensor): (r: Tensor)
    requires AttentionOk(ShapesOf(args), dims) && dy.shape == dims
    ensures r.shape == dims[..|dims| - 1] + [args[1].shape[|dims| - 2]]
  {
    var p := Probabilities(e, args, dims, scale);
    MatmulLeftAdjoint(dy, p, args[2]);
    SoftmaxRule(p, TensorOps.Matmul(dy, SwapTensor(args[2])))
  }

  function AttentionCotangents(args: seq<Tensor>, ds: Tensor, dy: Tensor, p: Tensor, scale: real): (r: seq<Tensor>)
    requires 3 <= |args| <= 4 && |ds.shape| >= 2 && |p.shape| >= 2
    requires MatmulOk(ds.shape, args[1].shape) && MatmulShape(ds.shape, args[1].shape) == args[0].shape
    requires MatmulOk(SwapTensor(ds).shape, args[0].shape) && MatmulShape(SwapTensor(ds).shape, args[0].shape) == args[1].shape
    requires MatmulOk(SwapTensor(p).shape, dy.shape) && MatmulShape(SwapTensor(p).shape, dy.shape) == args[2].shape
    requires |args| == 4 ==> ds.shape == args[3].shape
    ensures |r| == |args| && forall k :: 0 <= k < |r| ==> r[k].shape == args[k].shape
  {
    var qkv := [MulScalar(TensorOps.Matmul(ds, args[1]), scale),
                MulScalar(TensorOps.Matmul(SwapTensor(ds), args[0]), scale),
                TensorOps.Matmul(SwapTensor(p), dy)];
    if |args| == 4 then qkv + [ds] else qkv
  }

  /** Cotangents recorded for query, key, value and, when present, the additive mask. */
  function AttentionRule(e: RawEnv, args: seq<Tensor>, dims: Shape, scale: real, dy: Tensor): (r: seq<Tensor>)
    requires AttentionOk(ShapesOf(args), dims) && dy.shape == dims
    ensures |r| == |args| && forall k :: 0 <= k < |r| ==> r[k].shape == args[k].shape
  {
    var p := Probabilities(e, args, dims, scale);
    var ds := ScoresCotangent(e, args, dims, scale, dy);
    AttentionShapes(args, dims, ds, dy, p);
    AttentionCotangents(args, ds, dy, p, scale)
  }

  lemma AttentionShapes(args: seq<Tensor>, dims: Shape, ds: Tensor, dy: Tensor, p: Tensor)
    requires AttentionOk(ShapesOf(args), dims) && dy.shape == dims
    requires ds.shape == p.shape == dims[..|dims| - 1] + [args[1].shape[|dims| - 2]]
    ensures MatmulOk(ds.shape, args[1].shape) && MatmulShape(ds.shape, args[1].shape) == args[0].shape
    ensures MatmulOk(SwapTensor(ds).shape, args[0].shape) && MatmulShape(SwapTensor(ds).shape, args[0].shape) == args[1].shape
    ensures MatmulOk(SwapTensor(p).shape, dy.shape) && MatmulShape(SwapTensor(p).shape, dy.shape) == args[2].shape
    ensures MatmulOk(p.shape, args[2].shape) && MatmulShape(p.shape, args[2].shape) == dims
    ensures |args| == 4 ==> ds.shape == args[3].shape
  {
    hide Size, SwapTensor;
    assert MatmulShape(ds.shape, args[1].shape) == args[0].shape;
    assert MatmulShape(SwapTensor(ds).shape, args[0].shape) == args[1].shape;
    assert MatmulShape(SwapTensor(p).shape, dy.shape) == args[2].shape;
    assert MatmulShape(p.shape, args[2].shape) == dims;
  }

  lemma ScoresTangentAdjoint(args: seq<Tensor>, tans: seq<Tensor>, dims: Shape, scale: real, ds: Tensor)
    requires AttentionOk(ShapesOf(args), dims) && ShapesOf(tans) == ShapesOf(args) && |tans| == |args|
    requires ds.shape == dims[..|dims| - 1] + [args[1].shape[|dims| - 2]]
    requires MatmulOk(ds.shape, args[1].shape) && MatmulShape(ds.shape, args[1].shape) == args[0].shape == tans[0].shape
    requires MatmulOk(SwapTensor(ds).shape, args[0].shape)
    requires MatmulShape(SwapTensor(ds).shape, args[0].shape) == args[1].shape == tans[1].shape
    requires |args| == 4 ==> ds.shape == tans[3].shape
    ensures Inner(ds, ScoresTangent(args, tans, dims, scale))
         == Inner(MulScalar(TensorOps.Matmul(ds, args[1]), scale), tans[0])
          + Inner(MulScalar(TensorOps.Matmul(SwapTensor(ds), args[0]), scale), tans[1])
          + (if |args| == 4 then Inner(ds, tans[3]) else 0.0)
  {
    hide Size, At, Times, Inner, SwapTensor, TensorOps.Matmul, MulScalar, Scores, B;
    SameShapes(args, tans);
    var sq, sk := Scores(tans[0], args[1], scale), Scores(args[0], tans[1], scale);
    AddAdjoint(ds, sq, sk);
    if |args| == 4 {
      AddAdjoint(ds, B(Add, sq, sk), tans[3]);
    }
    ScoresQueryAdjoint(ds, tans[0], args[1], scale);
    ScoresKeyAdjoint(ds, args[0], tans[1], scale);
  }

  /** The attention rule is the adjoint of the attention tangent. */
  lemma AttentionAdjoint(e: RawEnv, args: seq<Tensor>, tans: seq<Tensor>, dims: Shape, scale: real, dy: Tensor)
    requires AttentionOk(ShapesOf(args), dims) && ShapesOf(tans) == ShapesOf(args) && dy.shape == dims
    ensures |tans| == |args| && forall k :: 0 <= k < |args| ==> args[k].shape == tans[k].shape
    ensures var r := AttentionRule(e, args, dims, scale, dy);
      Inner(dy, AttentionTangent(e, args, tans, dims, scale))
        == Inner(r[0], tans[0]) + Inner(r[1], tans[1]) + Inner(r[2], tans[2])
         + (if |args| == 4 then Inner(r[3], tans[3]) else 0.0)
  {
    hide Size, At, Times, Inner, SwapTensor, TensorOps.Matmul, MulScalar, Scores, B, Probabilities, SoftmaxTangent, SoftmaxRule, ScoresTangent;
    SameShapes(args, tans);
    var p := Probabilities(e, args, dims, scale);
    var sdot := ScoresTangent(args, tans, dims, scale);
    var pdot := SoftmaxTangent(p, sdot);
    var ds := ScoresCotangent(e, args, dims, scale, dy);
    AttentionShapes(args, dims, ds, dy, p);
    AddAdjoint(dy, TensorOps.Matmul(pdot, args[2]), TensorOps.Matmul(p, tans[2]));
    MatmulRightAdjoint(dy, p, tans[2]);
    MatmulLeftAdjoint(dy, pdot, args[2]);
    SoftmaxAdjoint(p, TensorOps.Matmul(dy, SwapTensor(args[2])), sdot);
    ScoresTangentAdjoint(args, tans, dims, scale, ds);
  }

  // ----- tangents of nodes -----

  /** Sum of derivative times input tangent over the first n (input, derivative) pairs after operand 0. */
  function PairTangent(args: seq<Tensor>, tans: seq<Tensor>, dims: Shape, n: nat): (r: Tensor)
    requires |args| == |tans| && 2 * n + 1 <= |args|
    requires forall k :: 0 <= k < |args| ==> args[k].shape == tans[k].shape == dims
    ensures r.shape == dims
  {
    if n == 0 then Fill(dims, 0.0)
    else Plus(PairTangent(args, tans, dims, n - 1), Hadamard(args[2 * n], tans[2 * n - 1]))
  }

  function TangentStructural(op: Op, dims: Shape, args: seq<Tensor>, tans: seq<Tensor>, e: RawEnv): (r: Tensor)
    requires NodeOk(op, ShapesOf(args), dims) && Structural(op) && ShapesOf(tans) == ShapesOf(args)
    ensures r.shape == dims
  {
    SameShapes(args, tans);
    match op
    case Apply(l) => ApplyLinear(l, tans[0], dims)
    case Pad(padding) => TensorOps.Pad(tans[0], padding, tans[1])
    case Concatenate(axis) => Pieces(tans, axis, |tans|, dims)
    case Combine(b) => B(Add, ApplyBilinear(b, tans[0], args[1], dims), ApplyBilinear(b, args[0], tans[1], dims))
    case Attention(scale) => AttentionTangent(e, args, tans, dims, scale)
  }

  function TangentIndexed(op: Op, dims: Shape, args: seq<Tensor>, tans: seq<Tensor>): (r: Tensor)
    requires NodeOk(op, ShapesOf(args), dims) && Indexed(op) && ShapesOf(tans) == ShapesOf(args)
    ensures r.shape == dims
  {
    SameShapes(args, tans);
    match op
    case Take(axis, batched) => Gather(tans[0], args[1], axis, batched)
    case GatherGradient(axis, batched) => TensorOps.GatherGradient(tans[0], args[1], axis, batched, dims)
    case DynamicSlice => TensorOps.DynamicSlice(tans[0], Starts(args, 1), dims)
    case DynamicUpdateSlice => TensorOps.DynamicUpdateSlice(tans[0], tans[1], Starts(args, 2))
  }

  /** Forward tangent of one node. dir is the direction at a leaf and an arbitrary tangent at unsupported
      operations; sources lists the operand dtypes. */
  function Tangent(op: Op, dims: Shape, sources: seq<DType>, args: seq<Tensor>, tans: seq<Tensor>, dir: Tensor, e: RawEnv): (r: Tensor)
    requires NodeOk(op, ShapesOf(args), dims) && ShapesOf(tans) == ShapesOf(args) && |sources| == |args|
    ensures r.shape == dims
  {
    SameShapes(args, tans);
    if Structural(op) then TangentStructural(op, dims, args, tans, e)
    else if Indexed(op) then TangentIndexed(op, dims, args, tans) else
    match op
    case Leaf(_) => Shaped(dir, dims)
    case StateInput(_) => Fill(dims, 0.0)
    case StateWrite => tans[0]
    case Constant(_) => Fill(dims, 0.0)
    case Literal(_) => Fill(dims, 0.0)
    case StopGradient => Fill(dims, 0.0)
    case IndexToFloat => Fill(dims, 0.0)
    case Convert => if Floating(sources[0]) then tans[0] else Fill(dims, 0.0)
    case WithGradient => tans[1]
    case WithElementwiseDerivative => PairTangent(args, tans, dims, |args| / 2)
    case Unary(f) => UnaryTangent(e, f, args[0], tans[0])
    case Binary(b) => BinaryTangent(b, args[0], args[1], tans[0], tans[1])
    case Select => Choose(args[0], tans[1], tans[2])
    case ReduceMax(axes) =>
      var mask := Mask(axes, |args[0].shape|);
      MaxTangent(args[0], ReduceMaximum(args[0], mask, e.lowest), tans[0], mask)
    case MaxPool2d(p) => MaxPooling.MaxPoolTangent(args[0], tans[0], p)
    case MaxPool2dGradient(_) => Shaped(dir, dims)
    case CompareMask(_) => Shaped(dir, dims)
    case Opaque(_) => Shaped(dir, dims)
  }

  // ----- reverse rules of nodes -----

  /** One recorded contribution: an operand position and its cotangent. */
  datatype Contribution = To(operand: nat, gradient: Tensor)

  /** Operations a backward path may cross or stop at. */
  predicate Supported(op: Op)
  {
    !op.CompareMask? && !op.MaxPool2dGradient? && !op.Opaque?
  }

  predicate Lands(c: Contribution, shapes: seq<Shape>)
  {
    c.operand < |shapes| && c.gradient.shape == shapes[c.operand]
  }

  /** Every contribution goes to an operand and has its shape. */
  predicate Fitting(cs: seq<Contribution>, shapes: seq<Shape>)
  {
    forall k :: 0 <= k < |cs| ==> Lands(cs[k], shapes)
  }

  function PairRule(args: seq<Tensor>, dy: Tensor, n: nat): (r: seq<Contribution>)
    requires 2 * n + 1 <= |args| && forall k :: 0 <= k < |args| ==> args[k].shape == dy.shape
    ensures Fitting(r, ShapesOf(args))
  {
    if n == 0 then [] else PairRule(args, dy, n - 1) + [To(2 * n - 1, B(Mul, dy, args[2 * n]))]
  }

  lemma PieceShapes(args: seq<Tensor>, axis: nat, dims: Shape, k: nat)
    requires ConcatTyped(ShapesOf(args), axis, dims) && k < |args|
    ensures SliceOk(dims, PieceAxes(args, axis, k, dims)) && SliceShape(PieceAxes(args, axis, k, dims)) == args[k].shape
    ensures Start(args, axis, k) + args[k].shape[axis] <= dims[axis]
  {
    hide Size;
    StartIsSum(args, axis, |args|);
    StartMono(args, axis, k, |args|);
    NarrowOk(dims, axis, Start(args, axis, k), Extent(args, axis, k), args[k].shape);
  }

  lemma {:induction false} StartIsSum(args: seq<Tensor>, axis: nat, k: nat)
    ensures Start(args, axis, k) == SumAxis(ShapesOf(args), axis, k)
  {
    if k > 0 {
      StartIsSum(args, axis, k - 1);
    }
  }

  function PieceRule(args: seq<Tensor>, axis: nat, dy: Tensor, n: nat): (r: seq<Contribution>)
    requires ConcatTyped(ShapesOf(args), axis, dy.shape) && n <= |args|
    ensures Fitting(r, ShapesOf(args))
  {
    if n == 0 then [] else
      PieceShapes(args, axis, dy.shape, n - 1);
      PieceRule(args, axis, dy, n - 1) + [To(n - 1, TensorOps.Slice(dy, PieceAxes(args, axis, n - 1, dy.shape)))]
  }
}
