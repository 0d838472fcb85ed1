/** The contributions one node sends to its operands during the reverse sweep, and their adjointness. */
module NodeRules {
  import opened Products
  import opened Sums
  import opened Shapes
  import opened IndexSums
  import opened Tensors
  import opened TensorOps
  import opened Adjoints
  import opened Program
  import opened Rules
  import opened Maxima
  import opened MaxRules
  import opened MaxAdjoints
  import MaxPooling

  function PadRule(args: seq<Tensor>, padding: seq<Edge>, dy: Tensor): (r: seq<Contribution>)
    requires PadTyped(ShapesOf(args), padding, dy.shape)
    ensures Fitting(r, ShapesOf(args))
  {
    hide Size, TensorOps.Slice, TensorOps.ReduceSum, Border;
    var x := args[0];
    PadAdjoint(dy, x, padding, args[1]);
    [To(0, TensorOps.Slice(dy, InteriorAxes(x.shape, padding))),
     To(1, TensorOps.ReduceSum(Border(dy, x.shape, padding), AllMask(|dy.shape|)))]
  }

  function AttentionContributions(args: seq<Tensor>, scale: real, dy: Tensor, e: RawEnv): (r: seq<Contribution>)
    requires AttentionOk(ShapesOf(args), dy.shape)
    ensures Fitting(r, ShapesOf(args))
  {
    hide Size, AttentionRule, AttentionOk;
    var g := AttentionRule(e, args, dy.shape, scale, dy);
    seq(|args|, (k: nat) requires k < |args| => To(k, g[k]))
  }

  function RuleStructural(op: Op, dims: Shape, args: seq<Tensor>, dy: Tensor, e: RawEnv): (r: seq<Contribution>)
    requires NodeOk(op, ShapesOf(args), dims) && Structural(op) && dy.shape == dims
    ensures Fitting(r, ShapesOf(args))
  {
    hide Size, LinearOk, BilinearOk, LinearRule, LeftRule, RightRule, AttentionOk;
    match op
    case Apply(l) => [To(0, LinearRule(l, dy, args[0].shape))]
    case Pad(padding) => PadRule(args, padding, dy)
    case Concatenate(axis) => PieceRule(args, axis, dy, |args|)
    case Combine(b) => [To(0, LeftRule(b, dy, args[0], args[1])), To(1, RightRule(b, dy, args[0], args[1]))]
    case Attention(scale) => AttentionContributions(args, scale, dy, e)
  }

  function RuleIndexed(op: Op, dims: Shape, args: seq<Tensor>, dy: Tensor): (r: seq<Contribution>)
    requires NodeOk(op, ShapesOf(args), dims) && Indexed(op) && dy.shape == dims
    ensures Fitting(r, ShapesOf(args))
  {
    hide Size, TensorOps.GatherGradient, Gather, TensorOps.DynamicSlice, TensorOps.DynamicUpdateSlice, Starts, Fill;
    match op
    case Take(axis, batched) => [To(0, TensorOps.GatherGradient(dy, args[1], axis, batched, args[0].shape))]
    case GatherGradient(axis, batched) => [To(0, Gather(dy, args[1], axis, batched))]
    case DynamicSlice => [To(0, TensorOps.DynamicUpdateSlice(Fill(args[0].shape, 0.0), dy, Starts(args, 1)))]
    case DynamicUpdateSlice =>
      [To(0, TensorOps.DynamicUpdateSlice(dy, Fill(args[1].shape, 0.0), Starts(args, 2))),
       To(1, TensorOps.DynamicSlice(dy, Starts(args, 2), args[1].shape))]
  }

  /** The contributions recorded for one node with value y and cotangent dy, in order. */
  function Rule(op: Op, dims: Shape, sources: seq<DType>, args: seq<Tensor>, y: Tensor, dy: Tensor, e: RawEnv): (r: seq<Contribution>)
    requires NodeOk(op, ShapesOf(args), dims) && |sources| == |args| && y.shape == dims == dy.shape
    ensures Fitting(r, ShapesOf(args))
  {
    if Structural(op) then RuleStructural(op, dims, args, dy, e)
    else if Indexed(op) then RuleIndexed(op, dims, args, dy) else
    match op
    case Convert => if Floating(sources[0]) then [To(0, dy)] else []
    case StateWrite => [To(0, dy)]
    case ReduceMax(axes) => [To(0, MaxRule(e, args[0], y, dy, Mask(axes, |args[0].shape|)))]
    case MaxPool2d(p) => [To(0, MaxPooling.MaxPoolGradient(args[0], dy, p))]
    case WithGradient => [To(1, dy)]
    case WithElementwiseDerivative => PairRule(args, dy, |args| / 2)
    case Unary(f) => if Rounding(f) then [] else [To(0, UnaryRule(e, f, args[0], y, dy))]
    case Binary(b) =>
      var g := BinaryRule(e, b, args[0], args[1], dy);
      [To(0, g.0), To(1, g.1)]
    case Select => [To(1, Choose(args[0], dy, Fill(dims, 0.0))), To(2, Choose(args[0], Fill(dims, 0.0), dy))]
    case _ => []
  }

  function Pairing(c: Contribution, tans: seq<Tensor>): real
    requires Lands(c, ShapesOf(tans))
  {
    Inner(c.gradient, tans[c.operand])
  }

  /** Pairing of contributions with the tangents of the operands they go to. */
  function ContribSum(cs: seq<Contribution>, tans: seq<Tensor>): real
    requires Fitting(cs, ShapesOf(tans))
  {
    if cs == [] then 0.0 else ContribSum(cs[..|cs| - 1], tans) + Pairing(cs[|cs| - 1], tans)
  }

  lemma ContribOne(c: Contribution, tans: seq<Tensor>)
    requires Lands(c, ShapesOf(tans))
    ensures ContribSum([c], tans) == Pairing(c, tans)
  {
    hide Pairing;
    assert [c][..0] == [];
  }

  lemma ContribSnoc(cs: seq<Contribution>, c: Contribution, tans: seq<Tensor>)
    requires Fitting(cs, ShapesOf(tans)) && Lands(c, ShapesOf(tans))
    ensures Fitting(cs + [c], ShapesOf(tans))
    ensures ContribSum(cs + [c], tans) == ContribSum(cs, tans) + Pairing(c, tans)
  {
    hide Pairing;
    assert (cs + [c])[..|cs|] == cs;
  }

  lemma ContribTwo(c: Contribution, d: Contribution, tans: seq<Tensor>)
    requires Lands(c, ShapesOf(tans)) && Lands(d, ShapesOf(tans))
    ensures ContribSum([c, d], tans) == Pairing(c, tans) + Pairing(d, tans)
  {
    hide Pairing;
    assert [c, d] == [c] + [d];
    ContribOne(c, tans);
    ContribSnoc([c], d, tans);
  }

  // ----- adjointness of every rule -----

  lemma {:induction false} PairAdjoint(args: seq<Tensor>, tans: seq<Tensor>, dy: Tensor, n: nat)
    requires |args| == |tans| && 2 * n + 1 <= |args| && ShapesOf(args) == ShapesOf(tans)
    requires forall k :: 0 <= k < |args| ==> args[k].shape == tans[k].shape == dy.shape
    ensures Inner(dy, PairTangent(args, tans, dy.shape, n)) == ContribSum(PairRule(args, dy, n), tans)
  {
    hide Size, At, Times, Inner;
    if n == 0 {
      InnerZero(dy, Fill(dy.shape, 0.0));
    } else {
      PairAdjoint(args, tans, dy, n - 1);
      var c := To(2 * n - 1, B(Mul, dy, args[2 * n]));
      ContribSnoc(PairRule(args, dy, n - 1), c, tans);
      PairStep(args[2 * n], tans[2 * n - 1], dy);
      InnerAdd(dy, PairTangent(args, tans, dy.shape, n - 1), Hadamard(args[2 * n], tans[2 * n - 1]),
               PairTangent(args, tans, dy.shape, n));
    }
  }

  lemma PairStep(slope: Tensor, tan: Tensor, dy: Tensor)
    requires slope.shape == tan.shape == dy.shape
    ensures Inner(dy, Hadamard(slope, tan)) == Inner(B(Mul, dy, slope), tan)
  {
    hide Size, At, Times, Inner;
    SlopeAdjoint(dy, slope, B(Mul, dy, slope), tan);
  }

  lemma SameStart(args: seq<Tensor>, tans: seq<Tensor>, axis: nat, k: nat)
    requires ShapesOf(args) == ShapesOf(tans)
    ensures Start(args, axis, k) == Start(tans, axis, k)
  {
    StartIsSum(args, axis, k);
    StartIsSum(tans, axis, k);
  }

  function PieceSum(dy: Tensor, tans: seq<Tensor>, axis: nat, n: nat): real
  {
    Sum(n, (k: nat) => PieceTerm(dy, tans, axis, k))
  }

  lemma {:induction false} PieceRuleAdjoint(args: seq<Tensor>, tans: seq<Tensor>, axis: nat, dy: Tensor, n: nat)
    requires ConcatTyped(ShapesOf(args), axis, dy.shape) && ShapesOf(args) == ShapesOf(tans) && n <= |args|
    ensures PieceSum(dy, tans, axis, n) == ContribSum(PieceRule(args, axis, dy, n), tans)
  {
    hide Size, At, Times, Inner, Start, ConcatTyped, TensorOps.Slice, SliceOk;
    SameShapes(args, tans);
    if n > 0 {
      PieceRuleAdjoint(args, tans, axis, dy, n - 1);
      PieceShapes(args, axis, dy.shape, n - 1);
      SameStart(args, tans, axis, n - 1);
      var c := To(n - 1, TensorOps.Slice(dy, PieceAxes(args, axis, n - 1, dy.shape)));
      ContribSnoc(PieceRule(args, axis, dy, n - 1), c, tans);
    }
  }

  lemma ConcatOkOf(tans: seq<Tensor>, axis: nat, dims: Shape)
    requires ConcatTyped(ShapesOf(tans), axis, dims)
    ensures ConcatOk(tans, axis) && dims == tans[0].shape[axis := Start(tans, axis, |tans|)]
  {
    hide Size, Start, SumAxis;
    StartIsSum(tans, axis, |tans|);
    assert ShapesOf(tans)[0] == tans[0].shape;
    forall k | 0 <= k < |tans|
      ensures |tans[k].shape| == |tans[0].shape| && tans[k].shape == tans[0].shape[axis := tans[k].shape[axis]]
    {
      assert ShapesOf(tans)[k] == tans[k].shape;
      assert dims[axis := tans[k].shape[axis]] == dims[axis := tans[0].shape[axis]][axis := tans[k].shape[axis]];
    }
  }

  lemma PiecesOfAdjoint(tans: seq<Tensor>, axis: nat, dy: Tensor)
    requires ConcatTyped(ShapesOf(tans), axis, dy.shape)
    ensures Inner(dy, Pieces(tans, axis, |tans|, dy.shape)) == PieceSum(dy, tans, axis, |tans|)
  {
    hide Size, At, Times, Inner, Start, Pieces, PieceTerm, ConcatTyped, ConcatOk;
    ConcatOkOf(tans, axis, dy.shape);
    PiecesAdjoint(dy, tans, axis, |tans|);
  }

  lemma ConcatRuleAdjoint(args: seq<Tensor>, tans: seq<Tensor>, axis: nat, dy: Tensor)
    requires ConcatTyped(ShapesOf(args), axis, dy.shape) && ShapesOf(args) == ShapesOf(tans) && |args| == |tans|
    ensures Inner(dy, Pieces(tans, axis, |tans|, dy.shape)) == ContribSum(PieceRule(args, axis, dy, |args|), tans)
  {
    hide *;
    PiecesOfAdjoint(tans, axis, dy);
    PieceRuleAdjoint(args, tans, axis, dy, |args|);
  }

  lemma AttentionRuleAdjoint(e: RawEnv, args: seq<Tensor>, tans: seq<Tensor>, dims: Shape, scale: real, dy: Tensor)
    requires AttentionOk(ShapesOf(args), dims) && ShapesOf(tans) == ShapesOf(args) && dy.shape == dims
    ensures Inner(dy, AttentionTangent(e, args, tans, dims, scale))
         == ContribSum(RuleStructural(Op.Attention(scale), dims, args, dy, e), tans)
  {
    hide Size, At, Times, Inner, AttentionTangent, AttentionRule;
    SameShapes(args, tans);
    AttentionAdjoint(e, args, tans, dims, scale, dy);
    var g := AttentionRule(e, args, dims, scale, dy);
    var cs := RuleStructural(Op.Attention(scale), dims, args, dy, e);
    ContribTwo(To(0, g[0]), To(1, g[1]), tans);
    ContribSnoc([To(0, g[0]), To(1, g[1])], To(2, g[2]), tans);
    var three := [To(0, g[0]), To(1, g[1])] + [To(2, g[2])];
    if |args| == 4 {
      ContribSnoc(three, To(3, g[3]), tans);
      assert cs == three + [To(3, g[3])];
    } else {
      assert cs == three;
    }
  }

  lemma StructuralAdjoint(op: Op, dims: Shape, args: seq<Tensor>, tans: seq<Tensor>, dy: Tensor, e: RawEnv)
    requires NodeOk(op, ShapesOf(args), dims) && Structural(op) && ShapesOf(tans) == ShapesOf(args) && dy.shape == dims
    ensures Inner(dy, TangentStructural(op, dims, args, tans, e)) == ContribSum(RuleStructural(op, dims, args, dy, e), tans)
  {
    hide Size, At, Times, Inner, LinearRule, LeftRule, RightRule, ApplyLinear, ApplyBilinear, AttentionTangent, AttentionRule,
      Pieces, PieceRule, PieceSum, TensorOps.Pad, TensorOps.Slice, TensorOps.ReduceSum, Border, B, LinearOk, BilinearOk;
    SameShapes(args, tans);
    match op
    case Apply(l) =>
      LinearAdjoint(l, dy, tans[0]);
      ContribOne(To(0, LinearRule(l, dy, args[0].shape)), tans);
    case Pad(padding) =>
      PadAdjoint(dy, args[0], padding, args[1]);
      PadAdjoint(dy, tans[0], padding, tans[1]);
      ContribTwo(RuleStructural(op, dims, args, dy, e)[0], RuleStructural(op, dims, args, dy, e)[1], tans);
    case Concatenate(axis) => ConcatRuleAdjoint(args, tans, axis, dy);
    case Combine(b) =>
      BilinearAdjoint(b, dy, args[0], args[1], tans[0], tans[1]);
      AddAdjoint(dy, ApplyBilinear(b, tans[0], args[1], dims), ApplyBilinear(b, args[0], tans[1], dims));
      ContribTwo(To(0, LeftRule(b, dy, args[0], args[1])), To(1, RightRule(b, dy, args[0], args[1])), tans);
    case Attention(scale) => AttentionRuleAdjoint(e, args, tans, dims, scale, dy);
  }

  lemma IndexedAdjoint(op: Op, dims: Shape, args: seq<Tensor>, tans: seq<Tensor>, dy: Tensor)
    requires NodeOk(op, ShapesOf(args), dims) && Indexed(op) && ShapesOf(tans) == ShapesOf(args) && dy.shape == dims
    ensures Inner(dy, TangentIndexed(op, dims, args, tans)) == ContribSum(RuleIndexed(op, dims, args, dy), tans)
  {
    hide Size, At, Times, Inner, TensorOps.GatherGradient, Gather, TensorOps.DynamicSlice, TensorOps.DynamicUpdateSlice;
    SameShapes(args, tans);
    var cs := RuleIndexed(op, dims, args, dy);
    match op
    case Take(axis, batched) =>
      GatherAdjoint(dy, tans[0], args[1], axis, batched);
      ContribOne(cs[0], tans);
    case GatherGradient(axis, batched) =>
      ScatterAdjoint(dy, tans[0], args[1], axis, batched);
      ContribOne(cs[0], tans);
    case DynamicSlice =>
      DynamicSliceAdjoint(dy, tans[0], Starts(args, 1));
      ContribOne(cs[0], tans);
    case DynamicUpdateSlice =>
      DynamicUpdateSliceAdjoint(dy, tans[0], tans[1], Starts(args, 2));
      ContribTwo(cs[0], cs[1], tans);
  }

  /** The contributions of a node, paired with its operands' tangents, equal its cotangent paired with its own tangent. */
  lemma OpAdjoint(op: Op, dims: Shape, sources: seq<DType>, args: seq<Tensor>, tans: seq<Tensor>, dir: Tensor, dy: Tensor, e: RawEnv)
    requires NodeOk(op, ShapesOf(args), dims) && ShapesOf(tans) == ShapesOf(args) && |sources| == |args| && dy.shape == dims
    requires Supported(op) && !op.Leaf?
    ensures Inner(dy, Tangent(op, dims, sources, args, tans, dir, e))
         == ContribSum(Rule(op, dims, sources, args, Forward(op, dims, args, e), dy, e), tans)
  {
    hide Size, At, Times, Inner, TangentStructural, RuleStructural, TangentIndexed, RuleIndexed, UnaryRule, UnaryTangent,
      BinaryRule, BinaryTangent, MaxRule, MaxTangent, ReduceMaximum, MaxPooling.MaxPool2d, MaxPooling.MaxPoolTangent,
      MaxPooling.MaxPoolGradient, Drop, PairRule, PairTangent, U, Choose, ForwardStructural, ForwardIndexed;
    SameShapes(args, tans);
    if Structural(op) {
      StructuralAdjoint(op, dims, args, tans, dy, e);
    } else if Indexed(op) {
      IndexedAdjoint(op, dims, args, tans, dy);
    } else {
      var cs := Rule(op, dims, sources, args, Forward(op, dims, args, e), dy, e);
      match op
      case Convert =>
        if Floating(sources[0]) { ContribOne(cs[0], tans); } else { InnerZero(dy, Fill(dims, 0.0)); }
      case StateWrite => ContribOne(cs[0], tans);
      case ReduceMax(axes) =>
        MaxAdjoint(e, args[0], dy, tans[0], Mask(axes, |args[0].shape|));
        ContribOne(cs[0], tans);
      case MaxPool2d(p) =>
        MaxPooling.MaxPoolAdjoint(args[0], dy, tans[0], p);
        ContribOne(cs[0], tans);
      case WithGradient => ContribOne(cs[0], tans);
      case WithElementwiseDerivative => PairAdjoint(args, tans, dy, |args| / 2);
      case Unary(f) =>
        if Rounding(f) {
          RoundingTangent(e, f, args[0], tans[0]);
          InnerZero(dy, UnaryTangent(e, f, args[0], tans[0]));
        } else {
          UnaryAdjoint(e, f, args[0], dy, tans[0]);
          ContribOne(cs[0], tans);
        }
      case Binary(b) =>
        BinaryAdjoint(e, b, args[0], args[1], dy, tans[0], tans[1]);
        ContribTwo(cs[0], cs[1], tans);
      case Select =>
        SelectAdjoint(args[0], dy, tans[1], tans[2]);
        ContribTwo(cs[0], cs[1], tans);
      case _ => InnerZero(dy, Fill(dims, 0.0));
    }
  }

  lemma RoundingTangent(e: RawEnv, f: Fn, x: Tensor, dx: Tensor)
    requires x.shape == dx.shape && Rounding(f)
    ensures forall I :: Valid(x.shape, I) ==> At(UnaryTangent(e, f, x, dx), I) == 0.0
  {
    hide Size, At, Times;
    forall I | Valid(x.shape, I) ensures At(UnaryTangent(e, f, x, dx), I) == 0.0 {
      TimesZero(At(dx, I));
    }
  }
}
