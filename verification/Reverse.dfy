/** The reverse sweep over a whole graph, and its adjointness to the forward tangent. */
module Reverse {
  import opened Options
  import opened Products
  import opened Sums
  import opened Shapes
  import opened Tensors
  import opened TensorOps
  import opened Adjoints
  import opened Program
  import opened Rules
  import opened NodeRules

  // ----- graphs -----

  predicate OperandsBefore(node: Node, n: nat)
  {
    forall k :: 0 <= k < |node.operands| ==> node.operands[k] < n
  }

  function OperandShapes(g: seq<Node>, node: Node): (s: seq<Shape>)
    requires OperandsBefore(node, |g|)
    ensures |s| == |node.operands|
  {
    seq(|node.operands|, (k: nat) requires k < |node.operands| => g[node.operands[k]].dims)
  }

  function OperandTypes(g: seq<Node>, node: Node): (s: seq<DType>)
    requires OperandsBefore(node, |g|)
    ensures |s| == |node.operands|
  {
    seq(|node.operands|, (k: nat) requires k < |node.operands| => g[node.operands[k]].dtype)
  }

  predicate NodeTyped(g: seq<Node>, node: Node, n: nat)
    requires n <= |g|
  {
    OperandsBefore(node, n) && NodeOk(node.op, OperandShapes(g, node), node.dims)
  }

  /** Operands come before their users and every node has the shape its operation gives it. */
  predicate WellFormed(g: seq<Node>)
  {
    forall i :: 0 <= i < |g| ==> NodeTyped(g, g[i], i)
  }

  function Pick<T>(xs: seq<T>, ids: seq<nat>): (r: seq<T>)
    requires forall k :: 0 <= k < |ids| ==> ids[k] < |xs|
    ensures |r| == |ids| && forall k :: 0 <= k < |ids| ==> r[k] == xs[ids[k]]
  {
    seq(|ids|, (k: nat) requires k < |ids| => xs[ids[k]])
  }

  /** One tensor per node of the first n nodes, each with its node's shape. */
  predicate Carried(g: seq<Node>, n: nat, ts: seq<Tensor>)
  {
    n <= |g| && |ts| == n && forall i :: 0 <= i < n ==> ts[i].shape == g[i].dims
  }

  lemma PickShapes(g: seq<Node>, n: nat, node: Node, ts: seq<Tensor>)
    requires Carried(g, n, ts) && OperandsBefore(node, n)
    ensures ShapesOf(Pick(ts, node.operands)) == OperandShapes(g, node)
  {
    hide Size;
    var a, b := ShapesOf(Pick(ts, node.operands)), OperandShapes(g, node);
    forall k | 0 <= k < |a| ensures a[k] == b[k] {
      assert a[k] == ts[node.operands[k]].shape;
    }
  }

  /** Value of one node given the values of the nodes before it. */
  function NodeValue(g: seq<Node>, n: nat, node: Node, vs: seq<Tensor>, e: RawEnv): (r: Tensor)
    requires n <= |g| && NodeTyped(g, node, n) && Carried(g, n, vs)
    ensures r.shape == node.dims
  {
    PickShapes(g, n, node, vs);
    Forward(node.op, node.dims, Pick(vs, node.operands), e)
  }

  /** Values of the first n nodes. */
  function Values(g: seq<Node>, n: nat, e: RawEnv): (vs: seq<Tensor>)
    requires WellFormed(g) && n <= |g|
    ensures Carried(g, n, vs)
  {
    hide Size, NodeTyped, NodeValue;
    if n == 0 then [] else
      assert NodeTyped(g, g[n - 1], n - 1);
      var vs := Values(g, n - 1, e);
      vs + [NodeValue(g, n - 1, g[n - 1], vs, e)]
  }

  function NodeTangent(g: seq<Node>, n: nat, node: Node, vs: seq<Tensor>, ts: seq<Tensor>, dir: Tensor, e: RawEnv): (r: Tensor)
    requires n <= |g| && NodeTyped(g, node, n) && Carried(g, n, vs) && Carried(g, n, ts)
    ensures r.shape == node.dims
  {
    PickShapes(g, n, node, vs);
    PickShapes(g, n, node, ts);
    Tangent(node.op, node.dims, OperandTypes(g, node), Pick(vs, node.operands), Pick(ts, node.operands), dir, e)
  }

  /** Forward tangents of the first n nodes along the direction dirs(i) at each leaf i. */
  function Tangents(g: seq<Node>, n: nat, dirs: nat -> Tensor, e: RawEnv): (ts: seq<Tensor>)
    requires WellFormed(g) && n <= |g|
    ensures Carried(g, n, ts)
  {
    hide Size, NodeTyped, NodeTangent, Values;
    if n == 0 then [] else
      assert NodeTyped(g, g[n - 1], n - 1);
      var ts := Tangents(g, n - 1, dirs, e);
      ts + [NodeTangent(g, n - 1, g[n - 1], Values(g, n - 1, e), ts, dirs(n - 1), e)]
  }

  lemma {:induction false} ValuesPrefix(g: seq<Node>, m: nat, n: nat, e: RawEnv)
    requires WellFormed(g) && m <= n <= |g|
    ensures Values(g, n, e)[..m] == Values(g, m, e)
  {
    hide Size, WellFormed, NodeTyped, NodeValue;
    if m < n {
      ValuesPrefix(g, m, n - 1, e);
    }
  }

  lemma {:induction false} TangentsPrefix(g: seq<Node>, m: nat, n: nat, dirs: nat -> Tensor, e: RawEnv)
    requires WellFormed(g) && m <= n <= |g|
    ensures Tangents(g, n, dirs, e)[..m] == Tangents(g, m, dirs, e)
  {
    hide Size, WellFormed, NodeTyped, NodeTangent, Values;
    if m < n {
      TangentsPrefix(g, m, n - 1, dirs, e);
    }
  }

  // ----- the sweep -----

  type Cotangents = seq<Option<Tensor>>

  /** Every accumulated cotangent has its node's shape. */
  predicate CotangentsFit(g: seq<Node>, gs: Cotangents)
  {
    |gs| == |g| && forall i :: 0 <= i < |g| && gs[i].Some? ==> gs[i].value.shape == g[i].dims
  }

  function AddTo(old_: Option<Tensor>, t: Tensor): (r: Option<Tensor>)
    requires old_.Some? ==> old_.value.shape == t.shape
    ensures r.Some? && r.value.shape == t.shape
  {
    match old_
    case None => Some(t)
    case Some(previous) => Some(B(Add, previous, t))
  }

  /** Add the contributions, in order, to the cotangents of the operands they name. */
  function Accumulate(g: seq<Node>, gs: Cotangents, node: Node, cs: seq<Contribution>): (r: Cotangents)
    requires CotangentsFit(g, gs) && OperandsBefore(node, |g|) && Fitting(cs, OperandShapes(g, node))
    ensures CotangentsFit(g, r)
  {
    if cs == [] then gs else
      var c := cs[|cs| - 1];
      assert Lands(c, OperandShapes(g, node));
      var before := Accumulate(g, gs, node, cs[..|cs| - 1]);
      var id := node.operands[c.operand];
      before[id := AddTo(before[id], c.gradient)]
  }

  function NodeRule(g: seq<Node>, i: nat, vs: seq<Tensor>, dy: Tensor, e: RawEnv): (cs: seq<Contribution>)
    requires i < |g| && NodeTyped(g, g[i], i) && Carried(g, |g|, vs) && dy.shape == g[i].dims
    ensures Fitting(cs, OperandShapes(g, g[i]))
  {
    PickShapes(g, |g|, g[i], vs);
    Rule(g[i].op, g[i].dims, OperandTypes(g, g[i]), Pick(vs, g[i].operands), vs[i], dy, e)
  }

  function SweepStep(g: seq<Node>, vs: seq<Tensor>, gs: Cotangents, i: nat, e: RawEnv): (r: Cotangents)
    requires i < |g| && NodeTyped(g, g[i], i) && Carried(g, |g|, vs) && CotangentsFit(g, gs)
    ensures CotangentsFit(g, r)
  {
    match gs[i]
    case None => gs
    case Some(dy) => Accumulate(g, gs, g[i], NodeRule(g, i, vs, dy, e))
  }

  function Seeded(g: seq<Node>, out: nat, seed: Tensor): (r: Cotangents)
    requires out < |g| && seed.shape == g[out].dims
    ensures CotangentsFit(g, r)
  {
    seq(|g|, (i: nat) => if i == out then Some(seed) else None)
  }

  /** Cotangents after the nodes |g| - 1, ..., i have been processed. */
  function Sweep(g: seq<Node>, out: nat, seed: Tensor, i: nat, e: RawEnv): (r: Cotangents)
    requires WellFormed(g) && out < |g| && seed.shape == g[out].dims && i <= |g|
    ensures CotangentsFit(g, r)
    decreases |g| - i
  {
    if i == |g| then Seeded(g, out, seed)
    else SweepStep(g, Values(g, |g|, e), Sweep(g, out, seed, i + 1, e), i, e)
  }

  // ----- liveness -----

  /** Operand positions of a live node that the liveness pass marks. */
  predicate Differentiated(op: Op, arity: nat, k: nat)
  {
    k < arity &&
    match op
    case StopGradient => false
    case IndexToFloat => false
    case Unary(f) => !Rounding(f)
    case WithGradient => k == 1
    case WithElementwiseDerivative => k % 2 == 1
    case Select => k >= 1
    case Take(_, _) => k == 0
    case GatherGradient(_, _) => k == 0
    case DynamicSlice => k == 0
    case DynamicUpdateSlice => k <= 1
    case _ => true
  }

  function MarkOperands(live: seq<bool>, node: Node): (r: seq<bool>)
    ensures |r| == |live|
  {
    seq(|live|, (j: nat) requires j < |live| =>
      live[j] || exists k :: 0 <= k < |node.operands| && node.operands[k] == j && Differentiated(node.op, |node.operands|, k))
  }

  function LiveStep(g: seq<Node>, live: seq<bool>, i: nat): (r: seq<bool>)
    requires i < |g| && |live| == |g|
    ensures |r| == |g|
  {
    if live[i] then MarkOperands(live, g[i]) else live
  }

  /** Marks after the nodes |g| - 1, ..., i have been visited. */
  function Live(g: seq<Node>, out: nat, i: nat): (r: seq<bool>)
    requires i <= |g|
    ensures |r| == |g|
    decreases |g| - i
  {
    if i == |g| then seq(|g|, (j: nat) => j == out) else LiveStep(g, Live(g, out, i + 1), i)
  }

  /** The validation the pass performs before it records anything. */
  predicate Differentiable(g: seq<Node>, out: nat)
  {
    forall i :: 0 <= i < |g| && Live(g, out, i)[i] ==> Supported(g[i].op)
  }

  // ----- liveness covers the sweep -----

  lemma {:induction false} AccumulateTouches(g: seq<Node>, gs: Cotangents, node: Node, cs: seq<Contribution>, j: nat)
    requires CotangentsFit(g, gs) && OperandsBefore(node, |g|) && Fitting(cs, OperandShapes(g, node)) && j < |g|
    ensures Accumulate(g, gs, node, cs)[j] != gs[j] ==> exists k :: 0 <= k < |cs| && node.operands[cs[k].operand] == j
  {
    hide Size, B;
    if cs != [] {
      var rest := cs[..|cs| - 1];
      AccumulateTouches(g, gs, node, rest, j);
      assert Lands(cs[|cs| - 1], OperandShapes(g, node));
      if Accumulate(g, gs, node, rest)[j] != gs[j] {
        var k :| 0 <= k < |rest| && node.operands[rest[k].operand] == j;
        assert cs[k] == rest[k];
      }
    }
  }

  lemma {:induction false} PairRulePositions(args: seq<Tensor>, dy: Tensor, n: nat)
    requires 2 * n + 1 <= |args| && forall k :: 0 <= k < |args| ==> args[k].shape == dy.shape
    ensures forall k :: 0 <= k < |PairRule(args, dy, n)| ==> PairRule(args, dy, n)[k].operand % 2 == 1
  {
    hide Size, B;
    if n > 0 {
      PairRulePositions(args, dy, n - 1);
    }
  }

  /** Every contribution goes to an operand position that the liveness pass marks. */
  lemma RulePositions(op: Op, dims: Shape, sources: seq<DType>, args: seq<Tensor>, y: Tensor, dy: Tensor, e: RawEnv)
    requires NodeOk(op, ShapesOf(args), dims) && |sources| == |args| && y.shape == dims == dy.shape
    ensures forall k :: 0 <= k < |Rule(op, dims, sources, args, y, dy, e)| ==>
      Differentiated(op, |args|, Rule(op, dims, sources, args, y, dy, e)[k].operand)
  {
    hide Size, RuleStructural, UnaryRule, BinaryRule, B, Choose, Fill, TensorOps.GatherGradient, Gather,
      TensorOps.DynamicSlice, TensorOps.DynamicUpdateSlice;
    var cs := Rule(op, dims, sources, args, y, dy, e);
    forall k | 0 <= k < |cs| ensures Differentiated(op, |args|, cs[k].operand) {
      assert Lands(cs[k], ShapesOf(args));
      if op.WithElementwiseDerivative? {
        PairRulePositions(args, dy, |args| / 2);
      }
    }
  }

  lemma {:induction false} LiveGrows(g: seq<Node>, out: nat, i: nat, m: nat, j: nat)
    requires i <= m <= |g| && j < |g| && Live(g, out, m)[j]
    ensures Live(g, out, i)[j]
    decreases m - i
  {
    if i < m {
      LiveGrows(g, out, i + 1, m, j);
    }
  }

  /** Every node that receives a cotangent was marked live. */
  lemma {:induction false} LivenessCovers(g: seq<Node>, out: nat, seed: Tensor, i: nat, e: RawEnv, j: nat)
    requires WellFormed(g) && out < |g| && seed.shape == g[out].dims && i <= |g| && j < |g|
    requires Sweep(g, out, seed, i, e)[j].Some?
    ensures Live(g, out, i)[j]
    decreases |g| - i
  {
    hide Size, NodeOk, Rule, Values, Differentiated, Accumulate, OperandShapes;
    if i < |g| {
      var gs := Sweep(g, out, seed, i + 1, e);
      if gs[j].Some? {
        LivenessCovers(g, out, seed, i + 1, e, j);
        LiveGrows(g, out, i, i + 1, j);
      } else {
        LivenessCovers(g, out, seed, i + 1, e, i);
        var node, vs := g[i], Values(g, |g|, e);
        var cs := NodeRule(g, i, vs, gs[i].value, e);
        AccumulateTouches(g, gs, node, cs, j);
        var k :| 0 <= k < |cs| && node.operands[cs[k].operand] == j;
        NodeRulePositions(g, i, vs, gs[i].value, e);
      }
    }
  }

  lemma NodeRulePositions(g: seq<Node>, i: nat, vs: seq<Tensor>, dy: Tensor, e: RawEnv)
    requires i < |g| && NodeTyped(g, g[i], i) && Carried(g, |g|, vs) && dy.shape == g[i].dims
    ensures forall k :: 0 <= k < |NodeRule(g, i, vs, dy, e)| ==>
      Differentiated(g[i].op, |g[i].operands|, NodeRule(g, i, vs, dy, e)[k].operand)
  {
    hide Size, NodeOk, Rule, Differentiated;
    PickShapes(g, |g|, g[i], vs);
    RulePositions(g[i].op, g[i].dims, OperandTypes(g, g[i]), Pick(vs, g[i].operands), vs[i], dy, e);
  }

  // ----- the sweep is the adjoint of the tangent -----

  /** Cotangent of node j paired with its tangent; zero when it has none. */
  function PairAt(gs: Cotangents, ts: seq<Tensor>, j: nat): real
  {
    if j < |gs| && j < |ts| && gs[j].Some? && gs[j].value.shape == ts[j].shape then Inner(gs[j].value, ts[j]) else 0.0
  }

  /** What node j still contributes when the nodes from i on have been processed: leaves keep their share. */
  function BalanceAt(g: seq<Node>, gs: Cotangents, ts: seq<Tensor>, i: nat, j: nat): real
  {
    if j < |g| && (j < i || g[j].op.Leaf?) then PairAt(gs, ts, j) else 0.0
  }

  function Balance(g: seq<Node>, gs: Cotangents, ts: seq<Tensor>, i: nat): real
  {
    Sum(|g|, (j: nat) => BalanceAt(g, gs, ts, i, j))
  }

  lemma AddToPair(old_: Option<Tensor>, t: Tensor, x: Tensor)
    requires t.shape == x.shape && (old_.Some? ==> old_.value.shape == t.shape)
    ensures Inner(AddTo(old_, t).value, x) == (if old_.Some? then Inner(old_.value, x) else 0.0) + Inner(t, x)
  {
    hide Size, At, Times, Inner;
    if old_.Some? {
      InnerAdd(x, old_.value, t, B(Add, old_.value, t));
    }
  }

  /** Adding one contribution to a pending node raises the balance by its pairing. */
  lemma BalanceUpdate(g: seq<Node>, gs: Cotangents, ts: seq<Tensor>, i: nat, id: nat, t: Tensor)
    requires CotangentsFit(g, gs) && Carried(g, |g|, ts) && id < i <= |g| && t.shape == ts[id].shape
    ensures gs[id].Some? ==> gs[id].value.shape == t.shape
    ensures Balance(g, gs[id := AddTo(gs[id], t)], ts, i) == Balance(g, gs, ts, i) + Inner(t, ts[id])
  {
    hide Size, At, Times, Inner, AddTo;
    var next := gs[id := AddTo(gs[id], t)];
    AddToPair(gs[id], t, ts[id]);
    var f := (j: nat) => BalanceAt(g, gs, ts, i, j);
    var h := (j: nat) => BalanceAt(g, next, ts, i, j);
    var d := (j: nat) => if j == id then Inner(t, ts[id]) else 0.0;
    SumDelta(|g|, id, d);
    SumAdd(|g|, f, d, h);
  }

  lemma {:induction false} BalanceAccumulate(g: seq<Node>, gs: Cotangents, ts: seq<Tensor>, i: nat, cs: seq<Contribution>)
    requires i < |g| && NodeTyped(g, g[i], i) && CotangentsFit(g, gs) && Carried(g, |g|, ts)
    requires Fitting(cs, OperandShapes(g, g[i]))
    ensures ShapesOf(Pick(ts, g[i].operands)) == OperandShapes(g, g[i])
    ensures Balance(g, Accumulate(g, gs, g[i], cs), ts, i)
         == Balance(g, gs, ts, i) + ContribSum(cs, Pick(ts, g[i].operands))
  {
    hide Size, NodeOk, Inner, Balance, AddTo;
    PickShapes(g, |g|, g[i], ts);
    if cs != [] {
      var c := cs[|cs| - 1];
      assert Lands(c, OperandShapes(g, g[i]));
      BalanceAccumulate(g, gs, ts, i, cs[..|cs| - 1]);
      BalanceUpdate(g, Accumulate(g, gs, g[i], cs[..|cs| - 1]), ts, i, g[i].operands[c.operand], c.gradient);
    }
  }

  lemma ValueAt(g: seq<Node>, i: nat, e: RawEnv)
    requires WellFormed(g) && i < |g|
    ensures var vs := Values(g, |g|, e);
      ShapesOf(Pick(vs, g[i].operands)) == OperandShapes(g, g[i])
      && vs[i] == Forward(g[i].op, g[i].dims, Pick(vs, g[i].operands), e)
  {
    hide Size, NodeOk, Forward;
    var vs := Values(g, |g|, e);
    ValuesPrefix(g, i, |g|, e);
    ValuesPrefix(g, i + 1, |g|, e);
    assert vs[i] == vs[..i + 1][i];
    PickShapes(g, |g|, g[i], vs);
    assert Pick(vs, g[i].operands) == Pick(vs[..i], g[i].operands);
  }

  lemma TangentAt(g: seq<Node>, i: nat, dirs: nat -> Tensor, e: RawEnv)
    requires WellFormed(g) && i < |g|
    ensures var vs, ts := Values(g, |g|, e), Tangents(g, |g|, dirs, e);
      && ShapesOf(Pick(vs, g[i].operands)) == ShapesOf(Pick(ts, g[i].operands)) == OperandShapes(g, g[i])
      && ts[i] == Tangent(g[i].op, g[i].dims, OperandTypes(g, g[i]), Pick(vs, g[i].operands), Pick(ts, g[i].operands), dirs(i), e)
  {
    hide Size, NodeOk, Tangent;
    var vs, ts := Values(g, |g|, e), Tangents(g, |g|, dirs, e);
    TangentsPrefix(g, i, |g|, dirs, e);
    TangentsPrefix(g, i + 1, |g|, dirs, e);
    ValuesPrefix(g, i, |g|, e);
    assert ts[i] == ts[..i + 1][i];
    PickShapes(g, |g|, g[i], ts);
    PickShapes(g, |g|, g[i], vs);
    assert Pick(ts, g[i].operands) == Pick(ts[..i], g[i].operands);
    assert Pick(vs, g[i].operands) == Pick(vs[..i], g[i].operands);
  }

  /** One node's contributions carry exactly its cotangent's pairing. */
  lemma NodeAdjoint(g: seq<Node>, i: nat, dirs: nat -> Tensor, dy: Tensor, e: RawEnv)
    requires WellFormed(g) && i < |g| && dy.shape == g[i].dims && Supported(g[i].op) && !g[i].op.Leaf?
    ensures var vs, ts := Values(g, |g|, e), Tangents(g, |g|, dirs, e);
      && ShapesOf(Pick(ts, g[i].operands)) == OperandShapes(g, g[i])
      && Inner(dy, ts[i]) == ContribSum(NodeRule(g, i, vs, dy, e), Pick(ts, g[i].operands))
  {
    hide Size, NodeOk, Tangent, Rule, Inner, Forward, ContribSum, Values, Tangents;
    var vs, ts := Values(g, |g|, e), Tangents(g, |g|, dirs, e);
    ValueAt(g, i, e);
    TangentAt(g, i, dirs, e);
    assert NodeTyped(g, g[i], i);
    OpAdjoint(g[i].op, g[i].dims, OperandTypes(g, g[i]), Pick(vs, g[i].operands), Pick(ts, g[i].operands), dirs(i), dy, e);
  }

  lemma LeafRule(g: seq<Node>, i: nat, vs: seq<Tensor>, dy: Tensor, e: RawEnv)
    requires i < |g| && NodeTyped(g, g[i], i) && Carried(g, |g|, vs) && dy.shape == g[i].dims && g[i].op.Leaf?
    ensures NodeRule(g, i, vs, dy, e) == []
  {
    hide Size, RuleStructural, RuleIndexed, UnaryRule, BinaryRule;
  }

  /** Processing one node keeps the balance. */
  lemma StepBalance(g: seq<Node>, gs: Cotangents, i: nat, dirs: nat -> Tensor, e: RawEnv)
    requires WellFormed(g) && i < |g| && CotangentsFit(g, gs) && (gs[i].Some? ==> Supported(g[i].op))
    ensures Balance(g, SweepStep(g, Values(g, |g|, e), gs, i, e), Tangents(g, |g|, dirs, e), i)
         == Balance(g, gs, Tangents(g, |g|, dirs, e), i + 1)
  {
    hide Size, NodeOk, Inner, Rule, NodeRule, Accumulate, ContribSum, Values, Tangents, NodeValue, NodeTangent;
    var vs, ts := Values(g, |g|, e), Tangents(g, |g|, dirs, e);
    var f, h := (j: nat) => BalanceAt(g, gs, ts, i, j), (j: nat) => BalanceAt(g, gs, ts, i + 1, j);
    assert NodeTyped(g, g[i], i);
    if gs[i].None? {
      SumCong(|g|, f, h);
    } else if g[i].op.Leaf? {
      SumCong(|g|, f, h);
      LeafRule(g, i, vs, gs[i].value, e);
      AccumulateNone(g, gs, g[i]);
    } else {
      var dy := gs[i].value;
      var d := (j: nat) => if j == i then Inner(dy, ts[i]) else 0.0;
      SumDelta(|g|, i, d);
      SumAdd(|g|, f, d, h);
      NodeAdjoint(g, i, dirs, dy, e);
      BalanceAccumulate(g, gs, ts, i, NodeRule(g, i, vs, dy, e));
    }
  }

  lemma AccumulateNone(g: seq<Node>, gs: Cotangents, node: Node)
    requires CotangentsFit(g, gs) && OperandsBefore(node, |g|)
    ensures Accumulate(g, gs, node, []) == gs
  {
  }

  /** At every stage of the sweep the balance is the seed paired with the output's tangent. */
  lemma {:induction false} SweepBalance(g: seq<Node>, out: nat, seed: Tensor, i: nat, dirs: nat -> Tensor, e: RawEnv)
    requires WellFormed(g) && out < |g| && seed.shape == g[out].dims && i <= |g| && Differentiable(g, out)
    ensures Balance(g, Sweep(g, out, seed, i, e), Tangents(g, |g|, dirs, e), i) == Inner(seed, Tangents(g, |g|, dirs, e)[out])
    decreases |g| - i
  {
    hide Size, NodeTyped, Inner, SweepStep, Values, Tangents, Supported, Live;
    var ts := Tangents(g, |g|, dirs, e);
    if i == |g| {
      SumDelta(|g|, out, (j: nat) => BalanceAt(g, Seeded(g, out, seed), ts, i, j));
    } else {
      var gs := Sweep(g, out, seed, i + 1, e);
      SweepBalance(g, out, seed, i + 1, dirs, e);
      if gs[i].Some? {
        LivenessCovers(g, out, seed, i + 1, e, i);
        LiveGrows(g, out, i, i + 1, i);
      }
      StepBalance(g, gs, i, dirs, e);
    }
  }

  /** The gradient returned for a leaf: its accumulated cotangent, or zeros when nothing reached it. */
  function Gradient(g: seq<Node>, out: nat, seed: Tensor, input: nat, e: RawEnv): (r: Tensor)
    requires WellFormed(g) && out < |g| && seed.shape == g[out].dims && input < |g|
    ensures r.shape == g[input].dims
  {
    match Sweep(g, out, seed, 0, e)[input]
    case None => Fill(g[input].dims, 0.0)
    case Some(t) => t
  }

  /** Distinct leaves. */
  predicate Inputs(g: seq<Node>, inputs: seq<nat>)
  {
    && (forall k :: 0 <= k < |inputs| ==> inputs[k] < |g| && g[inputs[k]].op.Leaf?)
    && (forall k, l :: 0 <= k < l < |inputs| ==> inputs[k] != inputs[l])
  }

  /** Leaves that were not requested do not move. */
  predicate OnlyMoves(g: seq<Node>, inputs: seq<nat>, dirs: nat -> Tensor)
  {
    forall i :: 0 <= i < |g| && g[i].op.Leaf? && i !in inputs ==> Shaped(dirs(i), g[i].dims) == Fill(g[i].dims, 0.0)
  }

  function InputPair(g: seq<Node>, out: nat, seed: Tensor, inputs: seq<nat>, dirs: nat -> Tensor, e: RawEnv, k: nat): real
    requires WellFormed(g) && out < |g| && seed.shape == g[out].dims && Inputs(g, inputs)
  {
    if k < |inputs| then Inner(Gradient(g, out, seed, inputs[k], e), Shaped(dirs(inputs[k]), g[inputs[k]].dims)) else 0.0
  }

  lemma LeafTangent(g: seq<Node>, i: nat, dirs: nat -> Tensor, e: RawEnv)
    requires WellFormed(g) && i < |g| && g[i].op.Leaf?
    ensures Tangents(g, |g|, dirs, e)[i] == Shaped(dirs(i), g[i].dims)
  {
    hide Size, TangentStructural, TangentIndexed, Values, Tangents;
    TangentAt(g, i, dirs, e);
  }

  lemma InputBalance(g: seq<Node>, out: nat, seed: Tensor, inputs: seq<nat>, dirs: nat -> Tensor, e: RawEnv, k: nat)
    requires WellFormed(g) && out < |g| && seed.shape == g[out].dims && Inputs(g, inputs) && k < |inputs|
    ensures BalanceAt(g, Sweep(g, out, seed, 0, e), Tangents(g, |g|, dirs, e), 0, inputs[k])
         == InputPair(g, out, seed, inputs, dirs, e, k)
  {
    hide Size, Inner, Values, Tangents, Sweep, WellFormed, At, Times;
    var i := inputs[k];
    LeafTangent(g, i, dirs, e);
    if Sweep(g, out, seed, 0, e)[i].None? {
      InnerZero(Shaped(dirs(i), g[i].dims), Fill(g[i].dims, 0.0));
    }
  }

  lemma UnmovedBalance(g: seq<Node>, gs: Cotangents, inputs: seq<nat>, dirs: nat -> Tensor, e: RawEnv, j: nat)
    requires WellFormed(g) && CotangentsFit(g, gs) && OnlyMoves(g, inputs, dirs) && j < |g| && j !in inputs
    ensures BalanceAt(g, gs, Tangents(g, |g|, dirs, e), 0, j) == 0.0
  {
    hide Size, Inner, Values, Tangents, WellFormed, At, Times;
    if g[j].op.Leaf? && gs[j].Some? {
      LeafTangent(g, j, dirs, e);
      InnerZero(gs[j].value, Fill(g[j].dims, 0.0));
    }
  }

  /** The returned gradients, paired with any directions of the requested leaves, give the seed paired with the
      output's forward tangent along those directions. */
  lemma GradientsAreAdjoint(g: seq<Node>, out: nat, seed: Tensor, inputs: seq<nat>, dirs: nat -> Tensor, e: RawEnv)
    requires WellFormed(g) && out < |g| && seed.shape == g[out].dims && Differentiable(g, out)
    requires Inputs(g, inputs) && OnlyMoves(g, inputs, dirs)
    ensures Inner(seed, Tangents(g, |g|, dirs, e)[out])
         == Sum(|inputs|, (k: nat) => InputPair(g, out, seed, inputs, dirs, e, k))
  {
    hide Size, Inner, Values, Tangents, WellFormed, Differentiable, Sweep, InputPair, BalanceAt, OnlyMoves;
    var gs, ts := Sweep(g, out, seed, 0, e), Tangents(g, |g|, dirs, e);
    SweepBalance(g, out, seed, 0, dirs, e);
    var rows := (k: nat) => InputPair(g, out, seed, inputs, dirs, e, k);
    var cols := (j: nat) => BalanceAt(g, gs, ts, 0, j);
    var F := (k: nat, j: nat) => if k < |inputs| && inputs[k] == j then rows(k) else 0.0;
    forall k: nat | k < |inputs| ensures rows(k) == Row(F, |g|, k) {
      SumDelta(|g|, inputs[k], (j: nat) => F(k, j));
    }
    forall j: nat | j < |g| ensures cols(j) == Col(F, |inputs|, j) {
      if j in inputs {
        var k: nat :| k < |inputs| && inputs[k] == j;
        InputBalance(g, out, seed, inputs, dirs, e, k);
        SumDelta(|inputs|, k, (k': nat) => F(k', j));
      } else {
        UnmovedBalance(g, gs, inputs, dirs, e, j);
        SumZero(|inputs|, (k': nat) => F(k', j));
      }
    }
    SumSwap(|inputs|, |g|, F, rows, cols);
  }
}
