/** reverse_gradients as it runs: validate, then sweep backwards appending nodes to the graph. */
module Autodiff {
  import opened Options
  import opened Sums
  import opened Shapes
  import opened Tensors
  import opened TensorOps
  import opened Adjoints
  import opened Program
  import opened Rules
  import opened NodeRules
  import opened Reverse
  import opened Recipes
  import opened RuleRecipes

  // ----- growing graphs -----

  predicate Extends(g: seq<Node>, h: seq<Node>)
  {
    |g| <= |h| && h[..|g|] == g
  }

  function NodeShapes(g: seq<Node>): (s: seq<Shape>)
    ensures |s| == |g| && forall i :: 0 <= i < |g| ==> s[i] == g[i].dims
  {
    seq(|g|, (i: nat) requires i < |g| => g[i].dims)
  }

  /** The value of a node in an environment. */
  function ValueOf(g: seq<Node>, id: nat, e: RawEnv): (t: Tensor)
    requires WellFormed(g) && id < |g|
    ensures t.shape == g[id].dims
  {
    Values(g, |g|, e)[id]
  }

  lemma ValuesShapes(g: seq<Node>, e: RawEnv)
    requires WellFormed(g)
    ensures ShapesOf(Values(g, |g|, e)) == NodeShapes(g)
  {
    hide Size, WellFormed, Values;
  }

  lemma SameNodeValue(g: seq<Node>, h: seq<Node>, n: nat, vs: seq<Tensor>, e: RawEnv)
    requires Extends(g, h) && n < |g| && NodeTyped(g, g[n], n) && NodeTyped(h, h[n], n) && Carried(g, n, vs) && Carried(h, n, vs)
    ensures NodeValue(g, n, g[n], vs, e) == NodeValue(h, n, h[n], vs, e)
  {
    hide Size, NodeOk, Forward;
    assert h[n] == h[..|g|][n];
    PickShapes(g, n, g[n], vs);
    PickShapes(h, n, h[n], vs);
  }

  /** Appending nodes leaves the values of the earlier ones alone. */
  lemma {:induction false} ValuesKept(g: seq<Node>, h: seq<Node>, n: nat, e: RawEnv)
    requires WellFormed(g) && WellFormed(h) && Extends(g, h) && n <= |g|
    ensures Values(h, n, e) == Values(g, n, e)
  {
    hide Size, NodeTyped, NodeValue;
    if n > 0 {
      ValuesKept(g, h, n - 1, e);
      SameNodeValue(g, h, n - 1, Values(g, n - 1, e), e);
    }
  }

  lemma ValuePrefix(g: seq<Node>, h: seq<Node>, e: RawEnv)
    requires WellFormed(g) && WellFormed(h) && Extends(g, h)
    ensures Values(h, |h|, e)[..|g|] == Values(g, |g|, e)
    ensures forall id :: 0 <= id < |g| ==> ValueOf(h, id, e) == ValueOf(g, id, e)
  {
    hide Size, WellFormed, Values;
    ValuesKept(g, h, |g|, e);
    ValuesPrefix(h, |g|, |h|, e);
    assert forall id :: 0 <= id < |g| ==> Values(h, |h|, e)[id] == Values(h, |h|, e)[..|g|][id];
  }

  lemma {:induction false} ExprKept(x: Expr, s: seq<Shape>, t: seq<Shape>)
    requires ExprOk(x, s) && |s| <= |t| && t[..|s|] == s
    ensures ExprOk(x, t)
    decreases x
  {
    hide NodeOk;
    match x
    case Ref(id, dims) => assert t[id] == t[..|s|][id];
    case Make(op, args, dims) =>
      forall k | 0 <= k < |args| ensures ExprOk(args[k], t) {
        ExprKept(args[k], s, t);
      }
  }

  lemma {:induction false} EvalKept(x: Expr, vs: seq<Tensor>, ws: seq<Tensor>, e: RawEnv)
    requires ExprOk(x, ShapesOf(vs)) && |vs| <= |ws| && ws[..|vs|] == vs
    ensures ExprOk(x, ShapesOf(ws)) && Eval(x, ws, e) == Eval(x, vs, e)
    decreases x
  {
    hide Size, NodeOk, Forward;
    assert forall k :: 0 <= k < |vs| ==> ws[k] == ws[..|vs|][k];
    assert ShapesOf(ws)[..|vs|] == ShapesOf(vs);
    ExprKept(x, ShapesOf(vs), ShapesOf(ws));
    match x
    case Ref(id, dims) =>
    case Make(op, args, dims) =>
      forall k | 0 <= k < |args| ensures ExprOk(args[k], ShapesOf(ws)) && Eval(args[k], ws, e) == Eval(args[k], vs, e) {
        EvalKept(args[k], vs, ws, e);
      }
      var a := seq(|args|, (k: nat) requires k < |args| && ExprOk(args[k], ShapesOf(vs)) => Eval(args[k], vs, e));
      var b := seq(|args|, (k: nat) requires k < |args| && ExprOk(args[k], ShapesOf(ws)) => Eval(args[k], ws, e));
      assert a == b;
  }

  /** A node of the larger graph computes an expression over the smaller one. */
  ghost predicate Computed(g: seq<Node>, h: seq<Node>, id: nat, x: Expr, e: RawEnv)
    requires WellFormed(g) && WellFormed(h)
  {
    id < |h| && h[id].dims == x.dims && ExprOk(x, ShapesOf(Values(g, |g|, e))) && ValueOf(h, id, e) == Eval(x, Values(g, |g|, e), e)
  }

  /** ... in every environment. */
  ghost predicate Denotes(g: seq<Node>, h: seq<Node>, id: nat, x: Expr)
  {
    WellFormed(g) && WellFormed(h) && Extends(g, h) && forall e: RawEnv :: Computed(g, h, id, x, e)
  }

  lemma RefDenotes(g: seq<Node>, id: nat, dims: Shape)
    requires WellFormed(g) && ExprOk(Ref(id, dims), NodeShapes(g))
    ensures Denotes(g, g, id, Ref(id, dims))
  {
    hide Size, WellFormed, Values;
    forall e: RawEnv ensures Computed(g, g, id, Ref(id, dims), e) {
      ValuesShapes(g, e);
    }
  }

  /** What is computed stays computed when either graph grows. */
  lemma DenotesLater(f: seq<Node>, g: seq<Node>, h: seq<Node>, k: seq<Node>, id: nat, x: Expr)
    requires WellFormed(f) && WellFormed(k) && Extends(f, g) && Denotes(g, h, id, x) && Extends(h, k) && ExprOk(x, NodeShapes(f))
    ensures Denotes(f, k, id, x)
  {
    hide Size, WellFormed, Values, ValueOf;
    assert Extends(f, k) by {
      assert g[..|f|] == h[..|g|][..|f|] == h[..|f|] == k[..|h|][..|f|] == k[..|f|];
    }
    forall e: RawEnv ensures Computed(f, k, id, x, e) {
      assert Computed(g, h, id, x, e);
      ValuesShapes(f, e);
      ValuePrefix(f, g, e);
      ValuePrefix(h, k, e);
      EvalKept(x, Values(f, |f|, e), Values(g, |g|, e), e);
      assert k[id] == k[..|h|][id];
    }
  }

  /** One appended node over computed operands. */
  lemma AppendedDenotes(g: seq<Node>, h: seq<Node>, op: Op, ids: seq<nat>, args: seq<Expr>, dims: Shape)
    requires WellFormed(g) && WellFormed(h) && Extends(g, h)
    requires |ids| == |args| && (forall k :: 0 <= k < |ids| ==> Denotes(g, h, ids[k], args[k])) && NodeOk(op, DimsOf(args), dims)
    ensures Denotes(g, h + [Node(op, ids, dims, F32)], |h|, Make(op, args, dims))
  {
    hide Size, Values, ValueOf, NodeOk, Forward, Denotes;
    var node := Node(op, ids, dims, F32);
    var k := h + [node];
    forall j | 0 <= j < |ids| ensures ids[j] < |h| && h[ids[j]].dims == args[j].dims {
      OperandKnown(g, h, ids[j], args[j]);
    }
    assert OperandShapes(k, node) == DimsOf(args);
    AppendWellFormed(h, node);
    assert Extends(g, k) && Extends(h, k);
    forall e: RawEnv ensures Computed(g, k, |h|, Make(op, args, dims), e) {
      AppendedComputed(g, h, node, args, e);
    }
    DenotesIntro(g, k, |h|, Make(op, args, dims));
  }

  lemma DenotesIntro(g: seq<Node>, h: seq<Node>, id: nat, x: Expr)
    requires WellFormed(g) && WellFormed(h) && Extends(g, h) && forall e: RawEnv :: Computed(g, h, id, x, e)
    ensures Denotes(g, h, id, x)
  {
  }

  lemma OperandKnown(g: seq<Node>, h: seq<Node>, id: nat, x: Expr)
    requires Denotes(g, h, id, x)
    ensures id < |h| && h[id].dims == x.dims
  {
    hide Values, WellFormed;
    var fixed: RawEnv :| true;
    assert Computed(g, h, id, x, fixed);
  }

  lemma AppendWellFormed(h: seq<Node>, node: Node)
    requires WellFormed(h) && OperandsBefore(node, |h|) && NodeOk(node.op, OperandShapes(h + [node], node), node.dims)
    ensures WellFormed(h + [node])
  {
    hide NodeOk;
    var k := h + [node];
    forall i | 0 <= i < |k| ensures NodeTyped(k, k[i], i) {
      if i < |h| {
        assert NodeTyped(h, h[i], i);
        assert OperandShapes(k, h[i]) == OperandShapes(h, h[i]);
      }
    }
  }

  lemma AppendedComputed(g: seq<Node>, h: seq<Node>, node: Node, args: seq<Expr>, e: RawEnv)
    requires WellFormed(g) && WellFormed(h) && WellFormed(h + [node]) && |node.operands| == |args|
    requires (forall k :: 0 <= k < |args| ==> Denotes(g, h, node.operands[k], args[k])) && NodeOk(node.op, DimsOf(args), node.dims)
    ensures Computed(g, h + [node], |h|, Make(node.op, args, node.dims), e)
  {
    hide Size, Values, NodeOk, Forward, WellFormed;
    var k := h + [node];
    var vs, ws := Values(g, |g|, e), Values(h, |h|, e);
    forall j | 0 <= j < |args| ensures node.operands[j] < |h| && ExprOk(args[j], ShapesOf(vs)) && ws[node.operands[j]] == Eval(args[j], vs, e) {
      assert Computed(g, h, node.operands[j], args[j], e);
    }
    ValueAt(k, |h|, e);
    ValuePrefix(h, k, e);
    var all := Values(k, |k|, e);
    assert forall j :: 0 <= j < |h| ==> all[j] == all[..|h|][j];
    var ts := seq(|args|, (j: nat) requires j < |args| && ExprOk(args[j], ShapesOf(vs)) => Eval(args[j], vs, e));
    assert Pick(all, node.operands) == ts;
  }

  class Graph {
    var nodes: seq<Node>

    constructor (nodes: seq<Node>)
      ensures this.nodes == nodes
    {
      this.nodes := nodes;
    }

    /** Append the nodes an expression is made of; the last one computes it. */
    method Emit(x: Expr) returns (id: nat)
      requires WellFormed(nodes) && ExprOk(x, NodeShapes(nodes))
      modifies this
      ensures Denotes(old(nodes), nodes, id, x)
      decreases x
    {
      hide Denotes, WellFormed;
      match x
      case Ref(i, dims) =>
        RefDenotes(nodes, i, dims);
        id := i;
      case Make(op, args, dims) =>
        ghost var g := nodes;
        var ids: seq<nat> := [];
        for k := 0 to |args|
          invariant |ids| == k && WellFormed(nodes) && Extends(g, nodes)
          invariant forall j :: 0 <= j < k ==> Denotes(g, nodes, ids[j], args[j])
        {
          ghost var h := nodes;
          ShapesKept(g, h);
          ExprKept(args[k], NodeShapes(g), NodeShapes(h));
          var a := Emit(args[k]);
          DenotesGraphs(h, nodes, a, args[k]);
          DenotesLater(g, h, nodes, nodes, a, args[k]);
          forall j | 0 <= j < k ensures Denotes(g, nodes, ids[j], args[j]) {
            DenotesLater(g, g, h, nodes, ids[j], args[j]);
          }
          DenotesGraphs(g, nodes, a, args[k]);
          ids := ids + [a];
        }
        AppendedDenotes(g, nodes, op, ids, args, dims);
        id := |nodes|;
        nodes := nodes + [Node(op, ids, dims, F32)];
    }

    /** Append the nodes of every contribution, in order. */
    method Record(es: seq<Entry>) returns (ids: seq<nat>)
      requires WellFormed(nodes) && forall k :: 0 <= k < |es| ==> ExprOk(es[k].gradient, NodeShapes(nodes))
      modifies this
      ensures WellFormed(nodes) && Extends(old(nodes), nodes) && |ids| == |es|
      ensures forall k :: 0 <= k < |es| ==> Denotes(old(nodes), nodes, ids[k], es[k].gradient)
    {
      hide Denotes, WellFormed;
      ghost var g := nodes;
      ids := [];
      for k := 0 to |es|
        invariant |ids| == k && WellFormed(nodes) && Extends(g, nodes)
        invariant forall j :: 0 <= j < k ==> Denotes(g, nodes, ids[j], es[j].gradient)
      {
        ghost var h := nodes;
        ShapesKept(g, h);
        ExprKept(es[k].gradient, NodeShapes(g), NodeShapes(h));
        var a := Emit(es[k].gradient);
        DenotesGraphs(h, nodes, a, es[k].gradient);
        DenotesLater(g, h, nodes, nodes, a, es[k].gradient);
        forall j | 0 <= j < k ensures Denotes(g, nodes, ids[j], es[j].gradient) {
          DenotesLater(g, g, h, nodes, ids[j], es[j].gradient);
        }
        DenotesGraphs(g, nodes, a, es[k].gradient);
        ids := ids + [a];
      }
    }

    /** One step of the sweep: record the contributions of node i and add them to its operands' gradients. */
    method Propagate(ghost job: Job, g: seq<Node>, i: nat, gradients: array<Option<nat>>)
      requires g == job.g && i < |g| && SweptTo(job, nodes, gradients[..], i + 1)
      modifies this, gradients
      ensures SweptTo(job, nodes, gradients[..], i) && Extends(old(nodes), nodes)
    {
      hide *;
      SweptGraph(job, nodes, gradients[..], i + 1);
      if gradients[i].None? {
        NothingToPropagate(job, nodes, gradients[..], i);
        ExtendsSelf(nodes);
        return;
      }
      var node := g[i];
      SweptShapes(job, nodes, gradients[..], i);
      var es := EntriesFor(g, i, gradients[i].value);
      ghost var h := nodes;
      RecipeReady(job, nodes, gradients[..], i);
      var ids := Record(es);
      AllStart(job, h, nodes, gradients[..], i, es, ids);
      for k := 0 to |es|
        invariant WellFormed(nodes) && Extends(h, nodes) && |ids| == |es|
        invariant gradients.Length == |g|
        invariant AllAdding(job, nodes, gradients[..], i, es, ids, k)
      {
        ghost var before, marks := nodes, gradients[..];
        AddingTarget(job, before, marks, i, es, ids, k);
        var id := node.operands[es[k].operand];
        var sum := ids[k];
        ExtendsSelf(nodes);
        if gradients[id].Some? {
          sum := Emit(BinaryOf(Add, Ref(gradients[id].value, g[id].dims), Ref(ids[k], g[id].dims)));
          DenotesGraphs(before, nodes, sum, BinaryOf(Add, Ref(gradients[id].value, g[id].dims), Ref(ids[k], g[id].dims)));
        }
        gradients[id] := Some(sum);
        AllStep(job, before, nodes, marks, gradients[..], i, es, ids, k, sum);
        ExtendsTrans(h, before, nodes);
      }
      AllEnd(job, nodes, gradients[..], i, es, ids);
    }

    /** Gradients of node out with respect to input leaves, seeded by a cotangent node or, for a scalar, by one. Invalid
        requests and unsupported operations on a backward path are refused before anything is appended. */
    method ReverseGradients(out: nat, cotangent: Option<nat>, inputs: seq<nat>) returns (r: Outcome)
      requires WellFormed(nodes) && HandlesOk(nodes, out, cotangent, inputs)
      modifies this
      ensures r.Refused? <==> !(RequestOk(old(nodes), out, cotangent, inputs) && Differentiable(old(nodes), out))
      ensures r.Refused? ==> nodes == old(nodes)
      ensures r.Refused? && r.why.Unsupported? ==> Blocks(old(nodes), out, r.why.node)
      ensures r.Gradients? ==> ComputesGradients(old(nodes), nodes, out, cotangent, inputs, r.ids)
    {
      hide *;
      ghost var g := nodes;
      var bad := Invalid(nodes, out, cotangent, inputs);
      InvalidIs(nodes, out, cotangent, inputs);
      if bad.Some? {
        return Refused(bad.value);
      }
      HandlesAre(nodes, out, cotangent, inputs);
      var unsupported := MarkLive(nodes, out);
      if unsupported.Some? {
        BlocksIs(nodes, out, unsupported.value);
        return Refused(Unsupported(unsupported.value));
      }
      var snapshot := nodes;
      var seed;
      match cotangent {
        case Some(c) =>
          seed := c;
          ExtendsSelf(nodes);
        case None =>
          ScalarTyped(nodes, 1.0);
          seed := Emit(ScalarOf(1.0));
          DenotesGraphs(g, nodes, seed, ScalarOf(1.0));
      }
      ghost var job := Job(g, out, nodes, seed);
      SeedIs(g, nodes, out, cotangent, inputs, seed);
      var gradients := new Option<nat>[|snapshot|](j => if j == out then Some(seed) else None);
      SweepStarts(job, gradients[..]);
      var i := |snapshot|;
      while i > 0
        invariant 0 <= i <= |snapshot| && gradients.Length == |g|
        invariant SweptTo(job, nodes, gradients[..], i)
      {
        i := i - 1;
        Propagate(job, snapshot, i, gradients);
      }
      var ids := Collect(job, snapshot, inputs, gradients[..]);
      r := Gradients(ids);
      AllCollected(job, nodes, cotangent, inputs, ids);
    }

    /** The gradient nodes of the inputs; zeros for inputs that nothing reached. */
    method Collect(ghost job: Job, g: seq<Node>, inputs: seq<nat>, marks: seq<Option<nat>>) returns (ids: seq<nat>)
      requires SweptTo(job, nodes, marks, 0) && g == job.g && forall k :: 0 <= k < |inputs| ==> inputs[k] < |g|
      modifies this
      ensures JobOk(job) && WellFormed(nodes) && Extends(job.start, nodes)
      ensures |ids| == |inputs| && forall k :: 0 <= k < |ids| ==> IsGradient(job, nodes, ids[k], inputs[k])
    {
      hide *;
      SweptGraph(job, nodes, marks, 0);
      ids := [];
      for k := 0 to |inputs|
        invariant SweptTo(job, nodes, marks, 0) && |ids| == k
        invariant forall l :: 0 <= l < k ==> IsGradient(job, nodes, ids[l], inputs[l])
      {
        ghost var before := nodes;
        SweptGraph(job, nodes, marks, 0);
        ExtendsSelf(nodes);
        var input := inputs[k];
        match marks[input] {
          case Some(id) =>
            MarkedGradient(job, nodes, marks, input);
            ids := ids + [id];
          case None =>
            FillTyped(nodes, 0.0, g[input].dims);
            var id := Emit(FillOf(0.0, g[input].dims));
            DenotesGraphs(before, nodes, id, FillOf(0.0, g[input].dims));
            ZeroGradient(job, before, nodes, marks, input, id);
            SweptLater(job, before, nodes, marks, 0);
            ids := ids + [id];
        }
        forall l | 0 <= l < k ensures IsGradient(job, nodes, ids[l], inputs[l]) {
          GradientLater(job, before, nodes, ids[l], inputs[l]);
        }
      }
      SweptGraph(job, nodes, marks, 0);
    }
  }

  lemma DenotesGraphs(g: seq<Node>, h: seq<Node>, id: nat, x: Expr)
    requires Denotes(g, h, id, x)
    ensures WellFormed(g) && WellFormed(h) && Extends(g, h)
  {
  }

  lemma ShapesKept(g: seq<Node>, h: seq<Node>)
    requires Extends(g, h)
    ensures |g| <= |h| && NodeShapes(h)[..|g|] == NodeShapes(g)
  {
    forall i | 0 <= i < |g| ensures NodeShapes(h)[i] == NodeShapes(g)[i] {
      assert h[i] == h[..|g|][i];
    }
  }

  lemma ExtendsSelf(g: seq<Node>)
    ensures Extends(g, g)
  {
  }

  lemma ExtendsTrans(g: seq<Node>, h: seq<Node>, k: seq<Node>)
    requires Extends(g, h) && Extends(h, k)
    ensures Extends(g, k)
  {
    assert g == h[..|g|] == k[..|h|][..|g|] == k[..|g|];
  }

  // ----- the state of a sweep -----

  /** A sweep over graph g from node out, seeded with node seed of the graph at the start of the sweep. */
  datatype Job = Job(g: seq<Node>, out: nat, start: seq<Node>, seed: nat)

  predicate JobOk(j: Job)
  {
    && WellFormed(j.g) && WellFormed(j.start) && Extends(j.g, j.start)
    && j.out < |j.g| && j.seed < |j.start| && j.start[j.seed].dims == j.g[j.out].dims
  }

  function SeedOf(j: Job, e: RawEnv): (t: Tensor)
    requires JobOk(j)
    ensures t.shape == j.g[j.out].dims
  {
    ValueOf(j.start, j.seed, e)
  }

  /** The cotangents of the reverse sweep in one environment. */
  function SweepOf(j: Job, i: nat, e: RawEnv): (gs: Cotangents)
    requires JobOk(j) && i <= |j.g|
    ensures CotangentsFit(j.g, gs)
  {
    Sweep(j.g, j.out, SeedOf(j, e), i, e)
  }

  /** The recorded nodes hold the cotangents. */
  ghost predicate Tracks(g: seq<Node>, h: seq<Node>, marks: seq<Option<nat>>, gs: Cotangents, e: RawEnv)
    requires WellFormed(h)
  {
    |marks| == |gs| == |g| && forall j :: 0 <= j < |g| ==> TracksAt(g, h, marks[j], gs[j], j, e)
  }

  ghost predicate TracksAt(g: seq<Node>, h: seq<Node>, mark: Option<nat>, cotangent: Option<Tensor>, j: nat, e: RawEnv)
    requires WellFormed(h) && j < |g|
  {
    && (mark.Some? <==> cotangent.Some?)
    && (mark.Some? ==> mark.value < |h| && h[mark.value].dims == g[j].dims && ValueOf(h, mark.value, e) == cotangent.value)
  }

  /** In every environment the recorded nodes hold the cotangents left after nodes |g| - 1, ..., i. */
  ghost predicate SweptTo(j: Job, h: seq<Node>, marks: seq<Option<nat>>, i: nat)
  {
    && JobOk(j) && WellFormed(h) && Extends(j.start, h) && i <= |j.g| && |marks| == |j.g|
    && forall e: RawEnv :: Tracks(j.g, h, marks, SweepOf(j, i, e), e)
  }

  lemma TracksLater(g: seq<Node>, h: seq<Node>, k: seq<Node>, marks: seq<Option<nat>>, gs: Cotangents, e: RawEnv)
    requires WellFormed(h) && WellFormed(k) && Extends(h, k) && Tracks(g, h, marks, gs, e)
    ensures Tracks(g, k, marks, gs, e)
  {
    hide Size, WellFormed, ValueOf;
    ValuePrefix(h, k, e);
    assert forall id :: 0 <= id < |h| ==> k[id] == k[..|h|][id];
    forall j | 0 <= j < |g| ensures TracksAt(g, k, marks[j], gs[j], j, e) {
      assert TracksAt(g, h, marks[j], gs[j], j, e);
    }
  }

  lemma NothingToPropagate(job: Job, h: seq<Node>, marks: seq<Option<nat>>, i: nat)
    requires SweptTo(job, h, marks, i + 1) && i < |job.g| && marks[i].None?
    ensures SweptTo(job, h, marks, i)
  {
    hide Size, WellFormed, Values, ValueOf, NodeRule, SeedOf;
    forall e: RawEnv ensures Tracks(job.g, h, marks, SweepOf(job, i, e), e) {
      assert Tracks(job.g, h, marks, SweepOf(job, i + 1, e), e);
      assert TracksAt(job.g, h, marks[i], SweepOf(job, i + 1, e)[i], i, e);
    }
  }

  /** The operands of a node, as references. */
  function OperandRefs(g: seq<Node>, node: Node): (xs: seq<Expr>)
    requires OperandsBefore(node, |g|)
    ensures |xs| == |node.operands| && DimsOf(xs) == OperandShapes(g, node)
  {
    var xs := seq(|node.operands|, (k: nat) requires k < |node.operands| => Ref(node.operands[k], g[node.operands[k]].dims));
    assert DimsOf(xs) == OperandShapes(g, node);
    xs
  }

  lemma SweptShapes(job: Job, h: seq<Node>, marks: seq<Option<nat>>, i: nat)
    requires SweptTo(job, h, marks, i + 1) && i < |job.g|
    ensures WellFormed(h) && Extends(job.g, h) && OperandsBefore(job.g[i], |job.g|)
    ensures NodeOk(job.g[i].op, DimsOf(OperandRefs(job.g, job.g[i])), job.g[i].dims)
    ensures marks[i].Some? ==> marks[i].value < |h| && h[marks[i].value].dims == job.g[i].dims
  {
    hide Size, Values, ValueOf, NodeOk, SweepOf, SeedOf;
    var e: RawEnv :| true;
    assert Tracks(job.g, h, marks, SweepOf(job, i + 1, e), e);
    assert TracksAt(job.g, h, marks[i], SweepOf(job, i + 1, e)[i], i, e);
    assert NodeTyped(job.g, job.g[i], i);
    ExtendsTrans(job.g, job.start, h);
  }

  /** The entries recorded for node i. */
  function EntriesFor(g: seq<Node>, i: nat, mark: nat): seq<Entry>
    requires i < |g| && OperandsBefore(g[i], |g|) && NodeOk(g[i].op, DimsOf(OperandRefs(g, g[i])), g[i].dims)
  {
    Recipe(g[i].op, OperandTypes(g, g[i]), OperandRefs(g, g[i]), Ref(i, g[i].dims), Ref(mark, g[i].dims))
  }

  lemma RefYields(w: World, id: nat, dims: Shape)
    requires id < |w.vs| && w.vs[id].shape == dims
    ensures Yields(w, Ref(id, dims), w.vs[id])
  {
  }

  /** The recipe of node i computes its rule, over the current graph. */
  lemma RecipeRuns(g: seq<Node>, h: seq<Node>, i: nat, mark: nat, e: RawEnv)
    requires WellFormed(g) && WellFormed(h) && Extends(g, h) && i < |g| && mark < |h| && h[mark].dims == g[i].dims
    ensures OperandsBefore(g[i], |g|) && NodeOk(g[i].op, DimsOf(OperandRefs(g, g[i])), g[i].dims)
    ensures NodeTyped(g, g[i], i)
    ensures Computes(World(Values(h, |h|, e), e), EntriesFor(g, i, mark), NodeRule(g, i, Values(g, |g|, e), ValueOf(h, mark, e), e))
  {
    hide Size, WellFormed, Values, NodeOk, Recipe, Rule, Computes, ExprOk, Eval, Yields;
    var node, w := g[i], World(Values(h, |h|, e), e);
    NodeIsTyped(g, i);
    var vs := Values(g, |g|, e);
    ValuePrefix(g, h, e);
    assert forall id :: 0 <= id < |g| ==> w.vs[id] == w.vs[..|g|][id];
    var args, ts := OperandRefs(g, node), Pick(vs, node.operands);
    forall k | 0 <= k < |args| ensures Yields(w, args[k], ts[k]) {
      RefYields(w, node.operands[k], g[node.operands[k]].dims);
    }
    RefYields(w, i, node.dims);
    RefYields(w, mark, node.dims);
    PickShapes(g, |g|, node, vs);
    RecipeComputes(w, node.op, OperandTypes(g, node), args, ts, Ref(i, node.dims), vs[i], Ref(mark, node.dims), w.vs[mark]);
  }

  lemma NodeIsTyped(g: seq<Node>, i: nat)
    requires WellFormed(g) && i < |g|
    ensures NodeTyped(g, g[i], i) && OperandsBefore(g[i], |g|) && NodeOk(g[i].op, DimsOf(OperandRefs(g, g[i])), g[i].dims)
  {
    hide NodeOk;
    assert NodeTyped(g, g[i], i);
  }

  lemma RecipeReady(job: Job, h: seq<Node>, marks: seq<Option<nat>>, i: nat)
    requires SweptTo(job, h, marks, i + 1) && i < |job.g| && marks[i].Some?
    ensures OperandsBefore(job.g[i], |job.g|) && NodeOk(job.g[i].op, DimsOf(OperandRefs(job.g, job.g[i])), job.g[i].dims)
    ensures var es := EntriesFor(job.g, i, marks[i].value);
      forall k :: 0 <= k < |es| ==> ExprOk(es[k].gradient, NodeShapes(h))
  {
    hide Size, WellFormed, Values, NodeOk, EntriesFor, SweptTo, NodeRule, ExprOk, Eval;
    SweptShapes(job, h, marks, i);
    var e: RawEnv :| true;
    SweptGraph(job, h, marks, i + 1);
    RecipeRuns(job.g, h, i, marks[i].value, e);
    ValuesShapes(h, e);
  }

  lemma SweptGraph(job: Job, h: seq<Node>, marks: seq<Option<nat>>, i: nat)
    requires SweptTo(job, h, marks, i)
    ensures JobOk(job) && WellFormed(h) && Extends(job.start, h) && |marks| == |job.g|
  {
  }

  // ----- adding contributions -----

  /** Contributions before position k have been added; the rest are recorded and wait. */
  ghost predicate Adding(job: Job, h: seq<Node>, marks: seq<Option<nat>>, i: nat, es: seq<Entry>, ids: seq<nat>, k: nat, e: RawEnv)
  {
    && JobOk(job) && WellFormed(h) && Extends(job.start, h) && i < |job.g| && NodeTyped(job.g, job.g[i], i)
    && SweepOf(job, i + 1, e)[i].Some?
    && AddingTo(job, h, marks, i, es, ids, k, e, NodeRule(job.g, i, Values(job.g, |job.g|, e), SweepOf(job, i + 1, e)[i].value, e))
  }

  ghost predicate AllAdding(job: Job, h: seq<Node>, marks: seq<Option<nat>>, i: nat, es: seq<Entry>, ids: seq<nat>, k: nat)
  {
    forall e: RawEnv :: Adding(job, h, marks, i, es, ids, k, e)
  }

  ghost predicate AddingTo(job: Job, h: seq<Node>, marks: seq<Option<nat>>, i: nat, es: seq<Entry>, ids: seq<nat>, k: nat, e: RawEnv,
                           cs: seq<Contribution>)
    requires JobOk(job) && WellFormed(h) && i < |job.g| && NodeTyped(job.g, job.g[i], i) && Fitting(cs, OperandShapes(job.g, job.g[i]))
  {
    && |es| == |ids| == |cs| && k <= |cs|
    && (forall l :: 0 <= l < |cs| ==> es[l].operand == cs[l].operand && Holds(h, ids[l], cs[l].gradient, e))
    && Tracks(job.g, h, marks, Accumulate(job.g, SweepOf(job, i + 1, e), job.g[i], cs[..k]), e)
  }

  ghost predicate Holds(h: seq<Node>, id: nat, t: Tensor, e: RawEnv)
    requires WellFormed(h)
  {
    id < |h| && h[id].dims == t.shape && ValueOf(h, id, e) == t
  }

  lemma AllStart(job: Job, h: seq<Node>, k: seq<Node>, marks: seq<Option<nat>>, i: nat, es: seq<Entry>, ids: seq<nat>)
    requires SweptTo(job, h, marks, i + 1) && i < |job.g| && marks[i].Some? && WellFormed(k) && Extends(h, k) && |ids| == |es|
    requires OperandsBefore(job.g[i], |job.g|) && NodeOk(job.g[i].op, DimsOf(OperandRefs(job.g, job.g[i])), job.g[i].dims)
    requires es == EntriesFor(job.g, i, marks[i].value)
    requires forall l :: 0 <= l < |es| ==> Denotes(h, k, ids[l], es[l].gradient)
    ensures AllAdding(job, k, marks, i, es, ids, 0)
  {
    hide Size, WellFormed, Values, NodeOk, EntriesFor, SweptTo, Adding, Denotes;
    SweptGraph(job, h, marks, i + 1);
    ExtendsTrans(job.start, h, k);
    forall e: RawEnv ensures Adding(job, k, marks, i, es, ids, 0, e) {
      AddingStarts(job, h, k, marks, i, es, ids, e);
    }
  }

  lemma SweptHere(job: Job, h: seq<Node>, marks: seq<Option<nat>>, i: nat, e: RawEnv)
    requires SweptTo(job, h, marks, i)
    ensures JobOk(job) && WellFormed(h) && i <= |job.g| && Tracks(job.g, h, marks, SweepOf(job, i, e), e)
  {
  }

  lemma AddingStarts(job: Job, h: seq<Node>, k: seq<Node>, marks: seq<Option<nat>>, i: nat, es: seq<Entry>, ids: seq<nat>, e: RawEnv)
    requires SweptTo(job, h, marks, i + 1) && i < |job.g| && marks[i].Some? && WellFormed(k) && Extends(h, k) && Extends(job.start, k)
    requires OperandsBefore(job.g[i], |job.g|) && NodeOk(job.g[i].op, DimsOf(OperandRefs(job.g, job.g[i])), job.g[i].dims)
    requires es == EntriesFor(job.g, i, marks[i].value) && |ids| == |es|
    requires forall l :: 0 <= l < |es| ==> Denotes(h, k, ids[l], es[l].gradient)
    ensures Adding(job, k, marks, i, es, ids, 0, e)
  {
    hide Size, WellFormed, Values, NodeOk, EntriesFor, SweptTo, ValueOf, NodeRule, Eval, ExprOk, SweepOf;
    SweptHere(job, h, marks, i + 1, e);
    SweptShapes(job, h, marks, i);
    var gs := SweepOf(job, i + 1, e);
    assert TracksAt(job.g, h, marks[i], gs[i], i, e);
    NodeIsTyped(job.g, i);
    RecipeRuns(job.g, h, i, marks[i].value, e);
    var cs := NodeRule(job.g, i, Values(job.g, |job.g|, e), gs[i].value, e);
    forall l | 0 <= l < |cs| ensures es[l].operand == cs[l].operand && Holds(k, ids[l], cs[l].gradient, e) {
      assert Computed(h, k, ids[l], es[l].gradient, e);
    }
    TracksLater(job.g, h, k, marks, gs, e);
    assert cs[..0] == [];
  }

  lemma AddingTarget(job: Job, h: seq<Node>, marks: seq<Option<nat>>, i: nat, es: seq<Entry>, ids: seq<nat>, k: nat)
    requires k < |es| && AllAdding(job, h, marks, i, es, ids, k)
    ensures i < |job.g| && |ids| == |es| && |marks| == |job.g| && WellFormed(h) && es[k].operand < |job.g[i].operands|
    ensures var id := job.g[i].operands[es[k].operand];
      && id < |job.g| && ids[k] < |h| && h[ids[k]].dims == job.g[id].dims
      && (marks[id].Some? ==> marks[id].value < |h| && h[marks[id].value].dims == job.g[id].dims)
      && (marks[id].Some? ==> ExprOk(BinaryOf(Add, Ref(marks[id].value, job.g[id].dims), Ref(ids[k], job.g[id].dims)), NodeShapes(h)))
  {
    hide Size, WellFormed, Values, NodeOk, ValueOf, NodeRule, SweepOf, Accumulate;
    var e: RawEnv :| true;
    assert Adding(job, h, marks, i, es, ids, k, e);
    var cs := NodeRule(job.g, i, Values(job.g, |job.g|, e), SweepOf(job, i + 1, e)[i].value, e);
    assert Lands(cs[k], OperandShapes(job.g, job.g[i]));
    var id := job.g[i].operands[es[k].operand];
    assert TracksAt(job.g, h, marks[id], Accumulate(job.g, SweepOf(job, i + 1, e), job.g[i], cs[..k])[id], id, e);
    if marks[id].Some? {
      SumTyped(h, marks[id].value, ids[k], job.g[id].dims);
    }
  }

  lemma SumTyped(h: seq<Node>, a: nat, b: nat, dims: Shape)
    requires a < |h| && b < |h| && h[a].dims == h[b].dims == dims
    ensures ExprOk(BinaryOf(Add, Ref(a, dims), Ref(b, dims)), NodeShapes(h))
  {
    assert DimsOf([Ref(a, dims), Ref(b, dims)]) == [dims, dims];
  }

  lemma SumComputed(h: seq<Node>, k: seq<Node>, a: nat, b: nat, dims: Shape, id: nat, e: RawEnv)
    requires Denotes(h, k, id, BinaryOf(Add, Ref(a, dims), Ref(b, dims)))
    requires a < |h| && b < |h| && h[a].dims == h[b].dims == dims
    ensures WellFormed(h) && WellFormed(k) && id < |k| && k[id].dims == dims
    ensures ValueOf(k, id, e) == B(Add, ValueOf(h, a, e), ValueOf(h, b, e))
  {
    hide Size, WellFormed, Values, Eval, ExprOk, B, NodeOk;
    var x := BinaryOf(Add, Ref(a, dims), Ref(b, dims));
    assert Computed(h, k, id, x, e);
    var w := World(Values(h, |h|, e), e);
    RefYields(w, a, dims);
    RefYields(w, b, dims);
    BinaryYields(w, Add, Ref(a, dims), Ref(b, dims), w.vs[a], w.vs[b]);
  }

  lemma AllStep(job: Job, h: seq<Node>, next: seq<Node>, marks: seq<Option<nat>>, after: seq<Option<nat>>, i: nat, es: seq<Entry>,
                ids: seq<nat>, k: nat, sum: nat)
    requires k < |es| && |ids| == |es| && AllAdding(job, h, marks, i, es, ids, k)
    requires WellFormed(h) && WellFormed(next) && Extends(h, next) && i < |job.g| && es[k].operand < |job.g[i].operands|
    requires job.g[i].operands[es[k].operand] < |job.g| == |marks|
    requires var id := job.g[i].operands[es[k].operand];
      after == marks[id := Some(sum)] &&
      if marks[id].None? then sum == ids[k]
      else Denotes(h, next, sum, BinaryOf(Add, Ref(marks[id].value, job.g[id].dims), Ref(ids[k], job.g[id].dims)))
    ensures AllAdding(job, next, after, i, es, ids, k + 1)
  {
    hide WellFormed, Adding, Denotes;
    var done := k + 1;
    forall e: RawEnv ensures Adding(job, next, after, i, es, ids, done, e) {
      assert Adding(job, h, marks, i, es, ids, k, e);
      AddingStep(job, h, next, marks, i, es, ids, k, sum, e);
    }
  }

  lemma AddingStep(job: Job, h: seq<Node>, next: seq<Node>, marks: seq<Option<nat>>, i: nat, es: seq<Entry>, ids: seq<nat>, k: nat, sum: nat,
                   e: RawEnv)
    requires k < |es| && |ids| == |es| && Adding(job, h, marks, i, es, ids, k, e)
    requires WellFormed(h) && WellFormed(next) && Extends(h, next) && i < |job.g| && es[k].operand < |job.g[i].operands|
    requires job.g[i].operands[es[k].operand] < |job.g| == |marks|
    requires var id := job.g[i].operands[es[k].operand];
      if marks[id].None? then sum == ids[k]
      else Denotes(h, next, sum, BinaryOf(Add, Ref(marks[id].value, job.g[id].dims), Ref(ids[k], job.g[id].dims)))
    ensures Adding(job, next, marks[job.g[i].operands[es[k].operand] := Some(sum)], i, es, ids, k + 1, e)
  {
    hide Size, WellFormed, Values, NodeOk, ValueOf, NodeRule, SweepOf, Denotes, B;
    var g, gs := job.g, SweepOf(job, i + 1, e);
    var cs := NodeRule(g, i, Values(g, |g|, e), gs[i].value, e);
    var id := g[i].operands[es[k].operand];
    var acc := Accumulate(g, gs, g[i], cs[..k]);
    ExtendsTrans(job.start, h, next);
    assert Lands(cs[k], OperandShapes(g, g[i]));
    assert Holds(h, ids[k], cs[k].gradient, e);
    HoldsLater(h, next, ids, cs, e);
    TracksLater(g, h, next, marks, acc, e);
    assert TracksAt(g, h, marks[id], acc[id], id, e);
    if marks[id].Some? {
      SumComputed(h, next, marks[id].value, ids[k], g[id].dims, sum, e);
    }
    AccumulateNext(g, gs, g[i], cs, k);
    TracksUpdate(g, next, marks, acc, id, sum, AddTo(acc[id], cs[k].gradient), e);
  }

  lemma TracksUpdate(g: seq<Node>, h: seq<Node>, marks: seq<Option<nat>>, gs: Cotangents, id: nat, mark: nat, t: Option<Tensor>, e: RawEnv)
    requires WellFormed(h) && Tracks(g, h, marks, gs, e) && id < |g| && TracksAt(g, h, Some(mark), t, id, e)
    ensures Tracks(g, h, marks[id := Some(mark)], gs[id := t], e)
  {
    hide WellFormed, TracksAt;
    var after, cotangents := marks[id := Some(mark)], gs[id := t];
    forall j | 0 <= j < |g| ensures TracksAt(g, h, after[j], cotangents[j], j, e) {
      assert TracksAt(g, h, marks[j], gs[j], j, e);
    }
  }

  lemma HoldsLater(h: seq<Node>, next: seq<Node>, ids: seq<nat>, cs: seq<Contribution>, e: RawEnv)
    requires WellFormed(h) && WellFormed(next) && Extends(h, next) && |ids| == |cs|
    requires forall l :: 0 <= l < |cs| ==> Holds(h, ids[l], cs[l].gradient, e)
    ensures forall l :: 0 <= l < |cs| ==> Holds(next, ids[l], cs[l].gradient, e)
  {
    hide Size, WellFormed, ValueOf;
    ValuePrefix(h, next, e);
    assert forall id :: 0 <= id < |h| ==> next[id] == next[..|h|][id];
    forall l | 0 <= l < |cs| ensures Holds(next, ids[l], cs[l].gradient, e) {
      assert Holds(h, ids[l], cs[l].gradient, e);
    }
  }

  lemma AccumulateNext(g: seq<Node>, gs: Cotangents, node: Node, cs: seq<Contribution>, k: nat)
    requires CotangentsFit(g, gs) && OperandsBefore(node, |g|) && Fitting(cs, OperandShapes(g, node)) && k < |cs|
    ensures var acc := Accumulate(g, gs, node, cs[..k]);
      && Lands(cs[k], OperandShapes(g, node))
      && Accumulate(g, gs, node, cs[..k + 1]) == acc[node.operands[cs[k].operand] := AddTo(acc[node.operands[cs[k].operand]], cs[k].gradient)]
  {
    hide Size, AddTo;
    assert cs[..k + 1][..k] == cs[..k] && cs[..k + 1][k] == cs[k];
    assert Lands(cs[k], OperandShapes(g, node));
  }

  lemma AllEnd(job: Job, h: seq<Node>, marks: seq<Option<nat>>, i: nat, es: seq<Entry>, ids: seq<nat>)
    requires AllAdding(job, h, marks, i, es, ids, |es|)
    ensures SweptTo(job, h, marks, i)
  {
    hide Size, WellFormed, Values, NodeOk, ValueOf, NodeRule, Accumulate, SeedOf;
    var fixed: RawEnv :| true;
    assert Adding(job, h, marks, i, es, ids, |es|, fixed);
    forall e: RawEnv ensures Tracks(job.g, h, marks, SweepOf(job, i, e), e) {
      assert Adding(job, h, marks, i, es, ids, |es|, e);
      var cs := NodeRule(job.g, i, Values(job.g, |job.g|, e), SweepOf(job, i + 1, e)[i].value, e);
      assert cs[..|es|] == cs;
    }
  }

  // ----- liveness -----

  lemma SelfUnmarked(g: seq<Node>, out: nat, i: nat)
    requires WellFormed(g) && i < |g|
    ensures Live(g, out, i)[i] == Live(g, out, i + 1)[i]
  {
    hide NodeOk;
    assert NodeTyped(g, g[i], i);
  }

  /** Mark backwards from the output; stop at the last live node whose operation is not supported. */
  method MarkLive(g: seq<Node>, out: nat) returns (unsupported: Option<nat>)
    requires WellFormed(g) && out < |g|
    ensures unsupported.None? <==> Differentiable(g, out)
    ensures unsupported.Some? ==> Blocks(g, out, unsupported.value)
  {
    hide NodeOk, Differentiated;
    var live := new bool[|g|](j => j == out);
    var i := |g|;
    assert live[..] == Live(g, out, |g|);
    while i > 0
      invariant 0 <= i <= |g| && live[..] == Live(g, out, i)
      invariant forall j :: i <= j < |g| && Live(g, out, j)[j] ==> Supported(g[j].op)
    {
      i := i - 1;
      SelfUnmarked(g, out, i);
      if live[i] {
        if !Supported(g[i].op) {
          return Some(i);
        }
        assert NodeTyped(g, g[i], i);
        MarkOperandsOf(g[i], live);
      }
    }
    return None;
  }

  method MarkOperandsOf(node: Node, live: array<bool>)
    requires OperandsBefore(node, live.Length)
    modifies live
    ensures live[..] == MarkOperands(old(live[..]), node)
  {
    hide Differentiated;
    ghost var was := live[..];
    for k := 0 to |node.operands|
      invariant forall j :: 0 <= j < live.Length ==> (live[j] <==> was[j] || MarkedBefore(node, j, k))
    {
      if Differentiated(node.op, |node.operands|, k) {
        live[node.operands[k]] := true;
      }
      forall j | 0 <= j < live.Length
        ensures MarkedBefore(node, j, k + 1) <==> MarkedBefore(node, j, k) || (node.operands[k] == j && Differentiated(node.op, |node.operands|, k))
      {
      }
    }
    assert live[..] == MarkOperands(was, node);
  }

  ghost predicate MarkedBefore(node: Node, j: nat, k: nat)
    requires k <= |node.operands|
  {
    exists l :: 0 <= l < k && node.operands[l] == j && Differentiated(node.op, |node.operands|, l)
  }

  // ----- requests -----

  datatype Refusal = NotScalar | ShapeMismatch | NotFloat32 | NotALeaf | Unsupported(node: nat)

  datatype Outcome = Gradients(ids: seq<nat>) | Refused(why: Refusal)

  /** Every handle belongs to the graph. */
  predicate HandlesOk(g: seq<Node>, out: nat, cotangent: Option<nat>, inputs: seq<nat>)
  {
    out < |g| && (cotangent.Some? ==> cotangent.value < |g|) && forall k :: 0 <= k < |inputs| ==> inputs[k] < |g|
  }

  /** A scalar loss or a cotangent of the output's shape; everything in F32; inputs are leaves. */
  predicate RequestOk(g: seq<Node>, out: nat, cotangent: Option<nat>, inputs: seq<nat>)
    requires HandlesOk(g, out, cotangent, inputs)
  {
    && g[out].dtype.F32?
    && (if cotangent.None? then g[out].dims == [] else g[cotangent.value].dims == g[out].dims && g[cotangent.value].dtype.F32?)
    && forall k :: 0 <= k < |inputs| ==> g[inputs[k]].dtype.F32? && g[inputs[k]].op.Leaf?
  }

  /** The first reason, in the order the checks are made. */
  function Invalid(g: seq<Node>, out: nat, cotangent: Option<nat>, inputs: seq<nat>): Option<Refusal>
    requires HandlesOk(g, out, cotangent, inputs)
  {
    if cotangent.None? && g[out].dims != [] then Some(NotScalar)
    else if cotangent.Some? && g[cotangent.value].dims != g[out].dims then Some(ShapeMismatch)
    else if !g[out].dtype.F32? || (cotangent.Some? && !g[cotangent.value].dtype.F32?)
      || exists k :: 0 <= k < |inputs| && !g[inputs[k]].dtype.F32? then Some(NotFloat32)
    else if exists k :: 0 <= k < |inputs| && !g[inputs[k]].op.Leaf? then Some(NotALeaf)
    else None
  }

  lemma InvalidIs(g: seq<Node>, out: nat, cotangent: Option<nat>, inputs: seq<nat>)
    requires HandlesOk(g, out, cotangent, inputs)
    ensures Invalid(g, out, cotangent, inputs).None? <==> RequestOk(g, out, cotangent, inputs)
    ensures Invalid(g, out, cotangent, inputs).Some? ==> !Invalid(g, out, cotangent, inputs).value.Unsupported?
  {
  }

  /** A live node of an unsupported operation, with none after it. */
  predicate Blocks(g: seq<Node>, out: nat, i: nat)
  {
    && i < |g| && Live(g, out, i)[i] && !Supported(g[i].op)
    && forall j :: i < j < |g| && Live(g, out, j)[j] ==> Supported(g[j].op)
  }

  lemma BlocksIs(g: seq<Node>, out: nat, i: nat)
    requires Blocks(g, out, i)
    ensures i < |g| && !Differentiable(g, out)
  {
  }

  lemma HandlesAre(g: seq<Node>, out: nat, cotangent: Option<nat>, inputs: seq<nat>)
    requires HandlesOk(g, out, cotangent, inputs)
    ensures out < |g| && (cotangent.Some? ==> cotangent.value < |g|) && forall k :: 0 <= k < |inputs| ==> inputs[k] < |g|
  {
  }

  /** The seed of the sweep in an environment. */
  function SeedValue(g: seq<Node>, out: nat, cotangent: Option<nat>, inputs: seq<nat>, e: RawEnv): (t: Tensor)
    requires WellFormed(g) && HandlesOk(g, out, cotangent, inputs) && RequestOk(g, out, cotangent, inputs)
    ensures t.shape == g[out].dims
  {
    match cotangent
    case Some(c) => ValueOf(g, c, e)
    case None => Fill([], 1.0)
  }

  /** The graph only grew, and in every environment node ids[k] of the new graph holds the gradient of input k. */
  ghost predicate ComputesGradients(g: seq<Node>, h: seq<Node>, out: nat, cotangent: Option<nat>, inputs: seq<nat>, ids: seq<nat>)
  {
    && WellFormed(g) && WellFormed(h) && Extends(g, h) && HandlesOk(g, out, cotangent, inputs) && RequestOk(g, out, cotangent, inputs)
    && |ids| == |inputs|
    && forall k: nat, e: RawEnv :: k < |ids| ==>
      ids[k] < |h| && ValueOf(h, ids[k], e) == Gradient(g, out, SeedValue(g, out, cotangent, inputs, e), inputs[k], e)
  }

  lemma ScalarTyped(g: seq<Node>, c: real)
    ensures ExprOk(ScalarOf(c), NodeShapes(g))
  {
    assert DimsOf([]) == [];
  }

  lemma FillTyped(g: seq<Node>, c: real, dims: Shape)
    requires WellFormed(g)
    ensures ExprOk(FillOf(c, dims), NodeShapes(g))
  {
    hide WellFormed, Values, FillOf, ExprOk;
    var e: RawEnv :| true;
    FillYields(World(Values(g, |g|, e), e), c, dims);
    ValuesShapes(g, e);
    YieldsTyped(World(Values(g, |g|, e), e), FillOf(c, dims), Fill(dims, c));
  }

  lemma YieldsTyped(w: World, x: Expr, t: Tensor)
    requires Yields(w, x, t)
    ensures ExprOk(x, ShapesOf(w.vs)) && Eval(x, w.vs, w.env) == t
  {
  }

  lemma SeedIs(g: seq<Node>, h: seq<Node>, out: nat, cotangent: Option<nat>, inputs: seq<nat>, seed: nat)
    requires WellFormed(g) && WellFormed(h) && Extends(g, h) && HandlesOk(g, out, cotangent, inputs) && RequestOk(g, out, cotangent, inputs)
    requires if cotangent.Some? then h == g && seed == cotangent.value else Denotes(g, h, seed, ScalarOf(1.0))
    ensures JobOk(Job(g, out, h, seed))
    ensures forall e: RawEnv {:trigger SeedOf(Job(g, out, h, seed), e)} ::
      SeedOf(Job(g, out, h, seed), e) == SeedValue(g, out, cotangent, inputs, e)
  {
    hide Size, WellFormed, ValueOf, Eval, ExprOk, Fill;
    if cotangent.None? {
      forall e: RawEnv ensures Computed(g, h, seed, ScalarOf(1.0), e) && ValueOf(h, seed, e) == Fill([], 1.0) {
        assert Computed(g, h, seed, ScalarOf(1.0), e);
        ScalarYields(World(Values(g, |g|, e), e), 1.0);
        YieldsTyped(World(Values(g, |g|, e), e), ScalarOf(1.0), Fill([], 1.0));
      }
      var fixed: RawEnv :| true;
      assert Computed(g, h, seed, ScalarOf(1.0), fixed);
    }
  }

  lemma SweepStarts(job: Job, marks: seq<Option<nat>>)
    requires JobOk(job) && |marks| == |job.g|
    requires forall j :: 0 <= j < |marks| ==> marks[j] == if j == job.out then Some(job.seed) else None
    ensures SweptTo(job, job.start, marks, |job.g|)
  {
    hide Size, WellFormed, ValueOf;
    forall e: RawEnv ensures Tracks(job.g, job.start, marks, SweepOf(job, |job.g|, e), e) {
      forall j | 0 <= j < |job.g| ensures TracksAt(job.g, job.start, marks[j], SweepOf(job, |job.g|, e)[j], j, e) {
      }
    }
  }

  // ----- the answers -----

  /** Node id holds the gradient of an input, in every environment. */
  ghost predicate IsGradient(job: Job, h: seq<Node>, id: nat, input: nat)
  {
    && JobOk(job) && WellFormed(h) && input < |job.g| && id < |h|
    && forall e: RawEnv :: ValueOf(h, id, e) == Gradient(job.g, job.out, SeedOf(job, e), input, e)
  }

  lemma MarkedGradient(job: Job, h: seq<Node>, marks: seq<Option<nat>>, input: nat)
    requires SweptTo(job, h, marks, 0) && input < |job.g| && marks[input].Some?
    ensures IsGradient(job, h, marks[input].value, input)
  {
    hide Size, WellFormed, ValueOf, Sweep, SeedOf;
    forall e: RawEnv ensures marks[input].value < |h| && ValueOf(h, marks[input].value, e) == Gradient(job.g, job.out, SeedOf(job, e), input, e) {
      assert Tracks(job.g, h, marks, SweepOf(job, 0, e), e);
      assert TracksAt(job.g, h, marks[input], SweepOf(job, 0, e)[input], input, e);
    }
    var fixed: RawEnv :| true;
    assert Tracks(job.g, h, marks, SweepOf(job, 0, fixed), fixed);
    assert TracksAt(job.g, h, marks[input], SweepOf(job, 0, fixed)[input], input, fixed);
  }

  lemma ZeroGradient(job: Job, h: seq<Node>, k: seq<Node>, marks: seq<Option<nat>>, input: nat, id: nat)
    requires SweptTo(job, h, marks, 0) && input < |job.g| && marks[input].None?
    requires Denotes(h, k, id, FillOf(0.0, job.g[input].dims))
    ensures IsGradient(job, k, id, input)
  {
    hide Size, WellFormed, ValueOf, Sweep, SeedOf, FillOf, Fill, Eval, ExprOk;
    var dims := job.g[input].dims;
    OperandKnown(h, k, id, FillOf(0.0, dims));
    forall e: RawEnv ensures ValueOf(k, id, e) == Gradient(job.g, job.out, SeedOf(job, e), input, e) {
      assert Tracks(job.g, h, marks, SweepOf(job, 0, e), e);
      assert TracksAt(job.g, h, marks[input], SweepOf(job, 0, e)[input], input, e);
      assert Computed(h, k, id, FillOf(0.0, dims), e);
      FillYields(World(Values(h, |h|, e), e), 0.0, dims);
      YieldsTyped(World(Values(h, |h|, e), e), FillOf(0.0, dims), Fill(dims, 0.0));
    }
  }

  lemma SweptLater(job: Job, h: seq<Node>, k: seq<Node>, marks: seq<Option<nat>>, i: nat)
    requires SweptTo(job, h, marks, i) && WellFormed(k) && Extends(h, k)
    ensures SweptTo(job, k, marks, i)
  {
    hide Size, WellFormed, SweepOf, Tracks, Extends;
    ExtendsTrans(job.start, h, k);
    forall e: RawEnv ensures Tracks(job.g, k, marks, SweepOf(job, i, e), e) {
      TracksLater(job.g, h, k, marks, SweepOf(job, i, e), e);
    }
  }

  lemma GradientLater(job: Job, h: seq<Node>, k: seq<Node>, id: nat, input: nat)
    requires IsGradient(job, h, id, input) && WellFormed(k) && Extends(h, k)
    ensures IsGradient(job, k, id, input)
  {
    hide Size, WellFormed, ValueOf, Gradient, SeedOf;
    forall e: RawEnv ensures ValueOf(k, id, e) == Gradient(job.g, job.out, SeedOf(job, e), input, e) {
      ValuePrefix(h, k, e);
    }
  }

  lemma AllCollected(job: Job, h: seq<Node>, cotangent: Option<nat>, inputs: seq<nat>, ids: seq<nat>)
    requires JobOk(job) && WellFormed(h) && Extends(job.start, h) && |ids| == |inputs|
    requires HandlesOk(job.g, job.out, cotangent, inputs) && RequestOk(job.g, job.out, cotangent, inputs)
    requires forall e: RawEnv {:trigger SeedOf(job, e)} :: SeedOf(job, e) == SeedValue(job.g, job.out, cotangent, inputs, e)
    requires forall k :: 0 <= k < |ids| ==> IsGradient(job, h, ids[k], inputs[k])
    ensures ComputesGradients(job.g, h, job.out, cotangent, inputs, ids)
  {
    hide Size, WellFormed, ValueOf, Gradient, SeedOf, SeedValue, RequestOk;
    ExtendsTrans(job.g, job.start, h);
    forall k: nat, e: RawEnv | k < |ids|
      ensures ids[k] < |h| && ValueOf(h, ids[k], e) == Gradient(job.g, job.out, SeedValue(job.g, job.out, cotangent, inputs, e), inputs[k], e)
    {
      assert IsGradient(job, h, ids[k], inputs[k]);
      assert SeedOf(job, e) == SeedValue(job.g, job.out, cotangent, inputs, e);
    }
  }

  /** Value of gradient node k paired with the direction of input k. */
  function GradientPair(g: seq<Node>, h: seq<Node>, inputs: seq<nat>, ids: seq<nat>, dirs: nat -> Tensor, e: RawEnv, k: nat): real
    requires WellFormed(h)
  {
    if k < |ids| && k < |inputs| && ids[k] < |h| && inputs[k] < |g| && h[ids[k]].dims == g[inputs[k]].dims
    then Inner(ValueOf(h, ids[k], e), Shaped(dirs(inputs[k]), g[inputs[k]].dims)) else 0.0
  }

  /** The nodes reverse_gradients appended compute the adjoint of the forward derivative, in every environment and for
      every direction of the requested leaves. */
  lemma RecordedGradientsAreAdjoint(g: seq<Node>, h: seq<Node>, out: nat, cotangent: Option<nat>, inputs: seq<nat>, ids: seq<nat>,
                                    dirs: nat -> Tensor, e: RawEnv)
    requires ComputesGradients(g, h, out, cotangent, inputs, ids) && Differentiable(g, out)
    requires Inputs(g, inputs) && OnlyMoves(g, inputs, dirs)
    ensures Inner(SeedValue(g, out, cotangent, inputs, e), Tangents(g, |g|, dirs, e)[out])
         == Sum(|inputs|, (k: nat) => GradientPair(g, h, inputs, ids, dirs, e, k))
  {
    hide Size, WellFormed, ValueOf, Gradient, SeedValue, Tangents, Inner, Differentiable, OnlyMoves;
    var seed := SeedValue(g, out, cotangent, inputs, e);
    GradientsAreAdjoint(g, out, seed, inputs, dirs, e);
    var a := (k: nat) => InputPair(g, out, seed, inputs, dirs, e, k);
    var b := (k: nat) => GradientPair(g, h, inputs, ids, dirs, e, k);
    forall k: nat | k < |inputs| ensures a(k) == b(k) {
      assert ids[k] < |h| && ValueOf(h, ids[k], e) == Gradient(g, out, seed, inputs[k], e);
    }
    SumCong(|inputs|, a, b);
  }
}
