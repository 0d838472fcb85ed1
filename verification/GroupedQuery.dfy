/** Grouped-query attention by reshaping, against attention with every key/value head repeated. */
module GroupedQuery {
  import opened Options
  import opened Products
  import opened Sums
  import opened Shapes
  import opened Tensors
  import opened TensorOps
  import opened Adjoints
  import opened Program
  import opened Rules
  import opened Attention
  import opened Sdpa

  // ----- regrouping query heads into rows -----

  lemma GroupSizes(pre: Shape, g: nat, m: nat, rows: nat, depth: nat)
    ensures Size(pre + [Scale(g, m), rows, depth]) == Size(pre + [g, Scale(m, rows), depth])
  {
    hide Size, Scale;
    SizeTwo(g, m);
    SizeTwo(m, rows);
    SizeMerge(pre, [g, m], [rows, depth]);
    SizeMerge(pre + [g], [m, rows], [depth]);
    assert pre + [g, m] + [rows, depth] == pre + [g] + [m, rows] + [depth];
    assert pre + [Scale(g, m)] + [rows, depth] == pre + [Scale(g, m), rows, depth];
    assert pre + [g] + [Scale(m, rows)] + [depth] == pre + [g, Scale(m, rows), depth];
  }

  lemma HeadsFlat(pre: Shape, g: nat, m: nat, rows: nat, depth: nat, p: Index, a: nat, u: nat, i: nat, d: nat)
    requires Valid(pre, p) && a < g && u < m && i < rows && d < depth
    ensures Valid(pre + [g, m, rows, depth], p + [a, u, i, d])
    ensures Valid(pre + [Scale(g, m), rows, depth], p + [Scale(a, m) + u, i, d])
    ensures Flat(pre + [Scale(g, m), rows, depth], p + [Scale(a, m) + u, i, d])
         == Flat(pre + [g, m, rows, depth], p + [a, u, i, d])
  {
    hide Size, Scale, Flat;
    SizeTwo(g, m);
    FlatTwo(g, m, a, u);
    FlatMerge(pre, [g, m], [rows, depth], p, [a, u], [i, d]);
    assert pre + [g, m] + [rows, depth] == pre + [g, m, rows, depth] && p + [a, u] + [i, d] == p + [a, u, i, d];
    assert pre + [Scale(g, m)] + [rows, depth] == pre + [Scale(g, m), rows, depth];
    assert p + [Scale(a, m) + u] + [i, d] == p + [Scale(a, m) + u, i, d];
  }

  lemma RowsFlat(pre: Shape, g: nat, m: nat, rows: nat, depth: nat, p: Index, a: nat, u: nat, i: nat, d: nat)
    requires Valid(pre, p) && a < g && u < m && i < rows && d < depth
    ensures Valid(pre + [g, m, rows, depth], p + [a, u, i, d])
    ensures Valid(pre + [g, Scale(m, rows), depth], p + [a, Scale(u, rows) + i, d])
    ensures Flat(pre + [g, Scale(m, rows), depth], p + [a, Scale(u, rows) + i, d])
         == Flat(pre + [g, m, rows, depth], p + [a, u, i, d])
  {
    hide Size, Scale, Flat;
    SizeTwo(m, rows);
    FlatTwo(m, rows, u, i);
    assert Valid(pre + [g], p + [a]);
    FlatMerge(pre + [g], [m, rows], [depth], p + [a], [u, i], [d]);
    assert pre + [g] + [m, rows] + [depth] == pre + [g, m, rows, depth] && p + [a] + [u, i] + [d] == p + [a, u, i, d];
    assert pre + [g] + [Scale(m, rows)] + [depth] == pre + [g, Scale(m, rows), depth];
    assert p + [a] + [Scale(u, rows) + i] + [d] == p + [a, Scale(u, rows) + i, d];
  }

  lemma GroupFlat(pre: Shape, g: nat, m: nat, rows: nat, depth: nat, p: Index, a: nat, u: nat, i: nat, d: nat)
    requires Valid(pre, p) && a < g && u < m && i < rows && d < depth
    ensures Valid(pre + [Scale(g, m), rows, depth], p + [Scale(a, m) + u, i, d])
    ensures Valid(pre + [g, Scale(m, rows), depth], p + [a, Scale(u, rows) + i, d])
    ensures Flat(pre + [Scale(g, m), rows, depth], p + [Scale(a, m) + u, i, d])
         == Flat(pre + [g, Scale(m, rows), depth], p + [a, Scale(u, rows) + i, d])
  {
    hide Size, Scale, Flat, Valid;
    HeadsFlat(pre, g, m, rows, depth, p, a, u, i, d);
    RowsFlat(pre, g, m, rows, depth, p, a, u, i, d);
  }

  /** Heads a*m, ..., a*m + m - 1 become the rows of group a. */
  function Group(t: Tensor, pre: Shape, g: nat, m: nat, rows: nat, depth: nat): (r: Tensor)
    requires t.shape == pre + [Scale(g, m), rows, depth]
    ensures r.shape == pre + [g, Scale(m, rows), depth]
  {
    GroupSizes(pre, g, m, rows, depth);
    TensorOps.Reshape(t, pre + [g, Scale(m, rows), depth])
  }

  function Ungroup(t: Tensor, pre: Shape, g: nat, m: nat, rows: nat, depth: nat): (r: Tensor)
    requires t.shape == pre + [g, Scale(m, rows), depth]
    ensures r.shape == pre + [Scale(g, m), rows, depth]
  {
    GroupSizes(pre, g, m, rows, depth);
    TensorOps.Reshape(t, pre + [Scale(g, m), rows, depth])
  }

  lemma GroupAt(t: Tensor, pre: Shape, g: nat, m: nat, rows: nat, depth: nat, p: Index, a: nat, u: nat, i: nat, d: nat)
    requires t.shape == pre + [Scale(g, m), rows, depth]
    requires Valid(pre, p) && a < g && u < m && i < rows && d < depth
    ensures At(Group(t, pre, g, m, rows, depth), p + [a, Scale(u, rows) + i, d]) == At(t, p + [Scale(a, m) + u, i, d])
  {
    hide Size, Scale, Flat, At;
    GroupSizes(pre, g, m, rows, depth);
    GroupFlat(pre, g, m, rows, depth, p, a, u, i, d);
    ReshapeAt(t, pre + [g, Scale(m, rows), depth], p + [a, Scale(u, rows) + i, d], p + [Scale(a, m) + u, i, d]);
  }

  lemma UngroupAt(t: Tensor, pre: Shape, g: nat, m: nat, rows: nat, depth: nat, p: Index, a: nat, u: nat, i: nat, d: nat)
    requires t.shape == pre + [g, Scale(m, rows), depth]
    requires Valid(pre, p) && a < g && u < m && i < rows && d < depth
    ensures At(Ungroup(t, pre, g, m, rows, depth), p + [Scale(a, m) + u, i, d]) == At(t, p + [a, Scale(u, rows) + i, d])
  {
    hide Size, Scale, Flat, At;
    GroupSizes(pre, g, m, rows, depth);
    GroupFlat(pre, g, m, rows, depth, p, a, u, i, d);
    ReshapeAt(t, pre + [Scale(g, m), rows, depth], p + [Scale(a, m) + u, i, d], p + [a, Scale(u, rows) + i, d]);
  }

  // ----- the operation -----

  /** Equal batch prefixes, positive head counts, key/value heads dividing query heads. */
  predicate HeadsOk(q: Shape, k: Shape, v: Shape)
  {
    && |q| == |k| == |v| >= 3
    && var h := |q| - 3;
    && q[..h] == k[..h] == v[..h]
    && q[h] > 0 && k[h] > 0 && v[h] == k[h] && q[h] % k[h] == 0
  }

  /** What the attention inside asks for as well: positive matching depth, at least one key, as many values as keys. */
  predicate GqaOk(q: Shape, k: Shape, v: Shape)
  {
    HeadsOk(q, k, v) && MatricesOk(q, k, v)
  }

  function ScoreShape(q: Shape, k: Shape): Shape
    requires |q| == |k| >= 3
  {
    q[..|q| - 1] + [k[|q| - 2]]
  }

  lemma HeadCount(heads: nat, groups: nat)
    requires groups > 0 && heads % groups == 0
    ensures heads == Scale(groups, heads / groups)
  {
    assert heads == (heads / groups) * groups + heads % groups;
  }

  /** Shapes of a grouped-query attention: batch prefix, groups, heads per group, rows, keys, depth, value width. */
  datatype Layout = Layout(pre: Shape, g: nat, m: nat, rows: nat, keys: nat, depth: nat, width: nat)
  {
    predicate Fits(q: Tensor, k: Tensor, v: Tensor, f: Tensor)
    {
      && m > 0
      && q.shape == pre + [Scale(g, m), rows, depth] && f.shape == pre + [Scale(g, m), rows, keys]
      && k.shape == pre + [g, keys, depth] && v.shape == pre + [g, keys, width]
    }

    function Scores(): Shape
    {
      pre + [Scale(g, m), rows, keys]
    }

    function Result(): Shape
    {
      pre + [Scale(g, m), rows, width]
    }
  }

  function LayoutOf(q: Shape, k: Shape, v: Shape): Layout
    requires HeadsOk(q, k, v)
  {
    var h := |q| - 3;
    Layout(q[..h], k[h], q[h] / k[h], q[h + 1], k[h + 1], q[h + 2], v[h + 2])
  }

  lemma LayoutFits(q: Tensor, k: Tensor, v: Tensor, f: Tensor)
    requires GqaOk(q.shape, k.shape, v.shape) && f.shape == ScoreShape(q.shape, k.shape)
    ensures LayoutOf(q.shape, k.shape, v.shape).Fits(q, k, v, f)
    ensures LayoutOf(q.shape, k.shape, v.shape).Result() == q.shape[..|q.shape| - 1] + [v.shape[|q.shape| - 1]]
  {
    hide Size, Scale;
    var h := |q.shape| - 3;
    HeadCount(q.shape[h], k.shape[h]);
    HeadsPerGroup(q.shape[h], k.shape[h]);
  }

  lemma HeadsPerGroup(heads: nat, groups: nat)
    requires groups > 0 && heads > 0 && heads % groups == 0
    ensures heads / groups > 0
  {
  }

  /** Attention with the query heads of a group as extra rows of that group. */
  function Grouped(l: Layout, e: RawEnv, q: Tensor, k: Tensor, v: Tensor, f: Tensor, scale: real): (r: Tensor)
    requires l.Fits(q, k, v, f)
    ensures r.shape == l.Result()
  {
    hide Size, Scale, MaskedAttention, Group, Ungroup;
    GroupedShapes(l.pre, l.g, Scale(l.m, l.rows), l.keys, l.depth, l.width);
    Ungroup(MaskedAttention(e, Group(q, l.pre, l.g, l.m, l.rows, l.depth), k, v, Group(f, l.pre, l.g, l.m, l.rows, l.keys), scale),
            l.pre, l.g, l.m, l.rows, l.width)
  }

  lemma GroupedShapes(pre: Shape, g: nat, r: nat, keys: nat, depth: nat, width: nat)
    ensures MaskedOk(pre + [g, r, depth], pre + [g, keys, depth], pre + [g, keys, width], pre + [g, r, keys])
    ensures var q, v := pre + [g, r, depth], pre + [g, keys, width];
      q[..|q| - 1] + [v[|q| - 1]] == pre + [g, r, width] && (pre + [g, keys, depth])[|q| - 2] == keys
  {
    assert (pre + [g, r, depth])[..|pre| + 1] == pre + [g] == (pre + [g, keys, depth])[..|pre| + 1] == (pre + [g, keys, width])[..|pre| + 1];
    assert (pre + [g, r, depth])[..|pre| + 2] == pre + [g, r];
  }

  /** A mask is broadcast to every head before its heads are grouped as well. */
  function GroupedMask(l: Layout, mask: Option<Tensor>): (r: Option<Tensor>)
    requires MaskFits(mask, l.Scores())
  {
    match mask
    case None => None
    case Some(_) => Some(Group(Factor(mask, l.Scores()), l.pre, l.g, l.m, l.rows, l.keys))
  }

  lemma LayoutQuery(q: Shape, k: Shape, v: Shape)
    requires HeadsOk(q, k, v)
    ensures var l := LayoutOf(q, k, v);
      q == l.pre + [Scale(l.g, l.m), l.rows, l.depth] && ScoreShape(q, k) == l.Scores()
  {
    hide Scale;
    HeadCount(q[|q| - 3], k[|q| - 3]);
  }

  /** Query heads become rows of their group, attention runs once per group, and the rows become heads again. */
  function GroupedQueryAttention(e: RawEnv, q: Tensor, k: Tensor, v: Tensor, mask: Option<Tensor>, scale: real): Option<Tensor>
  {
    hide Size, Scale, Group, Ungroup, ScaledDotProduct, MaskFits, Factor, GroupedMask;
    if HeadsOk(q.shape, k.shape, v.shape) && MaskFits(mask, ScoreShape(q.shape, k.shape)) then
      var l := LayoutOf(q.shape, k.shape, v.shape);
      LayoutQuery(q.shape, k.shape, v.shape);
      GroupedAccepted(e, q, k, v, mask, scale);
      match ScaledDotProduct(e, Group(q, l.pre, l.g, l.m, l.rows, l.depth), k, v, GroupedMask(l, mask), scale)
      case None => None
      case Some(r) => Some(Ungroup(r, l.pre, l.g, l.m, l.rows, l.width))
    else None
  }

  lemma GroupFill(l: Layout, c: real)
    ensures Group(Fill(l.Scores(), c), l.pre, l.g, l.m, l.rows, l.keys) == Fill(l.pre + [l.g, Scale(l.m, l.rows), l.keys], c)
  {
    hide Size, Scale, At, Flat;
    var x, y := Group(Fill(l.Scores(), c), l.pre, l.g, l.m, l.rows, l.keys), Fill(l.pre + [l.g, Scale(l.m, l.rows), l.keys], c);
    forall I: Index | Valid(y.shape, I) ensures At(x, I) == At(y, I) {
      var p := I[..|l.pre|];
      var a: nat, row: nat, j: nat := I[|l.pre|], I[|l.pre| + 1], I[|l.pre| + 2];
      Borrow(l.m, l.rows, row);
      assert I == p + [a, Scale(row / l.rows, l.rows) + row % l.rows, j];
      GroupAt(Fill(l.Scores(), c), l.pre, l.g, l.m, l.rows, l.keys, p, a, row / l.rows, row % l.rows, j);
      GroupFlat(l.pre, l.g, l.m, l.rows, l.keys, p, a, row / l.rows, row % l.rows, j);
    }
    Ext(x, y);
  }

  /** The grouped mask fits the grouped scores and lets through what the mask lets through. */
  lemma GroupedFactor(l: Layout, mask: Option<Tensor>)
    requires MaskFits(mask, l.Scores())
    ensures var full := l.pre + [l.g, Scale(l.m, l.rows), l.keys];
      && MaskFits(GroupedMask(l, mask), full)
      && Factor(GroupedMask(l, mask), full) == Group(Factor(mask, l.Scores()), l.pre, l.g, l.m, l.rows, l.keys)
  {
    hide Size, Scale, Group;
    match mask
    case None => GroupFill(l, 1.0);
    case Some(_) => BroadcastSame(Group(Factor(mask, l.Scores()), l.pre, l.g, l.m, l.rows, l.keys));
  }

  lemma GroupedAccepted(e: RawEnv, q: Tensor, k: Tensor, v: Tensor, mask: Option<Tensor>, scale: real)
    requires HeadsOk(q.shape, k.shape, v.shape) && MaskFits(mask, ScoreShape(q.shape, k.shape))
    ensures var l := LayoutOf(q.shape, k.shape, v.shape);
      && q.shape == l.pre + [Scale(l.g, l.m), l.rows, l.depth] && ScoreShape(q.shape, k.shape) == l.Scores()
      && var r := ScaledDotProduct(e, Group(q, l.pre, l.g, l.m, l.rows, l.depth), k, v, GroupedMask(l, mask), scale);
      && (r.Some? <==> GqaOk(q.shape, k.shape, v.shape))
      && (r.Some? ==>
        && r.value.shape == l.pre + [l.g, Scale(l.m, l.rows), l.width]
        && l.Fits(q, k, v, Factor(mask, l.Scores()))
        && Some(Ungroup(r.value, l.pre, l.g, l.m, l.rows, l.width)) == Some(Grouped(l, e, q, k, v, Factor(mask, l.Scores()), scale)))
  {
    hide Size, Scale, Group, Ungroup, ScaledDotProduct, MaskFits, Factor, GroupedMask, MaskedAttention;
    var l := LayoutOf(q.shape, k.shape, v.shape);
    LayoutQuery(q.shape, k.shape, v.shape);
    var gq, f := Group(q, l.pre, l.g, l.m, l.rows, l.depth), Factor(mask, l.Scores());
    GroupedFactor(l, mask);
    assert BatchOf(gq.shape) == l.pre + [l.g] == BatchOf(k.shape) == BatchOf(v.shape);
    assert BatchOf(gq.shape) + [gq.shape[|gq.shape| - 2], k.shape[|k.shape| - 2]] == l.pre + [l.g, Scale(l.m, l.rows), l.keys];
    SameBatchAttention(e, gq, k, v, GroupedMask(l, mask), scale);
    if GqaOk(q.shape, k.shape, v.shape) {
      LayoutFits(q, k, v, f);
      GroupedShapes(l.pre, l.g, Scale(l.m, l.rows), l.keys, l.depth, l.width);
    }
  }

  // ----- repeated heads -----

  /** Each key/value head repeated for the m query heads that share it. */
  function RepeatHeads(t: Tensor, m: nat): (r: Tensor)
    requires |t.shape| >= 3 && m > 0
    ensures |r.shape| == |t.shape| && r.shape == t.shape[|t.shape| - 3 := Scale(t.shape[|t.shape| - 3], m)]
  {
    var h := |t.shape| - 3;
    Build(t.shape[h := Scale(t.shape[h], m)], (I: Index) => if h < |I| then At(t, I[h := I[h] / m]) else 0.0)
  }

  lemma RepeatAt(t: Tensor, pre: Shape, g: nat, m: nat, rows: nat, depth: nat, p: Index, a: nat, u: nat, i: nat, d: nat)
    requires t.shape == pre + [g, rows, depth] && m > 0
    requires Valid(pre, p) && a < g && u < m && i < rows && d < depth
    ensures At(RepeatHeads(t, m), p + [Scale(a, m) + u, i, d]) == At(t, p + [a, i, d])
  {
    hide Size, Flat, At, Scale;
    var h, I := |pre|, p + [Scale(a, m) + u, i, d];
    Carry(g, m, a, u);
    assert t.shape[h := Scale(g, m)] == pre + [Scale(g, m), rows, depth];
    assert Valid(pre + [Scale(g, m), rows, depth], I);
    assert I[h := I[h] / m] == p + [a, i, d];
  }

  // ----- grouped attention is repeated-head attention -----

  lemma MaskRows(l: Layout, q: Tensor, k: Tensor, v: Tensor, f: Tensor, p: Index, a: nat, u: nat, i: nat, d: nat, j: nat)
    requires l.Fits(q, k, v, f) && Valid(l.pre, p) && a < l.g && u < l.m && i < l.rows && d < l.width && j < l.keys
    ensures var P, P' := p + [a, Scale(u, l.rows) + i], p + [Scale(a, l.m) + u, i];
      && At(Group(f, l.pre, l.g, l.m, l.rows, l.keys), P + [j]) == At(f, P' + [j])
      && At(v, Key(P, j, d)) == At(RepeatHeads(v, l.m), Key(P', j, d))
  {
    hide Size, Flat, At, Scale, Group, RepeatHeads;
    var P, P' := p + [a, Scale(u, l.rows) + i], p + [Scale(a, l.m) + u, i];
    GroupAt(f, l.pre, l.g, l.m, l.rows, l.keys, p, a, u, i, j);
    RepeatAt(v, l.pre, l.g, l.m, l.keys, l.width, p, a, u, j, d);
    assert P + [j] == p + [a, Scale(u, l.rows) + i, j] && P' + [j] == p + [Scale(a, l.m) + u, i, j];
    assert Key(P, j, d) == p + [a, j, d] && Key(P', j, d) == p + [Scale(a, l.m) + u, j, d];
  }

  lemma KeyRows(l: Layout, q: Tensor, k: Tensor, v: Tensor, f: Tensor, p: Index, a: nat, u: nat, i: nat, j: nat, t: nat)
    requires l.Fits(q, k, v, f) && Valid(l.pre, p) && a < l.g && u < l.m && i < l.rows && j < l.keys && t < l.depth
    ensures At(k, Key(p + [a, Scale(u, l.rows) + i], j, t)) == At(RepeatHeads(k, l.m), Key(p + [Scale(a, l.m) + u, i], j, t))
  {
    hide Size, Flat, At, Scale, Group, RepeatHeads;
    var P, P' := p + [a, Scale(u, l.rows) + i], p + [Scale(a, l.m) + u, i];
    RepeatAt(k, l.pre, l.g, l.m, l.keys, l.depth, p, a, u, j, t);
    assert Key(P, j, t) == p + [a, j, t] && Key(P', j, t) == p + [Scale(a, l.m) + u, j, t];
  }

  lemma RepeatedShapes(l: Layout, q: Tensor, k: Tensor, v: Tensor, f: Tensor)
    requires l.Fits(q, k, v, f)
    ensures RepeatHeads(k, l.m).shape == l.pre + [Scale(l.g, l.m), l.keys, l.depth]
    ensures RepeatHeads(v, l.m).shape == l.pre + [Scale(l.g, l.m), l.keys, l.width]
    ensures MaskedOk(q.shape, RepeatHeads(k, l.m).shape, RepeatHeads(v, l.m).shape, f.shape)
  {
  }

  /** Attention with every key/value head repeated for its query heads. */
  function Repeated(l: Layout, e: RawEnv, q: Tensor, k: Tensor, v: Tensor, f: Tensor, scale: real): (r: Tensor)
    requires l.Fits(q, k, v, f)
    ensures r.shape == l.Result()
  {
    hide Size, Scale, MaskedAttention, RepeatHeads;
    RepeatedShapes(l, q, k, v, f);
    var r := MaskedAttention(e, q, RepeatHeads(k, l.m), RepeatHeads(v, l.m), f, scale);
    assert q.shape[..|q.shape| - 1] + [l.width] == l.Result();
    r
  }

  lemma GroupedEntry(l: Layout, e: RawEnv, q: Tensor, k: Tensor, v: Tensor, f: Tensor, scale: real, p: Index, a: nat, u: nat, i: nat, d: nat)
    requires l.Fits(q, k, v, f) && Valid(l.pre, p) && a < l.g && u < l.m && i < l.rows && d < l.width
    ensures At(Grouped(l, e, q, k, v, f, scale), p + [Scale(a, l.m) + u, i, d])
         == At(Repeated(l, e, q, k, v, f, scale), p + [Scale(a, l.m) + u, i, d])
  {
    hide Size, Flat, At, Scale, Group, Ungroup, RepeatHeads, MaskedAttention, Attend, MaskedOk;
    var P, P' := p + [a, Scale(u, l.rows) + i], p + [Scale(a, l.m) + u, i];
    var gq, gf := Group(q, l.pre, l.g, l.m, l.rows, l.depth), Group(f, l.pre, l.g, l.m, l.rows, l.keys);
    GroupedShapes(l.pre, l.g, Scale(l.m, l.rows), l.keys, l.depth, l.width);
    RepeatedShapes(l, q, k, v, f);
    UngroupAt(MaskedAttention(e, gq, k, v, gf, scale), l.pre, l.g, l.m, l.rows, l.width, p, a, u, i, d);
    GroupFlat(l.pre, l.g, l.m, l.rows, l.width, p, a, u, i, d);
    assert P + [d] == p + [a, Scale(u, l.rows) + i, d] && P' + [d] == p + [Scale(a, l.m) + u, i, d];
    assert q.shape[..|q.shape| - 1] + [l.width] == l.Result();
    AttentionAt(e, gq, k, v, gf, scale, P, d);
    AttentionAt(e, q, RepeatHeads(k, l.m), RepeatHeads(v, l.m), f, scale, P', d);
    EntryTerms(l, e, q, k, v, f, scale, p, a, u, i, d);
  }

  lemma EntryTerms(l: Layout, e: RawEnv, q: Tensor, k: Tensor, v: Tensor, f: Tensor, scale: real, p: Index, a: nat, u: nat, i: nat, d: nat)
    requires l.Fits(q, k, v, f) && Valid(l.pre, p) && a < l.g && u < l.m && i < l.rows && d < l.width
    ensures Attend(e, Group(q, l.pre, l.g, l.m, l.rows, l.depth), k, v, Group(f, l.pre, l.g, l.m, l.rows, l.keys), scale,
                   p + [a, Scale(u, l.rows) + i], l.keys, d)
         == Attend(e, q, RepeatHeads(k, l.m), RepeatHeads(v, l.m), f, scale, p + [Scale(a, l.m) + u, i], l.keys, d)
  {
    hide Size, Flat, At, Scale, Group, RepeatHeads, Attend, Key, Valid;
    var P, P' := p + [a, Scale(u, l.rows) + i], p + [Scale(a, l.m) + u, i];
    var gq, gf := Group(q, l.pre, l.g, l.m, l.rows, l.depth), Group(f, l.pre, l.g, l.m, l.rows, l.keys);
    forall j: nat, t: nat | j < l.keys && t < l.depth
      ensures At(k, Key(P, j, t)) == At(RepeatHeads(k, l.m), Key(P', j, t))
    {
      KeyRows(l, q, k, v, f, p, a, u, i, j, t);
    }
    forall t: nat | t < l.depth ensures At(gq, P + [t]) == At(q, P' + [t]) {
      GroupAt(q, l.pre, l.g, l.m, l.rows, l.depth, p, a, u, i, t);
      assert P + [t] == p + [a, Scale(u, l.rows) + i, t] && P' + [t] == p + [Scale(a, l.m) + u, i, t];
    }
    forall j: nat | j < l.keys
      ensures At(gf, P + [j]) == At(f, P' + [j]) && At(v, Key(P, j, d)) == At(RepeatHeads(v, l.m), Key(P', j, d))
    {
      MaskRows(l, q, k, v, f, p, a, u, i, d, j);
    }
    AttendCong(e, gq, k, v, gf, P, q, RepeatHeads(k, l.m), RepeatHeads(v, l.m), f, P', scale, l.keys, d);
  }

  /** Grouping query heads into rows gives what repeating every key/value head gives, for every mask. */
  lemma GroupedIsRepeated(l: Layout, e: RawEnv, q: Tensor, k: Tensor, v: Tensor, f: Tensor, scale: real)
    requires l.Fits(q, k, v, f)
    ensures Grouped(l, e, q, k, v, f, scale) == Repeated(l, e, q, k, v, f, scale)
  {
    hide Size, At, Scale, Grouped, Repeated;
    var x, y := Grouped(l, e, q, k, v, f, scale), Repeated(l, e, q, k, v, f, scale);
    forall I: Index | Valid(x.shape, I) ensures At(x, I) == At(y, I) {
      var p := I[..|l.pre|];
      var head: nat, i: nat, d: nat := I[|l.pre|], I[|l.pre| + 1], I[|l.pre| + 2];
      Borrow(l.g, l.m, head);
      assert I == p + [Scale(head / l.m, l.m) + head % l.m, i, d];
      GroupedEntry(l, e, q, k, v, f, scale, p, head / l.m, head % l.m, i, d);
    }
    Ext(x, y);
  }

  /** The operation accepts exactly the checked shapes, and is then attention with each key/value head repeated
      consecutively for its query heads, under the mask broadcast before grouping. */
  lemma GroupedQueryMeaning(e: RawEnv, q: Tensor, k: Tensor, v: Tensor, mask: Option<Tensor>, scale: real)
    ensures var r := GroupedQueryAttention(e, q, k, v, mask, scale);
      && (r.Some? <==> GqaOk(q.shape, k.shape, v.shape) && MaskFits(mask, ScoreShape(q.shape, k.shape)))
      && (r.Some? ==>
        var m, f := q.shape[|q.shape| - 3] / k.shape[|q.shape| - 3], Factor(mask, ScoreShape(q.shape, k.shape));
        m > 0 && MaskedOk(q.shape, RepeatHeads(k, m).shape, RepeatHeads(v, m).shape, f.shape)
        && r.value == MaskedAttention(e, q, RepeatHeads(k, m), RepeatHeads(v, m), f, scale))
  {
    hide Size, Scale, RepeatHeads, MaskedAttention, Grouped, MaskedOk, MaskFits, ScaledDotProduct, Group, Ungroup, GroupedMask;
    if HeadsOk(q.shape, k.shape, v.shape) && MaskFits(mask, ScoreShape(q.shape, k.shape)) {
      GroupedAccepted(e, q, k, v, mask, scale);
    }
    if GqaOk(q.shape, k.shape, v.shape) && MaskFits(mask, ScoreShape(q.shape, k.shape)) {
      var l, f := LayoutOf(q.shape, k.shape, v.shape), Factor(mask, ScoreShape(q.shape, k.shape));
      LayoutFits(q, k, v, f);
      RepeatedShapes(l, q, k, v, f);
      GroupedIsRepeated(l, e, q, k, v, f, scale);
    }
  }
}
