/** Scaled dot-product attention with broadcast leading axes: what is accepted, and what each batch computes. */
module Sdpa {
  import opened Options
  import opened Products
  import opened Sums
  import opened Shapes
  import opened Tensors
  import opened TensorOps
  import opened Adjoints
  import opened Program
  import opened Rules
  import opened Attention

  // ----- common batch shape -----

  function BatchOf(s: Shape): Shape
    requires |s| >= 2
  {
    s[..|s| - 2]
  }

  /** Axis a of s, aligned with d at the trailing axes, is one or equal to its extent there. */
  predicate AxisFits(s: Shape, d: Shape, a: nat)
    requires a < |s| <= |d|
  {
    s[a] == 1 || s[a] == d[|d| - |s| + a]
  }

  predicate BroadcastsTo(s: Shape, d: Shape)
  {
    |s| <= |d| && forall a: nat :: a < |s| ==> AxisFits(s, d, a)
  }

  function Max(a: nat, b: nat): nat
  {
    if a >= b then a else b
  }

  /** The batch extents after the first n axes of one operand: an extent of one gives way, others must agree. */
  function Widened(dims: Shape, batch: Shape, n: nat): (r: Option<Shape>)
    requires |batch| <= |dims| && n <= |batch|
    ensures r.Some? ==> |r.value| == |dims|
  {
    if n == 0 then Some(dims) else
      match Widened(dims, batch, n - 1)
      case None => None
      case Some(d) =>
        var axis := |dims| - |batch| + n - 1;
        if d[axis] == 1 then Some(d[axis := batch[n - 1]])
        else if batch[n - 1] != 1 && batch[n - 1] != d[axis] then None
        else Some(d)
  }

  /** The batch extents after the first n operands. */
  function JointUpTo(batches: seq<Shape>, rank: nat, n: nat): (r: Option<Shape>)
    requires n <= |batches| && forall k :: 0 <= k < |batches| ==> |batches[k]| <= rank
    ensures r.Some? ==> |r.value| == rank
  {
    if n == 0 then Some(seq(rank, (a: nat) => 1)) else
      match JointUpTo(batches, rank, n - 1)
      case None => None
      case Some(d) => Widened(d, batches[n - 1], |batches[n - 1]|)
  }

  function Batches(q: Shape, k: Shape, v: Shape): (b: seq<Shape>)
    requires |q| >= 2 && |k| >= 2 && |v| >= 2
    ensures |b| == 3 && forall i :: 0 <= i < |b| ==> |b[i]| <= BatchRank(q, k, v)
  {
    [BatchOf(q), BatchOf(k), BatchOf(v)]
  }

  function BatchRank(q: Shape, k: Shape, v: Shape): nat
    requires |q| >= 2 && |k| >= 2 && |v| >= 2
  {
    Max(Max(|q| - 2, |k| - 2), |v| - 2)
  }

  function Joint(q: Shape, k: Shape, v: Shape): (r: Option<Shape>)
    requires |q| >= 2 && |k| >= 2 && |v| >= 2
    ensures r.Some? ==> |r.value| == BatchRank(q, k, v)
  {
    JointUpTo(Batches(q, k, v), BatchRank(q, k, v), 3)
  }

  /** The loops that find the batch extents. */
  method BatchDims(q: Shape, k: Shape, v: Shape) returns (r: Option<Shape>)
    requires |q| >= 2 && |k| >= 2 && |v| >= 2
    ensures r == Joint(q, k, v)
  {
    var operands, rank := Batches(q, k, v), BatchRank(q, k, v);
    var dims: Shape := seq(rank, (a: nat) => 1);
    for i := 0 to 3
      invariant |dims| == rank && JointUpTo(operands, rank, i) == Some(dims)
    {
      var batch := operands[i];
      var offset := rank - |batch|;
      ghost var start := dims;
      for axis := 0 to |batch|
        invariant |dims| == rank && Widened(start, batch, axis) == Some(dims)
        invariant JointUpTo(operands, rank, i) == Some(start)
      {
        if dims[offset + axis] == 1 {
          dims := dims[offset + axis := batch[axis]];
        } else if batch[axis] != 1 && batch[axis] != dims[offset + axis] {
          Refused(start, batch, axis + 1, |batch|);
          NoJoint(operands, rank, i + 1, 3);
          return None;
        }
      }
    }
    return Some(dims);
  }

  lemma {:induction false} Refused(dims: Shape, batch: Shape, n: nat, m: nat)
    requires |batch| <= |dims| && n <= m <= |batch| && Widened(dims, batch, n) == None
    ensures Widened(dims, batch, m) == None
  {
    if n < m {
      Refused(dims, batch, n, m - 1);
    }
  }

  lemma {:induction false} NoJoint(batches: seq<Shape>, rank: nat, n: nat, m: nat)
    requires n <= m <= |batches| && forall k :: 0 <= k < |batches| ==> |batches[k]| <= rank
    requires JointUpTo(batches, rank, n) == None
    ensures JointUpTo(batches, rank, m) == None
  {
    hide Widened;
    if n < m {
      NoJoint(batches, rank, n, m - 1);
    }
  }

  /** The first n axes of an operand fit the extents. */
  predicate FirstFit(batch: Shape, d: Shape, n: nat)
    requires n <= |batch| <= |d|
  {
    forall a: nat :: a < n ==> AxisFits(batch, d, a)
  }

  /** One axis: the others stay, an extent other than one stays, and the operand fits. */
  lemma WidenedStep(dims: Shape, batch: Shape, n: nat)
    requires |batch| <= |dims| && 0 < n <= |batch| && Widened(dims, batch, n).Some?
    ensures Widened(dims, batch, n - 1).Some?
    ensures var d, e, axis := Widened(dims, batch, n - 1).value, Widened(dims, batch, n).value, |dims| - |batch| + n - 1;
      && (forall i :: 0 <= i < |dims| && i != axis ==> e[i] == d[i])
      && (d[axis] == 1 || e[axis] == d[axis]) && AxisFits(batch, e, n - 1)
  {
  }

  /** Widening keeps what was there and takes in the operand. */
  lemma {:induction false} WidenedKeeps(dims: Shape, batch: Shape, n: nat)
    requires |batch| <= |dims| && n <= |batch| && Widened(dims, batch, n).Some?
    ensures var d := Widened(dims, batch, n).value;
      && (forall a: nat :: a < |dims| ==> AxisFits(dims, d, a)) && FirstFit(batch, d, n)
      && (forall i :: |dims| - |batch| + n <= i < |dims| ==> d[i] == dims[i])
  {
    if n > 0 {
      hide Widened;
      WidenedStep(dims, batch, n);
      WidenedKeeps(dims, batch, n - 1);
      var d, e := Widened(dims, batch, n - 1).value, Widened(dims, batch, n).value;
      forall a: nat | a < n ensures AxisFits(batch, e, a) {
        assert a < n - 1 ==> AxisFits(batch, d, a);
      }
      forall a: nat | a < |dims| ensures AxisFits(dims, e, a) {
        assert AxisFits(dims, d, a);
      }
    }
  }

  /** It stays below every shape that both broadcast to. */
  lemma {:induction false} WidenedBelow(dims: Shape, batch: Shape, n: nat, e: Shape)
    requires |batch| <= |dims| == |e| && n <= |batch| && BroadcastsTo(dims, e) && FirstFit(batch, e, n)
    ensures Widened(dims, batch, n).Some? && BroadcastsTo(Widened(dims, batch, n).value, e)
  {
    if n > 0 {
      WidenedBelow(dims, batch, n - 1, e);
      var d, axis := Widened(dims, batch, n - 1).value, |dims| - |batch| + n - 1;
      assert AxisFits(batch, e, n - 1) && AxisFits(d, e, axis);
      forall a: nat | a < |dims| ensures AxisFits(Widened(dims, batch, n).value, e, a) {
        assert AxisFits(d, e, a);
      }
    }
  }

  lemma BroadcastTrans(s: Shape, d: Shape, e: Shape)
    requires BroadcastsTo(s, d) && BroadcastsTo(d, e) && |d| == |e|
    ensures BroadcastsTo(s, e)
  {
    forall a: nat | a < |s| ensures AxisFits(s, e, a) {
      assert AxisFits(s, d, a) && AxisFits(d, e, |d| - |s| + a);
    }
  }

  /** The extents found are the least shape all operands broadcast to; there are none exactly when no shape of the rank is
      common to all. */
  lemma {:induction false} JointIsLeast(batches: seq<Shape>, rank: nat, n: nat)
    requires n <= |batches| && forall k :: 0 <= k < |batches| ==> |batches[k]| <= rank
    ensures var r := JointUpTo(batches, rank, n);
      && (r.Some? ==> forall k :: 0 <= k < n ==> BroadcastsTo(batches[k], r.value))
      && forall e: Shape :: |e| == rank && (forall k :: 0 <= k < n ==> BroadcastsTo(batches[k], e)) ==> r.Some? && BroadcastsTo(r.value, e)
  {
    hide Widened, BroadcastsTo;
    if n == 0 {
      OnesBroadcast(rank);
    } else {
      JointIsLeast(batches, rank, n - 1);
      var before, batch := JointUpTo(batches, rank, n - 1), batches[n - 1];
      if before.Some? {
        WidenedFits(before.value, batch);
        if Widened(before.value, batch, |batch|).Some? {
          forall k | 0 <= k < n - 1 ensures BroadcastsTo(batches[k], Widened(before.value, batch, |batch|).value) {
            BroadcastTrans(batches[k], before.value, Widened(before.value, batch, |batch|).value);
          }
        }
      }
    }
  }

  lemma OnesBroadcast(rank: nat)
    ensures forall e: Shape :: |e| == rank ==> BroadcastsTo(seq(rank, (a: nat) => 1), e)
  {
  }

  lemma WidenedFits(dims: Shape, batch: Shape)
    requires |batch| <= |dims|
    ensures var r := Widened(dims, batch, |batch|);
      && (r.Some? ==> BroadcastsTo(dims, r.value) && BroadcastsTo(batch, r.value))
      && forall e: Shape :: |e| == |dims| && BroadcastsTo(dims, e) && BroadcastsTo(batch, e) ==> r.Some? && BroadcastsTo(r.value, e)
  {
    hide Widened;
    if Widened(dims, batch, |batch|).Some? {
      WidenedKeeps(dims, batch, |batch|);
    }
    forall e: Shape | |e| == |dims| && BroadcastsTo(dims, e) && BroadcastsTo(batch, e)
      ensures Widened(dims, batch, |batch|).Some? && BroadcastsTo(Widened(dims, batch, |batch|).value, e)
    {
      WidenedBelow(dims, batch, |batch|, e);
    }
  }

  /** Operands with one batch shape have it as their common one. */
  lemma SameBatch(q: Shape, k: Shape, v: Shape)
    requires |q| == |k| == |v| >= 2 && BatchOf(q) == BatchOf(k) == BatchOf(v)
    ensures Joint(q, k, v) == Some(BatchOf(q))
  {
    hide JointUpTo;
    var b, batches := BatchOf(q), Batches(q, k, v);
    assert BatchRank(q, k, v) == |b|;
    JointIsLeast(batches, |b|, 3);
    assert forall i :: 0 <= i < 3 ==> batches[i] == b;
    assert BroadcastsTo(b, b);
    var d := JointUpTo(batches, |b|, 3).value;
    assert BroadcastsTo(batches[0], d) && BroadcastsTo(d, b);
    forall a: nat | a < |b| ensures d[a] == b[a] {
      assert AxisFits(b, d, a) && AxisFits(d, b, a);
    }
    assert d == b;
  }

  // ----- operands and mask, broadcast -----

  /** A tensor of lower rank is aligned with the trailing axes. */
  function Trailing(inner: nat, outer: nat): seq<nat>
    requires inner <= outer
  {
    seq(inner, (a: nat) => a + outer - inner)
  }

  predicate MaskFits(mask: Option<Tensor>, full: Shape)
  {
    mask.Some? ==> |mask.value.shape| <= |full| && BroadcastOk(mask.value.shape, full, Trailing(|mask.value.shape|, |full|))
  }

  /** The mask broadcast to every head, query and key; no mask lets everything through. */
  function Factor(mask: Option<Tensor>, full: Shape): (r: Tensor)
    requires MaskFits(mask, full)
    ensures r.shape == full
  {
    match mask
    case None => Fill(full, 1.0)
    case Some(m) => TensorOps.Broadcast(m, full, Trailing(|m.shape|, |full|))
  }

  function Matrix(s: Shape): (r: Shape)
    requires |s| >= 2
    ensures |r| == 2
  {
    s[|s| - 2..]
  }

  function Expand(t: Tensor, d: Shape): (r: Tensor)
    requires |t.shape| >= 2 && |t.shape| <= |d| + 2
    ensures r.shape == d + Matrix(t.shape)
  {
    TensorOps.Broadcast(t, d + Matrix(t.shape), Trailing(|t.shape|, |d| + 2))
  }

  // ----- the operation -----

  /** Positive matching depth, at least one key, as many values as keys. */
  predicate MatricesOk(q: Shape, k: Shape, v: Shape)
  {
    && |q| >= 2 && |k| >= 2 && |v| >= 2
    && q[|q| - 1] > 0 && k[|k| - 1] == q[|q| - 1]
    && k[|k| - 2] != 0 && k[|k| - 2] == v[|v| - 2]
  }

  predicate SdpaOk(q: Shape, k: Shape, v: Shape, mask: Option<Tensor>)
  {
    && MatricesOk(q, k, v)
    && Joint(q, k, v).Some?
    && MaskFits(mask, Joint(q, k, v).value + [q[|q| - 2], k[|k| - 2]])
  }

  lemma ExpandedOk(q: Shape, k: Shape, v: Shape, d: Shape)
    requires MatricesOk(q, k, v)
    ensures var Q, K, V := d + Matrix(q), d + Matrix(k), d + Matrix(v);
      && |Q| == |K| == |V| == |d| + 2
      && MaskedOk(Q, K, V, d + [q[|q| - 2], k[|k| - 2]])
      && Q[..|Q| - 1] + [V[|Q| - 1]] == d + [q[|q| - 2], v[|v| - 1]] && K[|Q| - 2] == k[|k| - 2]
  {
    assert (d + Matrix(q))[..|d|] == (d + Matrix(k))[..|d|] == (d + Matrix(v))[..|d|] == d;
    assert (d + Matrix(q))[..|d| + 1] == d + [q[|q| - 2]];
  }

  /** Operands that broadcast to batch d, with a factor of the full score shape. */
  predicate Fits(q: Shape, k: Shape, v: Shape, f: Shape, d: Shape)
  {
    && MatricesOk(q, k, v)
    && |q| <= |d| + 2 && |k| <= |d| + 2 && |v| <= |d| + 2
    && f == d + [q[|q| - 2], k[|k| - 2]]
  }

  lemma ExpandedShapes(q: Shape, k: Shape, v: Shape, f: Shape, d: Shape)
    requires Fits(q, k, v, f, d)
    ensures var Q, K, V := d + Matrix(q), d + Matrix(k), d + Matrix(v);
      MaskedOk(Q, K, V, f) && Q[..|Q| - 1] + [V[|Q| - 1]] == d + [q[|q| - 2], v[|v| - 1]] && K[|Q| - 2] == k[|k| - 2]
  {
    hide MaskedOk, Matrix;
    ExpandedOk(q, k, v, d);
  }

  lemma SlicedShapes(q: Shape, k: Shape, v: Shape, f: Shape, d: Shape)
    requires Fits(q, k, v, f, d)
    ensures var Q, K, V := Matrix(q), Matrix(k), Matrix(v);
      MaskedOk(Q, K, V, Matrix(f)) && Q[..|Q| - 1] + [V[|Q| - 1]] == [q[|q| - 2], v[|v| - 1]] && K[|Q| - 2] == k[|k| - 2]
  {
    hide MaskedOk;
    ExpandedOk(q, k, v, []);
    assert [] + Matrix(q) == Matrix(q) && [] + Matrix(k) == Matrix(k) && [] + Matrix(v) == Matrix(v);
    assert Matrix(f) == [q[|q| - 2], k[|k| - 2]] == [] + [q[|q| - 2], k[|k| - 2]];
    assert [] + [q[|q| - 2], v[|v| - 1]] == [q[|q| - 2], v[|v| - 1]];
  }

  /** Attention of the operands broadcast to batch d. */
  function Expanded(e: RawEnv, q: Tensor, k: Tensor, v: Tensor, f: Tensor, d: Shape, scale: real): (r: Tensor)
    requires Fits(q.shape, k.shape, v.shape, f.shape, d)
    ensures |r.shape| == |d| + 2
  {
    hide MaskedOk, MaskedAttention, Expand, Size;
    ExpandedShapes(q.shape, k.shape, v.shape, f.shape, d);
    MaskedAttention(e, Expand(q, d), Expand(k, d), Expand(v, d), f, scale)
  }

  function ScaledDotProduct(e: RawEnv, q: Tensor, k: Tensor, v: Tensor, mask: Option<Tensor>, scale: real): Option<Tensor>
  {
    hide Joint, Expanded, MaskFits, Size;
    if SdpaOk(q.shape, k.shape, v.shape, mask) then
      var d := Joint(q.shape, k.shape, v.shape).value;
      Some(Expanded(e, q, k, v, Factor(mask, d + [q.shape[|q.shape| - 2], k.shape[|k.shape| - 2]]), d, scale))
    else None
  }

  // ----- what each batch computes -----

  /** The batch of an operand that position p of the common batch reads: 0 along extents of one. */
  function Aligned(b: Shape, p: Index): (r: Index)
    requires |b| <= |p|
    ensures |r| == |b|
  {
    seq(|b|, (a: nat) requires a < |b| => if b[a] == 1 then 0 else p[|p| - |b| + a])
  }

  /** One matrix of a batched operand. */
  function BatchSlice(t: Tensor, p: Index): (r: Tensor)
    requires |t.shape| >= 2 && |t.shape| - 2 <= |p|
    ensures r.shape == Matrix(t.shape)
  {
    Build(Matrix(t.shape), (I: Index) => At(t, Aligned(BatchOf(t.shape), p) + I))
  }

  /** Attention of the matrices that position p of the batch reads. */
  function Sliced(e: RawEnv, q: Tensor, k: Tensor, v: Tensor, f: Tensor, d: Shape, scale: real, p: Index): (r: Tensor)
    requires Fits(q.shape, k.shape, v.shape, f.shape, d) && |p| == |d|
  {
    hide MaskedOk, MaskedAttention, BatchSlice, Size;
    SlicedShapes(q.shape, k.shape, v.shape, f.shape, d);
    MaskedAttention(e, BatchSlice(q, p), BatchSlice(k, p), BatchSlice(v, p), BatchSlice(f, p), scale)
  }

  lemma ExpandAt(t: Tensor, d: Shape, p: Index, i: nat, j: nat)
    requires 2 <= |t.shape| <= |d| + 2 && Valid(d, p) && Valid(Matrix(t.shape), [i, j])
    ensures At(Expand(t, d), p + [i, j]) == At(BatchSlice(t, p), [i, j])
  {
    hide At, Size;
    var s, out, I := t.shape, d + Matrix(t.shape), p + [i, j];
    assert Matrix(s)[0] == s[|s| - 2] && Matrix(s)[1] == s[|s| - 1];
    assert [i, j][0] == i && [i, j][1] == j;
    assert Valid(out, I);
    var A, B := Trailing(|s|, |d| + 2), BroadcastIx(s, Trailing(|s|, |d| + 2), I);
    forall a | 0 <= a < |s| ensures B[a] == (Aligned(BatchOf(s), p) + [i, j])[a] {
      assert A[a] == a + |d| + 2 - |s|;
    }
    assert B == Aligned(BatchOf(s), p) + [i, j];
  }

  /** An operand that already has the common batch is read in place. */
  lemma SliceAt(t: Tensor, d: Shape, p: Index, i: nat, j: nat)
    requires |t.shape| == |d| + 2 && t.shape[..|d|] == d && Valid(d, p) && Valid(Matrix(t.shape), [i, j])
    ensures At(BatchSlice(t, p), [i, j]) == At(t, p + [i, j])
  {
    hide At, Size;
    forall a | 0 <= a < |d| ensures Aligned(d, p)[a] == p[a] {
      assert 0 <= p[a] < d[a];
    }
    assert Aligned(d, p) == p;
  }

  lemma CellValid(d: Shape, m: nat, n: nat, p: Index, i: nat, c: nat)
    requires Valid(d, p) && i < m && c < n
    ensures Valid(d + [m, n], p + [i] + [c]) && Valid([m, n], [i] + [c]) && |p| == |d|
    ensures p + [i] + [c] == p + [i, c] && [i] + [c] == [i, c] && (p + [i])[..|p|] == p
  {
    var out, I := d + [m, n], p + [i] + [c];
    assert |I| == |out|;
    forall a | 0 <= a < |I| ensures 0 <= I[a] < out[a] {
      if a < |p| {
        assert 0 <= p[a] < d[a];
      }
    }
  }

  lemma MatrixEntry(t: Tensor, d: Shape, p: Index, i: nat, j: nat)
    requires 2 <= |t.shape| <= |d| + 2 && Valid(d, p) && i < t.shape[|t.shape| - 2] && j < t.shape[|t.shape| - 1]
    ensures |p| == |d| && At(Expand(t, d), p + [i] + [j]) == At(BatchSlice(t, p), [i] + [j])
    ensures forall z: nat :: Key(p + [z], i, j) == p + [i] + [j] && Key([z], i, j) == [i] + [j]
  {
    hide At, Size, Expand, BatchSlice, Valid;
    CellValid(d, t.shape[|t.shape| - 2], t.shape[|t.shape| - 1], p, i, j);
    assert Matrix(t.shape) == [t.shape[|t.shape| - 2], t.shape[|t.shape| - 1]];
    ExpandAt(t, d, p, i, j);
    forall z: nat ensures Key(p + [z], i, j) == p + [i] + [j] && Key([z], i, j) == [i] + [j] {
      assert (p + [z])[..|p|] == p;
    }
  }

  lemma FactorEntry(f: Tensor, d: Shape, m: nat, n: nat, p: Index, i: nat, j: nat)
    requires f.shape == d + [m, n] && Valid(d, p) && i < m && j < n
    ensures |p| == |d| && At(f, p + [i] + [j]) == At(BatchSlice(f, p), [i] + [j])
  {
    hide At, Size, BatchSlice, Valid;
    CellValid(d, m, n, p, i, j);
    assert f.shape[..|d|] == d && Matrix(f.shape) == [m, n];
    SliceAt(f, d, p, i, j);
  }

  /** The entry of a row of the expanded operands. */
  function ExpandedEntry(e: RawEnv, q: Tensor, k: Tensor, v: Tensor, f: Tensor, d: Shape, scale: real, P: Index, c: nat): real
    requires Fits(q.shape, k.shape, v.shape, f.shape, d)
  {
    hide Attend, Size, Expand;
    Attend(e, Expand(q, d), Expand(k, d), Expand(v, d), f, scale, P, k.shape[|k.shape| - 2], c)
  }

  function SlicedEntry(e: RawEnv, q: Tensor, k: Tensor, v: Tensor, f: Tensor, d: Shape, scale: real, p: Index, i: nat, c: nat): real
    requires Fits(q.shape, k.shape, v.shape, f.shape, d) && |p| == |d|
  {
    hide Attend, Size, BatchSlice;
    Attend(e, BatchSlice(q, p), BatchSlice(k, p), BatchSlice(v, p), BatchSlice(f, p), scale, [i], k.shape[|k.shape| - 2], c)
  }

  lemma EntryTerms(e: RawEnv, q: Tensor, k: Tensor, v: Tensor, f: Tensor, d: Shape, scale: real, p: Index, i: nat, c: nat)
    requires Fits(q.shape, k.shape, v.shape, f.shape, d) && |p| == |d| && Valid(d, p)
    requires i < q.shape[|q.shape| - 2] && c < v.shape[|v.shape| - 1]
    ensures ExpandedEntry(e, q, k, v, f, d, scale, p + [i], c) == SlicedEntry(e, q, k, v, f, d, scale, p, i, c)
  {
    hide At, Size, Expand, BatchSlice, Attend, Valid, Key;
    var n, depth := k.shape[|k.shape| - 2], q.shape[|q.shape| - 1];
    forall t: nat | t < depth ensures At(Expand(q, d), p + [i] + [t]) == At(BatchSlice(q, p), [i] + [t]) {
      MatrixEntry(q, d, p, i, t);
    }
    forall j: nat, t: nat | j < n && t < depth
      ensures At(Expand(k, d), Key(p + [i], j, t)) == At(BatchSlice(k, p), Key([i], j, t))
    {
      MatrixEntry(k, d, p, j, t);
    }
    forall j: nat | j < n
      ensures At(f, p + [i] + [j]) == At(BatchSlice(f, p), [i] + [j])
      ensures At(Expand(v, d), Key(p + [i], j, c)) == At(BatchSlice(v, p), Key([i], j, c))
    {
      FactorEntry(f, d, q.shape[|q.shape| - 2], n, p, i, j);
      MatrixEntry(v, d, p, j, c);
    }
    AttendCong(e, Expand(q, d), Expand(k, d), Expand(v, d), f, p + [i],
               BatchSlice(q, p), BatchSlice(k, p), BatchSlice(v, p), BatchSlice(f, p), [i], scale, n, c);
  }

  lemma ExpandedAt(e: RawEnv, q: Tensor, k: Tensor, v: Tensor, f: Tensor, d: Shape, scale: real, P: Index, c: nat)
    requires Fits(q.shape, k.shape, v.shape, f.shape, d)
    requires Valid(d + [q.shape[|q.shape| - 2], v.shape[|v.shape| - 1]], P + [c])
    ensures At(Expanded(e, q, k, v, f, d, scale), P + [c]) == ExpandedEntry(e, q, k, v, f, d, scale, P, c)
  {
    hide At, Size, MaskedAttention, Expand, Attend, Valid, MaskedOk;
    ExpandedShapes(q.shape, k.shape, v.shape, f.shape, d);
    AttentionAt(e, Expand(q, d), Expand(k, d), Expand(v, d), f, scale, P, c);
  }

  lemma SlicedAt(e: RawEnv, q: Tensor, k: Tensor, v: Tensor, f: Tensor, d: Shape, scale: real, p: Index, i: nat, c: nat)
    requires Fits(q.shape, k.shape, v.shape, f.shape, d) && |p| == |d|
    requires Valid([q.shape[|q.shape| - 2], v.shape[|v.shape| - 1]], [i] + [c])
    ensures At(Sliced(e, q, k, v, f, d, scale, p), [i] + [c]) == SlicedEntry(e, q, k, v, f, d, scale, p, i, c)
  {
    hide At, Size, MaskedAttention, BatchSlice, Attend, Valid, MaskedOk;
    SlicedShapes(q.shape, k.shape, v.shape, f.shape, d);
    AttentionAt(e, BatchSlice(q, p), BatchSlice(k, p), BatchSlice(v, p), BatchSlice(f, p), scale, [i], c);
  }

  lemma ResultShapes(e: RawEnv, q: Tensor, k: Tensor, v: Tensor, f: Tensor, d: Shape, scale: real, p: Index)
    requires Fits(q.shape, k.shape, v.shape, f.shape, d)
    ensures Expanded(e, q, k, v, f, d, scale).shape == d + [q.shape[|q.shape| - 2], v.shape[|v.shape| - 1]]
    ensures |p| == |d| ==> Sliced(e, q, k, v, f, d, scale, p).shape == [q.shape[|q.shape| - 2], v.shape[|v.shape| - 1]]
  {
    hide MaskedOk, MaskedAttention, Expand, BatchSlice, Size;
    ExpandedShapes(q.shape, k.shape, v.shape, f.shape, d);
    SlicedShapes(q.shape, k.shape, v.shape, f.shape, d);
  }

  /** Every matrix of the result is the attention of the matrices its operands broadcast there. */
  lemma BatchAttention(e: RawEnv, q: Tensor, k: Tensor, v: Tensor, f: Tensor, d: Shape, scale: real, p: Index)
    requires Fits(q.shape, k.shape, v.shape, f.shape, d) && |p| == |d| && Valid(d, p)
    ensures BatchSlice(Expanded(e, q, k, v, f, d, scale), p) == Sliced(e, q, k, v, f, d, scale, p)
  {
    hide At, Size, Expanded, Sliced, ExpandedEntry, SlicedEntry, BatchSlice;
    var x, y := Expanded(e, q, k, v, f, d, scale), Sliced(e, q, k, v, f, d, scale, p);
    var m, n := q.shape[|q.shape| - 2], v.shape[|v.shape| - 1];
    ResultShapes(e, q, k, v, f, d, scale, p);
    assert Matrix(x.shape) == [m, n];
    forall I: Index | Valid([m, n], I) ensures At(BatchSlice(x, p), I) == At(y, I) {
      var i: nat, c: nat := I[0], I[1];
      CellValid(d, m, n, p, i, c);
      assert I == [i, c];
      FactorEntry(x, d, m, n, p, i, c);
      ExpandedAt(e, q, k, v, f, d, scale, p + [i], c);
      SlicedAt(e, q, k, v, f, d, scale, p, i, c);
      EntryTerms(e, q, k, v, f, d, scale, p, i, c);
    }
    Ext(BatchSlice(x, p), y);
  }

  lemma JointRank(q: Shape, k: Shape, v: Shape)
    requires |q| >= 2 && |k| >= 2 && |v| >= 2 && Joint(q, k, v).Some?
    ensures |q| <= |Joint(q, k, v).value| + 2 && |k| <= |Joint(q, k, v).value| + 2 && |v| <= |Joint(q, k, v).value| + 2
  {
    hide JointUpTo;
  }

  /** Attention accepts exactly the checked operands. The matrix of its result at every batch position is then the
      attention of the query, key and value matrices that broadcast there, under the mask broadcast to the scores. */
  lemma SdpaMeaning(e: RawEnv, q: Tensor, k: Tensor, v: Tensor, mask: Option<Tensor>, scale: real)
    ensures var r := ScaledDotProduct(e, q, k, v, mask, scale);
      && (r.Some? <==> SdpaOk(q.shape, k.shape, v.shape, mask))
      && (r.Some? ==>
        var d := Joint(q.shape, k.shape, v.shape).value;
        var f := Factor(mask, d + [q.shape[|q.shape| - 2], k.shape[|k.shape| - 2]]);
        && Fits(q.shape, k.shape, v.shape, f.shape, d)
        && r.value.shape == d + [q.shape[|q.shape| - 2], v.shape[|v.shape| - 1]]
        && forall p: Index :: |p| == |d| && Valid(d, p) ==> BatchSlice(r.value, p) == Sliced(e, q, k, v, f, d, scale, p))
  {
    hide Joint, Expanded, Sliced, MaskFits, Size, Factor, BatchSlice;
    if SdpaOk(q.shape, k.shape, v.shape, mask) {
      JointRank(q.shape, k.shape, v.shape);
      var d := Joint(q.shape, k.shape, v.shape).value;
      var f := Factor(mask, d + [q.shape[|q.shape| - 2], k.shape[|k.shape| - 2]]);
      forall p: Index | |p| == |d| && Valid(d, p)
        ensures BatchSlice(Expanded(e, q, k, v, f, d, scale), p) == Sliced(e, q, k, v, f, d, scale, p)
      {
        BatchAttention(e, q, k, v, f, d, scale, p);
      }
      ResultShapes(e, q, k, v, f, d, scale, []);
    }
  }

  // ----- operands with one batch shape -----

  lemma TrailingSame(s: Shape, I: Index)
    requires Valid(s, I)
    ensures BroadcastIx(s, Trailing(|s|, |s|), I) == I
  {
    forall a | 0 <= a < |s| ensures BroadcastIx(s, Trailing(|s|, |s|), I)[a] == I[a] {
      assert 0 <= I[a] < s[a] && Trailing(|s|, |s|)[a] == a;
    }
  }

  lemma BroadcastSame(t: Tensor)
    ensures BroadcastOk(t.shape, t.shape, Trailing(|t.shape|, |t.shape|))
    ensures TensorOps.Broadcast(t, t.shape, Trailing(|t.shape|, |t.shape|)) == t
  {
    hide At, Size, BroadcastIx;
    forall I | Valid(t.shape, I)
      ensures At(TensorOps.Broadcast(t, t.shape, Trailing(|t.shape|, |t.shape|)), I) == At(t, I)
    {
      TrailingSame(t.shape, I);
    }
    Ext(TensorOps.Broadcast(t, t.shape, Trailing(|t.shape|, |t.shape|)), t);
  }

  lemma ExpandSame(t: Tensor)
    requires |t.shape| >= 2
    ensures Expand(t, BatchOf(t.shape)) == t
  {
    hide Size;
    assert BatchOf(t.shape) + Matrix(t.shape) == t.shape;
    BroadcastSame(t);
  }

  /** Nothing is broadcast when the batch shapes agree. */
  lemma SameBatchAttention(e: RawEnv, q: Tensor, k: Tensor, v: Tensor, mask: Option<Tensor>, scale: real)
    requires |q.shape| == |k.shape| == |v.shape| >= 2 && BatchOf(q.shape) == BatchOf(k.shape) == BatchOf(v.shape)
    ensures var full := BatchOf(q.shape) + [q.shape[|q.shape| - 2], k.shape[|k.shape| - 2]];
      var r := ScaledDotProduct(e, q, k, v, mask, scale);
      && (r.Some? <==> MatricesOk(q.shape, k.shape, v.shape) && MaskFits(mask, full))
      && (r.Some? ==> MaskedOk(q.shape, k.shape, v.shape, full) && r.value == MaskedAttention(e, q, k, v, Factor(mask, full), scale))
  {
    hide Size, Joint, MaskFits, Factor, MaskedAttention, Expand, MaskedOk;
    SameBatch(q.shape, k.shape, v.shape);
    if SdpaOk(q.shape, k.shape, v.shape, mask) {
      var d := BatchOf(q.shape);
      ExpandedOk(q.shape, k.shape, v.shape, d);
      ExpandSame(q);
      ExpandSame(k);
      ExpandSame(v);
      assert d + Matrix(q.shape) == q.shape && d + Matrix(k.shape) == k.shape && d + Matrix(v.shape) == v.shape;
    }
  }
}
