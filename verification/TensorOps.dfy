/** The value of each tensor operation, coordinate by coordinate. */
module TensorOps {
  import opened Products
  import opened Sums
  import opened Shapes
  import opened IndexSums
  import opened Tensors

  // ----- elementwise -----

  function Map(t: Tensor, f: real -> real): (r: Tensor)
    ensures r.shape == t.shape
  {
    Build(t.shape, (I: Index) => f(At(t, I)))
  }

  function Zip(a: Tensor, b: Tensor, f: (real, real) -> real): (r: Tensor)
    requires a.shape == b.shape
    ensures r.shape == a.shape
  {
    Build(a.shape, (I: Index) => f(At(a, I), At(b, I)))
  }

  function Fill(shape: Shape, v: real): (r: Tensor)
    ensures r.shape == shape
  {
    Build(shape, (I: Index) => v)
  }

  function Plus(a: Tensor, b: Tensor): (r: Tensor)
    requires a.shape == b.shape
    ensures r.shape == a.shape
  {
    Zip(a, b, (x: real, y: real) => x + y)
  }

  function Hadamard(a: Tensor, b: Tensor): (r: Tensor)
    requires a.shape == b.shape
    ensures r.shape == a.shape
  {
    Zip(a, b, (x: real, y: real) => Times(x, y))
  }

  /** Elementwise choice; every nonzero mask value selects the first branch. */
  function Choose(mask: Tensor, a: Tensor, b: Tensor): (r: Tensor)
    requires mask.shape == a.shape == b.shape
    ensures r.shape == a.shape
  {
    Build(a.shape, (I: Index) => if At(mask, I) != 0.0 then At(a, I) else At(b, I))
  }

  // ----- layout -----

  function Reshape(t: Tensor, shape: Shape): (r: Tensor)
    requires Size(shape) == Size(t.shape)
    ensures r.shape == shape
  {
    Dense(shape, t.data)
  }

  /** The axis lists a transpose accepts: sorting them gives 0, ..., r-1. */
  predicate IsPerm(perm: seq<nat>, r: nat)
  {
    && |perm| == r
    && (forall a :: 0 <= a < r ==> perm[a] < r)
    && (forall a, b :: 0 <= a < b < r ==> perm[a] != perm[b])
    && (forall p :: 0 <= p < r ==> p in perm)
  }

  /** First position of p in xs, or the length of xs. */
  function PosIn<T(==)>(xs: seq<T>, p: T): (a: nat)
    ensures a <= |xs|
    ensures a < |xs| ==> xs[a] == p
    ensures a == |xs| ==> p !in xs
    ensures forall b :: 0 <= b < a ==> xs[b] != p
  {
    if xs == [] then 0 else if xs[0] == p then 0 else
      var a := PosIn(xs[1..], p);
      assert forall b :: 1 <= b < a + 1 ==> xs[b] == xs[1..][b - 1];
      a + 1
  }

  function Permuted<T>(xs: seq<T>, perm: seq<nat>): seq<T>
    requires forall a :: 0 <= a < |perm| ==> perm[a] < |xs|
  {
    seq(|perm|, (a: nat) requires a < |perm| => xs[perm[a]])
  }

  function Inverse(perm: seq<nat>): seq<nat>
  {
    seq(|perm|, (p: nat) => PosIn(perm, p))
  }

  /** Source coordinate of output coordinate I under a transpose. */
  function TransposeIx(perm: seq<nat>, I: Index): Index
  {
    seq(|perm|, (p: nat) => if PosIn(perm, p) < |I| then I[PosIn(perm, p)] else -1)
  }

  function Transpose(t: Tensor, perm: seq<nat>): (r: Tensor)
    requires forall a :: 0 <= a < |perm| ==> perm[a] < |t.shape|
    ensures r.shape == Permuted(t.shape, perm)
  {
    Build(Permuted(t.shape, perm), (I: Index) => At(t, TransposeIx(perm, I)))
  }

  function FlipIx(shape: Shape, axes: seq<nat>, I: Index): Index
  {
    seq(|I|, (a: nat) requires a < |I| => if a in axes && a < |shape| then shape[a] - 1 - I[a] else I[a])
  }

  function Flip(t: Tensor, axes: seq<nat>): (r: Tensor)
    ensures r.shape == t.shape
  {
    Build(t.shape, (I: Index) => At(t, FlipIx(t.shape, axes, I)))
  }

  datatype SliceAxis = SliceAxis(start: nat, limit: nat, stride: nat)

  predicate SliceOk(shape: Shape, axes: seq<SliceAxis>)
  {
    |axes| == |shape| &&
    forall a :: 0 <= a < |axes| ==> axes[a].start <= axes[a].limit <= shape[a] && axes[a].stride > 0
  }

  /** Output extent of one sliced axis, as computed without overflow. */
  function SliceDim(ax: SliceAxis): nat
    requires ax.start <= ax.limit && ax.stride > 0
  {
    var span := ax.limit - ax.start;
    span / ax.stride + (if span % ax.stride != 0 then 1 else 0)
  }

  function SliceShape(axes: seq<SliceAxis>): Shape
    requires forall a :: 0 <= a < |axes| ==> axes[a].start <= axes[a].limit && axes[a].stride > 0
  {
    seq(|axes|, (a: nat) requires a < |axes| => SliceDim(axes[a]))
  }

  function SliceIx(axes: seq<SliceAxis>, I: Index): Index
  {
    seq(|I|, (a: nat) requires a < |I| => if a < |axes| then axes[a].start + I[a] * axes[a].stride else -1)
  }

  function Slice(t: Tensor, axes: seq<SliceAxis>): (r: Tensor)
    requires SliceOk(t.shape, axes)
    ensures r.shape == SliceShape(axes)
  {
    Build(SliceShape(axes), (I: Index) => At(t, SliceIx(axes, I)))
  }

  /** Output coordinate along one axis that reads source coordinate j, or -1. */
  function UnsliceCoord(ax: SliceAxis, j: int): int
  {
    if ax.stride > 0 && j >= ax.start && (j - ax.start) % ax.stride == 0 then (j - ax.start) / ax.stride else -1
  }

  function UnsliceIx(axes: seq<SliceAxis>, J: Index): Index
  {
    seq(|J|, (a: nat) requires a < |J| => if a < |axes| then UnsliceCoord(axes[a], J[a]) else -1)
  }

  /** Write y into the sliced positions of a zero tensor. */
  function SliceGradient(y: Tensor, axes: seq<SliceAxis>, shape: Shape): (r: Tensor)
    ensures r.shape == shape
  {
    Build(shape, (J: Index) => At(y, UnsliceIx(axes, J)))
  }

  function ShiftIx(I: Index, low: seq<int>): Index
  {
    seq(|I|, (a: nat) requires a < |I| => if a < |low| then I[a] - low[a] else -1)
  }

  datatype Edge = Edge(low: nat, high: nat)

  function Lows(padding: seq<Edge>): seq<int>
  {
    seq(|padding|, (a: nat) requires a < |padding| => padding[a].low)
  }

  function PadShape(shape: Shape, padding: seq<Edge>): Shape
    requires |padding| == |shape|
  {
    seq(|shape|, (a: nat) requires a < |shape| => shape[a] + padding[a].low + padding[a].high)
  }

  /** Edge padding; fill is a scalar tensor. */
  function Pad(t: Tensor, padding: seq<Edge>, fill: Tensor): (r: Tensor)
    requires |padding| == |t.shape|
    ensures r.shape == PadShape(t.shape, padding)
  {
    Build(PadShape(t.shape, padding), (I: Index) =>
      var J := ShiftIx(I, Lows(padding));
      if Valid(t.shape, J) then At(t, J) else At(fill, []))
  }

  predicate ConcatOk(ts: seq<Tensor>, axis: nat)
  {
    |ts| > 0 && axis < |ts[0].shape| &&
    forall k :: 0 <= k < |ts| ==>
      |ts[k].shape| == |ts[0].shape| && ts[k].shape == ts[0].shape[axis := ts[k].shape[axis]]
  }

  function Extent(ts: seq<Tensor>, axis: nat, k: nat): nat
  {
    if k < |ts| && axis < |ts[k].shape| then ts[k].shape[axis] else 0
  }

  /** Offset of piece k along the concatenated axis. */
  function Start(ts: seq<Tensor>, axis: nat, k: nat): nat
  {
    if k == 0 then 0 else Start(ts, axis, k - 1) + Extent(ts, axis, k - 1)
  }

  /** Piece k read at an output coordinate; zero where the piece does not reach. */
  function PieceAt(ts: seq<Tensor>, axis: nat, I: Index, k: nat): real
  {
    if k < |ts| && axis < |I| then At(ts[k], I[axis := I[axis] - Start(ts, axis, k)]) else 0.0
  }

  /** The first n pieces placed one after another; every coordinate meets at most one piece. */
  function Pieces(ts: seq<Tensor>, axis: nat, n: nat, shape: Shape): (r: Tensor)
    ensures r.shape == shape
  {
    Build(shape, (I: Index) => Sum(n, (k: nat) => PieceAt(ts, axis, I, k)))
  }

  function Concatenate(ts: seq<Tensor>, axis: nat): (r: Tensor)
    requires ConcatOk(ts, axis)
    ensures r.shape == ts[0].shape[axis := Start(ts, axis, |ts|)]
  {
    Pieces(ts, axis, |ts|, ts[0].shape[axis := Start(ts, axis, |ts|)])
  }

  function NarrowAxes(shape: Shape, axis: nat, start: nat, length: nat): seq<SliceAxis>
  {
    seq(|shape|, (a: nat) requires a < |shape| =>
      if a == axis then SliceAxis(start, start + length, 1) else SliceAxis(0, shape[a], 1))
  }

  // ----- broadcasting and reduction -----

  predicate BroadcastOk(shape: Shape, out: Shape, axes: seq<nat>)
  {
    && |axes| == |shape|
    && (forall a :: 0 <= a < |axes| ==> axes[a] < |out| && (shape[a] == 1 || shape[a] == out[axes[a]]))
    && (forall a, b :: 0 <= a < b < |axes| ==> axes[a] < axes[b])
  }

  function BroadcastIx(shape: Shape, axes: seq<nat>, I: Index): (J: Index)
    ensures |J| == |shape|
  {
    seq(|shape|, (a: nat) requires a < |shape| =>
      if shape[a] == 1 then 0 else if a < |axes| && axes[a] < |I| then I[axes[a]] else -1)
  }

  function Broadcast(t: Tensor, out: Shape, axes: seq<nat>): (r: Tensor)
    ensures r.shape == out
  {
    Build(out, (I: Index) => At(t, BroadcastIx(t.shape, axes, I)))
  }

  function Mask(axes: seq<nat>, rank: nat): seq<bool>
  {
    seq(rank, (a: nat) => a in axes)
  }

  /** Remove the masked positions. */
  function Drop<T>(xs: seq<T>, mask: seq<bool>): seq<T>
  {
    if xs == [] || mask == [] then xs
    else if mask[0] then Drop(xs[1..], mask[1..])
    else [xs[0]] + Drop(xs[1..], mask[1..])
  }

  /** Replace the masked extents by one. */
  function Ones(shape: Shape, mask: seq<bool>): Shape
  {
    seq(|shape|, (a: nat) requires a < |shape| => if a < |mask| && mask[a] then 1 else shape[a])
  }

  /** Sum over the masked axes, removing them. */
  function ReduceSum(t: Tensor, mask: seq<bool>): (r: Tensor)
    ensures r.shape == Drop(t.shape, mask)
  {
    Build(Drop(t.shape, mask), (K: Index) => FiberSum(t, (I: Index) => Drop(I, mask), K))
  }

  predicate OnLaneUpTo(axis: nat, I: Index, J: Index)
  {
    axis < |I| && |J| == |I| && J[axis] <= I[axis] && J == I[axis := J[axis]]
  }

  /** Sum of the entries whose coordinates satisfy a predicate. */
  function SumWhere(t: Tensor, p: Index -> bool): real
  {
    SumIx(t.shape, (J: Index) => WhereAt(t, p, J))
  }

  function WhereAt(t: Tensor, p: Index -> bool, J: Index): real
  {
    if p(J) then At(t, J) else 0.0
  }

  /** Inclusive prefix sums along one axis. */
  function Cumsum(t: Tensor, axis: nat): (r: Tensor)
    ensures r.shape == t.shape
  {
    Build(t.shape, (I: Index) => SumWhere(t, (J: Index) => OnLaneUpTo(axis, I, J)))
  }

  // ----- gathers -----

  function ClampTo(i: int, max: int): int
  {
    if i < 0 then 0 else if i > max then max else i
  }

  /** Source coordinate read by output coordinate I of a gather along axis. */
  function TakeIx(dim: nat, indices: Tensor, axis: nat, I: Index): Index
  {
    var r := |indices.shape|;
    if axis + r <= |I| then
      I[..axis] + [ClampTo(At(indices, I[axis..axis + r]).Floor, dim - 1)] + I[axis + r..]
    else []
  }

  function TakeAlongIx(dim: nat, indices: Tensor, axis: nat, I: Index): Index
  {
    if axis < |I| then I[axis := ClampTo(At(indices, I).Floor, dim - 1)] else []
  }

  function GatherIx(dim: nat, indices: Tensor, axis: nat, batched: bool, I: Index): Index
  {
    if batched then TakeAlongIx(dim, indices, axis, I) else TakeIx(dim, indices, axis, I)
  }

  function GatherShape(shape: Shape, indices: Shape, axis: nat, batched: bool): Shape
    requires axis < |shape|
  {
    if batched then indices else shape[..axis] + indices + shape[axis + 1..]
  }

  function Gather(t: Tensor, indices: Tensor, axis: nat, batched: bool): (r: Tensor)
    requires axis < |t.shape|
    ensures r.shape == GatherShape(t.shape, indices.shape, axis, batched)
  {
    Build(GatherShape(t.shape, indices.shape, axis, batched),
          (I: Index) => At(t, GatherIx(t.shape[axis], indices, axis, batched, I)))
  }

  /** Scatter-add: every update lands on the coordinate its gather reads. */
  function GatherGradient(y: Tensor, indices: Tensor, axis: nat, batched: bool, shape: Shape): (r: Tensor)
    requires axis < |shape|
    ensures r.shape == shape
  {
    Build(shape, (J: Index) => FiberSum(y, (I: Index) => GatherIx(shape[axis], indices, axis, batched, I), J))
  }

  /** Runtime starts, clamped so that the window fits. */
  function ClampStarts(starts: seq<int>, shape: Shape, sizes: Shape): seq<int>
  {
    seq(|starts|, (a: nat) requires a < |starts| =>
      if a < |shape| && a < |sizes| then
        ClampTo(starts[a], shape[a] as int - sizes[a] as int)
      else 0)
  }

  function UnshiftIx(I: Index, low: seq<int>): Index
  {
    seq(|I|, (a: nat) requires a < |I| => if a < |low| then I[a] + low[a] else -1)
  }

  function DynamicSlice(t: Tensor, starts: seq<int>, sizes: Shape): (r: Tensor)
    ensures r.shape == sizes
  {
    Build(sizes, (I: Index) => At(t, UnshiftIx(I, ClampStarts(starts, t.shape, sizes))))
  }

  function DynamicUpdateSlice(t: Tensor, u: Tensor, starts: seq<int>): (r: Tensor)
    ensures r.shape == t.shape
  {
    Build(t.shape, (J: Index) =>
      var I := ShiftIx(J, ClampStarts(starts, t.shape, u.shape));
      if Valid(u.shape, I) then At(u, I) else At(t, J))
  }

  // ----- contractions -----

  /** out[I] = sum over L of A[a(I+L)] * B[b(I+L)]. */
  function Contract(out: Shape, red: Shape, A: Tensor, a: Index -> Index, B: Tensor, b: Index -> Index): (r: Tensor)
    ensures r.shape == out
  {
    Build(out, (I: Index) => SumIx(red, (L: Index) => ContractTerm(A, a, B, b, I, L)))
  }

  function ContractTerm(A: Tensor, a: Index -> Index, B: Tensor, b: Index -> Index, I: Index, L: Index): real
  {
    Times(At(A, a(I + L)), At(B, b(I + L)))
  }

  function MatLeft(M: Index): Index
  {
    if |M| < 3 then [] else M[..|M| - 3] + [M[|M| - 3], M[|M| - 1]]
  }

  function MatRight(M: Index): Index
  {
    if |M| < 3 then [] else M[..|M| - 3] + [M[|M| - 1], M[|M| - 2]]
  }

  predicate MatmulOk(s: Shape, t: Shape)
  {
    |s| == |t| && |s| >= 2 && s[..|s| - 2] == t[..|t| - 2] && s[|s| - 1] == t[|t| - 2]
  }

  function MatmulShape(s: Shape, t: Shape): Shape
    requires MatmulOk(s, t)
  {
    s[..|s| - 1] + [t[|t| - 1]]
  }

  /** Batched matrix product over the last two axes. */
  function Matmul(A: Tensor, B: Tensor): (r: Tensor)
    requires MatmulOk(A.shape, B.shape)
    ensures r.shape == MatmulShape(A.shape, B.shape)
  {
    Contract(MatmulShape(A.shape, B.shape), [A.shape[|A.shape| - 1]], A, MatLeft, B, MatRight)
  }

  /** The identity permutation with its last two entries exchanged. */
  function SwapLast(rank: nat): seq<nat>
    requires rank >= 2
  {
    seq(rank, (a: nat) => if a == rank - 2 then rank - 1 else if a == rank - 1 then rank - 2 else a)
  }
}
