/** A tensor as the sequence of its slabs along one axis, and the layout operations in those terms. */
module Slabs {
  import opened Products
  import opened Sums
  import opened Shapes
  import opened Tensors
  import opened TensorOps
  import opened Adjoints

  function Without(shape: Shape, axis: nat): (r: Shape)
    requires axis < |shape|
    ensures |r| == |shape| - 1
  {
    shape[..axis] + shape[axis + 1..]
  }

  /** Coordinate I with k inserted at axis. */
  function Insert(I: Index, axis: nat, k: int): Index
  {
    if axis <= |I| then I[..axis] + [k] + I[axis..] else []
  }

  function Remove(I: Index, axis: nat): Index
  {
    if axis < |I| then I[..axis] + I[axis + 1..] else I
  }

  lemma InsertValid(shape: Shape, axis: nat, I: Index, k: int)
    requires axis < |shape| && Valid(Without(shape, axis), I)
    ensures |Insert(I, axis, k)| == |shape| && Insert(I, axis, k)[axis] == k
    ensures Valid(shape, Insert(I, axis, k)) <==> 0 <= k < shape[axis]
    ensures Remove(Insert(I, axis, k), axis) == I
  {
    var J, s := Insert(I, axis, k), Without(shape, axis);
    if 0 <= k < shape[axis] {
      forall a | 0 <= a < |shape| ensures 0 <= J[a] < shape[a] {
        if a < axis {
          assert J[a] == I[a] && s[a] == shape[a];
        } else if a > axis {
          assert J[a] == I[a - 1] && s[a - 1] == shape[a];
        }
      }
    }
  }

  lemma RemoveValid(shape: Shape, axis: nat, J: Index)
    requires axis < |shape| && Valid(shape, J)
    ensures Valid(Without(shape, axis), Remove(J, axis)) && Insert(Remove(J, axis), axis, J[axis]) == J
  {
    var s, I := Without(shape, axis), Remove(J, axis);
    forall a | 0 <= a < |s| ensures 0 <= I[a] < s[a] {
      var b := if a < axis then a else a + 1;
      assert I[a] == J[b] && s[a] == shape[b];
    }
  }

  /** The part of t at position k of an axis, with that axis removed. */
  function Slab(t: Tensor, axis: nat, k: int): (r: Tensor)
    requires axis < |t.shape|
    ensures r.shape == Without(t.shape, axis)
  {
    Build(Without(t.shape, axis), (I: Index) => At(t, Insert(I, axis, k)))
  }

  lemma SlabReads(t: Tensor, axis: nat, J: Index)
    requires axis < |t.shape| && Valid(t.shape, J)
    ensures At(t, J) == At(Slab(t, axis, J[axis]), Remove(J, axis))
  {
    hide Size, At, Insert, Remove;
    RemoveValid(t.shape, axis, J);
  }

  /** Tensors with the same slabs are equal. */
  lemma SlabExt(a: Tensor, b: Tensor, axis: nat)
    requires a.shape == b.shape && axis < |a.shape|
    requires forall k :: 0 <= k < a.shape[axis] ==> Slab(a, axis, k) == Slab(b, axis, k)
    ensures a == b
  {
    hide Size, At, Slab;
    forall J | Valid(a.shape, J) ensures At(a, J) == At(b, J) {
      SlabReads(a, axis, J);
      SlabReads(b, axis, J);
    }
    Ext(a, b);
  }

  // ----- slices along the axis -----

  /** Full extent on every axis but one. */
  function AxisSlice(shape: Shape, axis: nat, start: nat, limit: nat, stride: nat): seq<SliceAxis>
  {
    seq(|shape|, (a: nat) requires a < |shape| =>
      if a == axis then SliceAxis(start, limit, stride) else SliceAxis(0, shape[a], 1))
  }

  function SliceAlong(t: Tensor, axis: nat, start: nat, limit: nat, stride: nat): (r: Tensor)
    requires axis < |t.shape| && start <= limit <= t.shape[axis] && stride > 0
    ensures r.shape == t.shape[axis := SliceDim(SliceAxis(start, limit, stride))]
  {
    var axes := AxisSlice(t.shape, axis, start, limit, stride);
    assert SliceShape(axes) == t.shape[axis := SliceDim(SliceAxis(start, limit, stride))];
    Slice(t, axes)
  }

  lemma SliceAlongIx(shape: Shape, axis: nat, start: nat, limit: nat, stride: nat, I: Index, k: nat)
    requires axis < |shape| && |I| == |shape| - 1
    ensures SliceIx(AxisSlice(shape, axis, start, limit, stride), Insert(I, axis, k)) == Insert(I, axis, start + k * stride)
  {
    var axes, J := AxisSlice(shape, axis, start, limit, stride), Insert(I, axis, k);
    forall a: nat | a < |J| ensures SliceIx(axes, J)[a] == Insert(I, axis, start + k * stride)[a] {
      if a == axis {
        assert J[a] == k;
      } else {
        assert J[a] * 1 == J[a];
      }
    }
  }

  lemma SliceAlongAt(t: Tensor, axis: nat, start: nat, limit: nat, stride: nat, I: Index, k: nat)
    requires axis < |t.shape| && start <= limit <= t.shape[axis] && stride > 0
    requires k < SliceDim(SliceAxis(start, limit, stride)) && Valid(Without(t.shape, axis), I)
    ensures At(SliceAlong(t, axis, start, limit, stride), Insert(I, axis, k)) == At(t, Insert(I, axis, start + k * stride))
  {
    hide Size, At, SliceDim, SliceIx, AxisSlice, Insert, SliceOk, Valid;
    var s := SliceAlong(t, axis, start, limit, stride);
    assert Without(s.shape, axis) == Without(t.shape, axis);
    InsertValid(s.shape, axis, I, k);
    SliceAlongIx(t.shape, axis, start, limit, stride, I, k);
  }

  lemma SliceAlongSlab(t: Tensor, axis: nat, start: nat, limit: nat, stride: nat, k: nat)
    requires axis < |t.shape| && start <= limit <= t.shape[axis] && stride > 0
    requires k < SliceDim(SliceAxis(start, limit, stride))
    ensures Slab(SliceAlong(t, axis, start, limit, stride), axis, k) == Slab(t, axis, start + k * stride)
  {
    hide Size, At, SliceDim, SliceAlong, Insert, Valid;
    var s := SliceAlong(t, axis, start, limit, stride);
    var a, b := Slab(s, axis, k), Slab(t, axis, start + k * stride);
    assert Without(s.shape, axis) == Without(t.shape, axis);
    forall I | Valid(a.shape, I) ensures At(a, I) == At(b, I) {
      SliceAlongAt(t, axis, start, limit, stride, I, k);
    }
    Ext(a, b);
  }

  function Narrow(t: Tensor, axis: nat, start: nat, length: nat): (r: Tensor)
    requires axis < |t.shape| && start + length <= t.shape[axis]
    ensures r.shape == t.shape[axis := length]
  {
    SliceAlong(t, axis, start, start + length, 1)
  }

  lemma NarrowSlab(t: Tensor, axis: nat, start: nat, length: nat, k: nat)
    requires axis < |t.shape| && start + length <= t.shape[axis] && k < length
    ensures Slab(Narrow(t, axis, start, length), axis, k) == Slab(t, axis, start + k)
  {
    SliceAlongSlab(t, axis, start, start + length, 1, k);
  }

  // ----- concatenation -----

  predicate Joinable(a: Tensor, b: Tensor, axis: nat)
  {
    axis < |a.shape| && |b.shape| == |a.shape| && b.shape == a.shape[axis := b.shape[axis]]
  }

  function Join(a: Tensor, b: Tensor, axis: nat): (r: Tensor)
    requires Joinable(a, b, axis)
    ensures r.shape == a.shape[axis := a.shape[axis] + b.shape[axis]]
  {
    JoinOk(a, b, axis);
    Concatenate([a, b], axis)
  }

  lemma JoinOk(a: Tensor, b: Tensor, axis: nat)
    requires Joinable(a, b, axis)
    ensures ConcatOk([a, b], axis) && Start([a, b], axis, 0) == 0 && Start([a, b], axis, 1) == a.shape[axis]
    ensures Start([a, b], axis, 2) == a.shape[axis] + b.shape[axis]
  {
    hide Size;
    assert Start([a, b], axis, 1) == Start([a, b], axis, 0) + Extent([a, b], axis, 0);
  }

  lemma JoinAt(a: Tensor, b: Tensor, axis: nat, I: Index, k: nat)
    requires Joinable(a, b, axis) && k < a.shape[axis] + b.shape[axis] && Valid(Without(a.shape, axis), I)
    ensures At(Join(a, b, axis), Insert(I, axis, k))
         == if k < a.shape[axis] then At(a, Insert(I, axis, k)) else At(b, Insert(I, axis, k - a.shape[axis]))
  {
    hide Size, At, Start, Concatenate, Valid;
    JoinOk(a, b, axis);
    var j, p := Join(a, b, axis), if k < a.shape[axis] then 0 else 1;
    assert Without(j.shape, axis) == Without(a.shape, axis);
    InsertValid(j.shape, axis, I, k);
    ConcatReads([a, b], axis, p, Insert(I, axis, k));
    var from := Start([a, b], axis, p);
    assert Insert(I, axis, k)[axis := k - from] == Insert(I, axis, k - from);
  }

  lemma JoinSlab(a: Tensor, b: Tensor, axis: nat, k: nat)
    requires Joinable(a, b, axis) && k < a.shape[axis] + b.shape[axis]
    ensures k < a.shape[axis] ==> Slab(Join(a, b, axis), axis, k) == Slab(a, axis, k)
    ensures k >= a.shape[axis] ==> Slab(Join(a, b, axis), axis, k) == Slab(b, axis, k - a.shape[axis])
  {
    hide Size, At, Join, Valid, Insert;
    var j, left := Join(a, b, axis), k < a.shape[axis];
    var x, y := Slab(j, axis, k), if left then Slab(a, axis, k) else Slab(b, axis, k - a.shape[axis]);
    assert Without(j.shape, axis) == Without(a.shape, axis) == Without(b.shape, axis);
    forall I | Valid(x.shape, I) ensures At(x, I) == At(y, I) {
      JoinAt(a, b, axis, I, k);
    }
    Ext(x, y);
  }

  // ----- stacking on a new axis and merging it -----

  /** Insert a unit axis. */
  function Unsqueeze(t: Tensor, axis: nat): (r: Tensor)
    requires axis <= |t.shape|
    ensures r.shape == t.shape[..axis] + [1] + t.shape[axis..]
  {
    SizeMerge(t.shape[..axis], [], t.shape[axis..]);
    assert t.shape[..axis] + [] + t.shape[axis..] == t.shape;
    Reshape(t, t.shape[..axis] + [1] + t.shape[axis..])
  }

  lemma UnsqueezeAt(t: Tensor, axis: nat, I: Index)
    requires axis <= |t.shape| && Valid(t.shape, I)
    ensures Valid(Unsqueeze(t, axis).shape, Insert(I, axis, 0)) && At(Unsqueeze(t, axis), Insert(I, axis, 0)) == At(t, I)
  {
    hide Size, At, Flat;
    var pre, post := t.shape[..axis], t.shape[axis..];
    FlatMerge(pre, [], post, I[..axis], [], I[axis..]);
    SizeMerge(pre, [], post);
    assert pre + [] + post == t.shape && I[..axis] + [] + I[axis..] == I;
    EmptyShape();
    ReshapeAt(t, pre + [1] + post, Insert(I, axis, 0), I);
  }

  lemma EmptyShape()
    ensures Size([]) == 1 && Flat([], []) == 0
  {
  }

  /** Two tensors of one shape stacked on a new axis. */
  function StackTwo(a: Tensor, b: Tensor, axis: nat): (r: Tensor)
    requires a.shape == b.shape && axis <= |a.shape|
    ensures r.shape == a.shape[..axis] + [2] + a.shape[axis..]
  {
    Join(Unsqueeze(a, axis), Unsqueeze(b, axis), axis)
  }

  lemma UnsqueezeSlab(t: Tensor, axis: nat)
    requires axis <= |t.shape|
    ensures Slab(Unsqueeze(t, axis), axis, 0) == t
  {
    hide Size, At, Unsqueeze;
    var u := Unsqueeze(t, axis);
    assert Without(u.shape, axis) == t.shape;
    forall I | Valid(t.shape, I) ensures At(Slab(u, axis, 0), I) == At(t, I) {
      UnsqueezeAt(t, axis, I);
    }
    Ext(Slab(u, axis, 0), t);
  }

  lemma StackSlab(a: Tensor, b: Tensor, axis: nat)
    requires a.shape == b.shape && axis <= |a.shape|
    ensures Slab(StackTwo(a, b, axis), axis, 0) == a && Slab(StackTwo(a, b, axis), axis, 1) == b
  {
    hide Size, At, Unsqueeze, Slab, Join;
    var ua, ub := Unsqueeze(a, axis), Unsqueeze(b, axis);
    JoinSlab(ua, ub, axis, 0);
    JoinSlab(ua, ub, axis, 1);
    UnsqueezeSlab(a, axis);
    UnsqueezeSlab(b, axis);
  }

  /** Stack after axis, then merge the new axis into it: slabs alternate between a and b. */
  function Interleave(a: Tensor, b: Tensor, axis: nat): (r: Tensor)
    requires a.shape == b.shape && axis < |a.shape|
    ensures r.shape == a.shape[axis := 2 * a.shape[axis]]
  {
    var n, shape := a.shape[axis], a.shape;
    var pre, post := shape[..axis], shape[axis + 1..];
    InterleaveSize(pre, n, post);
    assert shape[..axis + 1] + [2] + shape[axis + 1..] == pre + [n, 2] + post;
    assert shape[axis := 2 * n] == pre + [2 * n] + post;
    Reshape(StackTwo(a, b, axis + 1), shape[axis := 2 * n])
  }

  lemma InterleaveSize(pre: Shape, n: nat, post: Shape)
    ensures Size([n, 2]) == 2 * n
    ensures Size(pre + [n, 2] + post) == Size(pre + [2 * n] + post)
  {
    hide Size;
    SizeTwo(n, 2);
    SizeMerge(pre, [n, 2], post);
  }

  lemma InterleaveAt(a: Tensor, b: Tensor, axis: nat, I: Index, k: nat)
    requires a.shape == b.shape && axis < |a.shape| && Valid(Without(a.shape, axis), I) && k < 2 * a.shape[axis]
    ensures At(Interleave(a, b, axis), Insert(I, axis, k)) == At(if k % 2 == 0 then a else b, Insert(I, axis, k / 2))
  {
    hide Size, At, Flat, StackTwo, Interleave, Slab;
    var n, shape, s := a.shape[axis], a.shape, StackTwo(a, b, axis + 1);
    var pre, post, P, Q := shape[..axis], shape[axis + 1..], I[..axis], I[axis..];
    assert Valid(pre, P) && Valid(post, Q);
    InterleaveSize(pre, n, post);
    FlatTwo(n, 2, k / 2, k % 2);
    assert Flat([n, 2], [k / 2, k % 2]) == k by { ScaleTwo(k / 2); }
    FlatMerge(pre, [n, 2], post, P, [k / 2, k % 2], Q);
    var K := P + [k / 2, k % 2] + Q;
    assert s.shape == pre + [n, 2] + post;
    assert shape[axis := 2 * n] == pre + [2 * n] + post;
    assert Insert(I, axis, k) == P + [k] + Q;
    InterleaveIs(a, b, axis);
    ReshapeAt(s, shape[axis := 2 * n], P + [k] + Q, K);
    SlabReads(s, axis + 1, K);
    assert K[axis + 1] == k % 2;
    assert Remove(K, axis + 1) == Insert(I, axis, k / 2);
    StackSlab(a, b, axis + 1);
  }

  lemma InterleaveIs(a: Tensor, b: Tensor, axis: nat)
    requires a.shape == b.shape && axis < |a.shape|
    ensures Size(a.shape[axis := 2 * a.shape[axis]]) == Size(StackTwo(a, b, axis + 1).shape)
    ensures Interleave(a, b, axis) == Reshape(StackTwo(a, b, axis + 1), a.shape[axis := 2 * a.shape[axis]])
  {
    hide Size, StackTwo;
    var n, shape := a.shape[axis], a.shape;
    InterleaveSize(shape[..axis], n, shape[axis + 1..]);
    assert shape[..axis + 1] + [2] + shape[axis + 1..] == shape[..axis] + [n, 2] + shape[axis + 1..];
    assert shape[axis := 2 * n] == shape[..axis] + [2 * n] + shape[axis + 1..];
  }

  lemma ScaleTwo(n: nat)
    ensures Scale(n, 2) == 2 * n
  {
  }

  lemma InterleaveSlab(a: Tensor, b: Tensor, axis: nat, k: nat)
    requires a.shape == b.shape && axis < |a.shape| && k < 2 * a.shape[axis]
    ensures Slab(Interleave(a, b, axis), axis, k) == Slab(if k % 2 == 0 then a else b, axis, k / 2)
  {
    hide Size, At, Interleave;
    var x, y := Slab(Interleave(a, b, axis), axis, k), Slab(if k % 2 == 0 then a else b, axis, k / 2);
    assert Without(Interleave(a, b, axis).shape, axis) == Without(a.shape, axis);
    forall I | Valid(x.shape, I) ensures At(x, I) == At(y, I) {
      InterleaveAt(a, b, axis, I, k);
    }
    Ext(x, y);
  }
}
