/** Affine recurrences by composing affine pairs in the tree scan, and by blocks. */
module Affine {
  import opened Options
  import opened Products
  import opened Shapes
  import opened Tensors
  import opened TensorOps
  import opened Adjoints
  import opened Slabs
  import opened Folds
  import opened Scans

  // ----- elementwise combinations -----

  /** An elementwise combination; operands of different shapes are left alone. */
  function Elementwise(g: (real, real) -> real): Combine
  {
    (a: Tensor, b: Tensor) => if a.shape == b.shape then Zip(a, b, g) else a
  }

  lemma ElementwiseSlabs(g: (real, real) -> real, axis: nat, slab: Shape)
    ensures KeepsShape(Elementwise(g)) && Slabwise(Elementwise(g), Elementwise(g), axis, slab)
  {
    hide Size, At;
    var f := Elementwise(g);
    forall a: Tensor, b: Tensor, k: int | Aligned(a, b, axis, slab) && 0 <= k < a.shape[axis] && f(a, b).shape == a.shape
      ensures Slab(f(a, b), axis, k) == f(Slab(a, axis, k), Slab(b, axis, k))
    {
      ElementwiseSlab(g, axis, a, b, k);
    }
  }

  lemma ElementwiseSlab(g: (real, real) -> real, axis: nat, a: Tensor, b: Tensor, k: int)
    requires axis < |a.shape| && a.shape == b.shape && 0 <= k < a.shape[axis]
    ensures Slab(Zip(a, b, g), axis, k) == Zip(Slab(a, axis, k), Slab(b, axis, k), g)
  {
    hide Size, At, Insert, Valid;
    var x, y := Slab(Zip(a, b, g), axis, k), Zip(Slab(a, axis, k), Slab(b, axis, k), g);
    forall I | Valid(x.shape, I) ensures At(x, I) == At(y, I) {
      InsertValid(a.shape, axis, I, k);
    }
    Ext(x, y);
  }

  ghost predicate ScalarMonoid(g: (real, real) -> real)
  {
    forall x: real, y: real, z: real {:trigger g(g(x, y), z)} :: g(g(x, y), z) == g(x, g(y, z))
  }

  lemma ElementwiseAssociative(g: (real, real) -> real, slab: Shape)
    requires ScalarMonoid(g)
    ensures Associative(Elementwise(g), OfShape(slab))
  {
    hide Size, At;
    var f := Elementwise(g);
    forall x: Tensor, y: Tensor, z: Tensor | x.shape == y.shape == z.shape == slab
      ensures f(f(x, y), z) == f(x, f(y, z))
    {
      Ext(f(f(x, y), z), f(x, f(y, z)));
    }
  }

  // ----- affine pairs -----

  /** The last axis holds a multiplier and an offset. */
  predicate PairShape(s: Shape)
  {
    |s| > 0 && s[|s| - 1] == 2
  }

  /** Apply left first, then right: multipliers multiply, the right multiplier carries the left offset. */
  function ComposePairs(left: Tensor, right: Tensor): (r: Tensor)
    requires left.shape == right.shape && PairShape(left.shape)
    ensures r.shape == left.shape
  {
    hide Size, Narrow, Join, Hadamard, Plus;
    var axis := |left.shape| - 1;
    var a := Narrow(right, axis, 0, 1);
    var b := Plus(Hadamard(a, Narrow(left, axis, 1, 1)), Narrow(right, axis, 1, 1));
    Join(Hadamard(a, Narrow(left, axis, 0, 1)), b, axis)
  }

  lemma ComposeAt(left: Tensor, right: Tensor, J: Index)
    requires left.shape == right.shape && PairShape(left.shape) && Valid(left.shape[..|left.shape| - 1], J)
    ensures At(ComposePairs(left, right), J + [0]) == Times(At(right, J + [0]), At(left, J + [0]))
    ensures At(ComposePairs(left, right), J + [1]) == Times(At(right, J + [0]), At(left, J + [1])) + At(right, J + [1])
  {
    hide Size, Slab, Times, At, Narrow, Join, Valid;
    var axis := |left.shape| - 1;
    assert Without(left.shape, axis) == left.shape[..axis];
    assert Insert(J, axis, 0) == J + [0] && Insert(J, axis, 1) == J + [1] by { ValidSize(left.shape[..axis], J); }
    var a, l0 := Narrow(right, axis, 0, 1), Narrow(left, axis, 0, 1);
    var l1, r1 := Narrow(left, axis, 1, 1), Narrow(right, axis, 1, 1);
    var p, q := Hadamard(a, l0), Plus(Hadamard(a, l1), r1);
    JoinAt(p, q, axis, J, 0);
    JoinAt(p, q, axis, J, 1);
    PairNarrow(right, J, 0);
    PairNarrow(right, J, 1);
    PairNarrow(left, J, 0);
    PairNarrow(left, J, 1);
  }

  lemma ValidSize(s: Shape, I: Index)
    requires Valid(s, I)
    ensures |I| == |s|
  {
  }

  lemma PairNarrow(t: Tensor, J: Index, c: nat)
    requires PairShape(t.shape) && Valid(t.shape[..|t.shape| - 1], J) && c < 2
    ensures var axis := |t.shape| - 1;
      At(Narrow(t, axis, c, 1), J + [0]) == At(t, J + [c]) && Valid(Narrow(t, axis, c, 1).shape, J + [0])
  {
    hide Size, At;
    var axis := |t.shape| - 1;
    assert Without(t.shape, axis) == t.shape[..axis];
    SliceAlongAt(t, axis, c, c + 1, 1, J, 0);
    assert Insert(J, axis, 0) == J + [0] && Insert(J, axis, c) == J + [c];
    InsertValid(Narrow(t, axis, c, 1).shape, axis, J, 0);
  }

  function Composition(): Combine
  {
    (a: Tensor, b: Tensor) => if a.shape == b.shape && PairShape(a.shape) then ComposePairs(a, b) else a
  }

  /** A coordinate of a pair tensor is a coordinate of the rest and a position 0 or 1. */
  lemma PairIndex(s: Shape, I: Index)
    requires PairShape(s) && Valid(s, I)
    ensures |I| == |s| && Valid(s[..|s| - 1], I[..|s| - 1]) && (I == I[..|s| - 1] + [0] || I == I[..|s| - 1] + [1])
  {
  }

  lemma ComposeAssociative(x: Tensor, y: Tensor, z: Tensor)
    requires x.shape == y.shape == z.shape && PairShape(x.shape)
    ensures ComposePairs(ComposePairs(x, y), z) == ComposePairs(x, ComposePairs(y, z))
  {
    hide Size, At, Times, ComposePairs, Valid;
    var left, right := ComposePairs(ComposePairs(x, y), z), ComposePairs(x, ComposePairs(y, z));
    forall I | Valid(x.shape, I) ensures At(left, I) == At(right, I) {
      PairIndex(x.shape, I);
      var J := I[..|x.shape| - 1];
      ComposeAt(x, y, J);
      ComposeAt(ComposePairs(x, y), z, J);
      ComposeAt(y, z, J);
      ComposeAt(x, ComposePairs(y, z), J);
      var a, b := At(z, J + [0]), At(y, J + [0]);
      TimesAssoc(a, b, At(x, J + [0]));
      TimesAssoc(a, b, At(x, J + [1]));
      TimesAdd(a, Times(b, At(x, J + [1])), At(y, J + [1]));
    }
    Ext(left, right);
  }

  lemma CompositionAssociative(slab: Shape)
    requires PairShape(slab)
    ensures Associative(Composition(), OfShape(slab))
  {
    hide Size, ComposePairs;
    var f := Composition();
    forall x: Tensor, y: Tensor, z: Tensor | x.shape == y.shape == z.shape == slab
      ensures f(f(x, y), z) == f(x, f(y, z))
    {
      ComposeAssociative(x, y, z);
    }
  }

  lemma PairValid(shape: Shape, I: Index)
    requires Valid(shape, I)
    ensures Valid(shape + [2], I + [0]) && Valid(shape + [2], I + [1])
  {
  }

  lemma WithoutPair(front: Shape, axis: nat)
    requires axis < |front|
    ensures Without(front + [2], axis) == Without(front, axis) + [2]
  {
  }

  lemma PairGeometry(shape: Shape, axis: nat, J: Index, k: int)
    requires axis < |shape| && Valid(Without(shape, axis), J)
    ensures Without(shape + [2], axis) == Without(shape, axis) + [2]
    ensures Insert(J + [0], axis, k) == Insert(J, axis, k) + [0] && Insert(J + [1], axis, k) == Insert(J, axis, k) + [1]
    ensures Valid(Without(shape + [2], axis), J + [0]) && Valid(Without(shape + [2], axis), J + [1])
  {
    WithoutPair(shape, axis);
    PairValid(Without(shape, axis), J);
    ValidSize(Without(shape, axis), J);
  }

  lemma PairInsert(shape: Shape, axis: nat, J: Index, k: nat)
    requires PairShape(shape) && axis + 1 < |shape| && k < shape[axis]
    requires Valid(Without(shape, axis)[..|shape| - 2], J)
    ensures Valid(shape[..|shape| - 1], Insert(J, axis, k))
    ensures Insert(J + [0], axis, k) == Insert(J, axis, k) + [0] && Insert(J + [1], axis, k) == Insert(J, axis, k) + [1]
    ensures Valid(Without(shape, axis), J + [0]) && Valid(Without(shape, axis), J + [1])
  {
    hide Size, Valid, Insert, Without;
    var front := shape[..|shape| - 1];
    assert shape == front + [2];
    WithoutPair(front, axis);
    assert Without(shape, axis)[..|shape| - 2] == Without(front, axis);
    PairGeometry(front, axis, J, k);
    InsertValid(front, axis, J, k);
  }

  lemma ComposeSlab(a: Tensor, b: Tensor, axis: nat, k: nat)
    requires a.shape == b.shape && PairShape(a.shape) && axis + 1 < |a.shape| && k < a.shape[axis]
    ensures PairShape(Without(a.shape, axis))
    ensures Slab(ComposePairs(a, b), axis, k) == ComposePairs(Slab(a, axis, k), Slab(b, axis, k))
  {
    hide Size, At, Times, ComposePairs, Valid, Insert;
    var slab := Without(a.shape, axis);
    var x, y := Slab(ComposePairs(a, b), axis, k), ComposePairs(Slab(a, axis, k), Slab(b, axis, k));
    forall I | Valid(slab, I) ensures At(x, I) == At(y, I) {
      PairIndex(slab, I);
      var J := I[..|slab| - 1];
      PairInsert(a.shape, axis, J, k);
      ComposeAt(a, b, Insert(J, axis, k));
      ComposeAt(Slab(a, axis, k), Slab(b, axis, k), J);
    }
    Ext(x, y);
  }

  lemma CompositionSlabs(axis: nat, slab: Shape)
    requires PairShape(slab) && axis < |slab|
    ensures KeepsShape(Composition()) && Slabwise(Composition(), Composition(), axis, slab)
  {
    hide Size, ComposePairs, Slab;
    var f := Composition();
    forall a: Tensor, b: Tensor, k: int | Aligned(a, b, axis, slab) && 0 <= k < a.shape[axis] && f(a, b).shape == a.shape
      ensures Slab(f(a, b), axis, k) == f(Slab(a, axis, k), Slab(b, axis, k))
    {
      assert a.shape[|a.shape| - 1] == slab[|slab| - 1];
      ComposeSlab(a, b, axis, k);
    }
  }

  // ----- affine recurrences -----

  predicate AffineOk(b: Tensor, a: Tensor, axis: nat)
  {
    axis < |b.shape| && a.shape == b.shape
  }

  /** All prefix compositions, as pairs on a new last axis. */
  function PrefixPairs(b: Tensor, a: Tensor, axis: nat): (r: Tensor)
    requires AffineOk(b, a, axis)
    ensures r.shape == b.shape + [2]
  {
    hide Size, StackTwo, PrefixTree;
    assert b.shape[..|b.shape|] + [2] + b.shape[|b.shape|..] == b.shape + [2];
    KeepsPairs();
    PrefixTree(StackTwo(a, b, |b.shape|), axis, Composition())
  }

  lemma KeepsPairs()
    ensures KeepsShape(Composition())
  {
    hide ComposePairs;
  }

  /** Component c of a pair tensor. */
  function Component(pairs: Tensor, c: nat, shape: Shape): (r: Tensor)
    requires pairs.shape == shape + [2] && c < 2
    ensures r.shape == shape
  {
    hide Size, Narrow;
    SizeMerge(shape, [], []);
    EmptyShape();
    assert shape + [] + [] == shape && shape + [1] + [] == shape + [1];
    assert (shape + [2])[|shape| := 1] == shape + [1];
    Reshape(Narrow(pairs, |shape|, c, 1), shape)
  }

  lemma ComponentAt(pairs: Tensor, c: nat, shape: Shape, I: Index)
    requires pairs.shape == shape + [2] && c < 2 && Valid(shape, I)
    ensures At(Component(pairs, c, shape), I) == At(pairs, I + [c])
  {
    hide Size, At, Narrow, Flat;
    assert pairs.shape[..|pairs.shape| - 1] == shape;
    PairNarrow(pairs, I, c);
    FlatMerge(shape, [], [], I, [], []);
    SizeMerge(shape, [], []);
    EmptyShape();
    assert shape + [] + [] == shape && shape + [1] + [] == shape + [1] == (shape + [2])[|shape| := 1];
    assert I + [] + [] == I && I + [0] + [] == I + [0];
    ReshapeAt(Narrow(pairs, |shape|, c, 1), shape, I, I + [0]);
  }

  /** The recurrence s(0) = b(0), s(k) = a(k) s(k-1) + b(k) at one position J of the other axes. */
  function State(b: Tensor, a: Tensor, axis: nat, J: Index, k: nat): real
  {
    var here := At(b, Insert(J, axis, k));
    if k == 0 then here else Times(At(a, Insert(J, axis, k)), State(b, a, axis, J, k - 1)) + here
  }

  /** The product of the multipliers up to k. */
  function Product(a: Tensor, axis: nat, J: Index, k: nat): real
  {
    var here := At(a, Insert(J, axis, k));
    if k == 0 then here else Times(here, Product(a, axis, J, k - 1))
  }

  /** The recurrence from an explicit initial state; every multiplier takes part. */
  function StateFrom(b: Tensor, a: Tensor, initial: Tensor, axis: nat, J: Index, k: nat): real
  {
    var previous := if k == 0 then At(initial, J) else StateFrom(b, a, initial, axis, J, k - 1);
    Times(At(a, Insert(J, axis, k)), previous) + At(b, Insert(J, axis, k))
  }

  lemma StackedAt(b: Tensor, a: Tensor, I: Index)
    requires a.shape == b.shape && Valid(b.shape, I)
    ensures var s := StackTwo(a, b, |b.shape|);
      At(s, I + [0]) == At(a, I) && At(s, I + [1]) == At(b, I)
  {
    hide Size, At, Slab, StackTwo, Valid;
    var s, r := StackTwo(a, b, |b.shape|), |b.shape|;
    StackSlab(a, b, r);
    assert s.shape == b.shape + [2];
    PairValid(b.shape, I);
    SlabReads(s, r, I + [0]);
    SlabReads(s, r, I + [1]);
    ValidSize(b.shape, I);
    assert Remove(I + [0], r) == I && Remove(I + [1], r) == I;
  }

  lemma StackedSlabAt(b: Tensor, a: Tensor, axis: nat, J: Index, k: nat)
    requires AffineOk(b, a, axis) && Valid(Without(b.shape, axis), J) && k < b.shape[axis]
    ensures var s := StackTwo(a, b, |b.shape|);
      && Without(s.shape, axis) == Without(b.shape, axis) + [2]
      && At(Slab(s, axis, k), J + [0]) == At(a, Insert(J, axis, k)) && At(Slab(s, axis, k), J + [1]) == At(b, Insert(J, axis, k))
  {
    hide Size, At, StackTwo, Valid, Insert, Without;
    var s := StackTwo(a, b, |b.shape|);
    assert s.shape == b.shape + [2];
    PairGeometry(b.shape, axis, J, k);
    InsertValid(b.shape, axis, J, k);
    StackedAt(b, a, Insert(J, axis, k));
  }

  /** A prefix composition holds the product of the multipliers and the state of the recurrence. */
  lemma {:induction false} FoldIsState(b: Tensor, a: Tensor, axis: nat, J: Index, k: nat)
    requires AffineOk(b, a, axis) && Valid(Without(b.shape, axis), J) && k < b.shape[axis]
    ensures var s := StackTwo(a, b, |b.shape|);
      && axis < |s.shape| && s.shape[axis] == b.shape[axis]
      && var fold := Fold(SlabsOf(s, axis)[..k + 1], Composition());
        fold.shape == Without(b.shape, axis) + [2]
        && At(fold, J + [0]) == Product(a, axis, J, k) && At(fold, J + [1]) == State(b, a, axis, J, k)
  {
    hide Size, At, Times, Slab, StackTwo, ComposePairs, Valid, Insert, Fold;
    var s := StackTwo(a, b, |b.shape|);
    assert s.shape == b.shape + [2];
    var xs := SlabsOf(s, axis);
    StackedSlabAt(b, a, axis, J, k);
    FoldStep(xs, Composition(), k);
    if k > 0 {
      FoldIsState(b, a, axis, J, k - 1);
      var shape := Without(b.shape, axis) + [2];
      assert shape[..|shape| - 1] == Without(b.shape, axis);
      ComposeAt(Fold(xs[..k], Composition()), xs[k], J);
    }
  }

  lemma PrefixPairsAt(b: Tensor, a: Tensor, axis: nat, J: Index, k: nat)
    requires AffineOk(b, a, axis) && Valid(Without(b.shape, axis), J) && k < b.shape[axis]
    ensures At(PrefixPairs(b, a, axis), Insert(J, axis, k) + [0]) == Product(a, axis, J, k)
    ensures At(PrefixPairs(b, a, axis), Insert(J, axis, k) + [1]) == State(b, a, axis, J, k)
  {
    hide Size, At, Times, StackTwo, ComposePairs, Valid, PrefixTree, Slabwise, KeepsShape, Associative, Fold, State, Product, Insert, Without;
    var s, slab := StackTwo(a, b, |b.shape|), Without(b.shape, axis) + [2];
    assert s.shape == b.shape + [2];
    PairGeometry(b.shape, axis, J, k);
    CompositionSlabs(axis, slab);
    CompositionAssociative(slab);
    PrefixTreeScans(s, axis, Composition(), Composition());
    FoldIsState(b, a, axis, J, k);
    var r := PrefixPairs(b, a, axis);
    assert Slab(r, axis, k) == Fold(SlabsOf(s, axis)[..k + 1], Composition());
  }

  /** The affine scan: the offsets of the prefix compositions. */
  function AffineStates(b: Tensor, a: Tensor, axis: nat): (r: Tensor)
    requires AffineOk(b, a, axis)
    ensures r.shape == b.shape
  {
    Component(PrefixPairs(b, a, axis), 1, b.shape)
  }

  function AffineScan(b: Tensor, a: Tensor, axis: nat): Option<Tensor>
  {
    if AffineOk(b, a, axis) then Some(AffineStates(b, a, axis)) else None
  }

  /** An affine scan solves the recurrence, without using the first multiplier. */
  lemma AffineSolves(b: Tensor, a: Tensor, axis: nat, J: Index, k: nat)
    requires AffineOk(b, a, axis) && Valid(Without(b.shape, axis), J) && k < b.shape[axis]
    ensures At(AffineStates(b, a, axis), Insert(J, axis, k)) == State(b, a, axis, J, k)
  {
    hide Size, At, Component, PrefixPairs, State, Valid;
    PrefixPairsAt(b, a, axis, J, k);
    InsertValid(b.shape, axis, J, k);
    ComponentAt(PrefixPairs(b, a, axis), 1, b.shape, Insert(J, axis, k));
  }

  // ----- explicit initial states -----

  function Identity(n: nat): seq<nat>
  {
    seq(n, (a: nat) => a)
  }

  /** The initial state repeated along the scan axis. */
  function Repeated(initial: Tensor, axis: nat, shape: Shape): (r: Tensor)
    requires axis < |shape| && initial.shape == Without(shape, axis)
    ensures r.shape == shape
  {
    Broadcast(Unsqueeze(initial, axis), shape, Identity(|shape|))
  }

  lemma RepeatedAt(initial: Tensor, axis: nat, shape: Shape, J: Index, k: nat)
    requires axis < |shape| && initial.shape == Without(shape, axis) && Valid(initial.shape, J) && k < shape[axis]
    ensures At(Repeated(initial, axis, shape), Insert(J, axis, k)) == At(initial, J)
  {
    hide Size, At, Unsqueeze;
    InsertValid(shape, axis, J, k);
    UnsqueezeAt(initial, axis, J);
    var u, I := Unsqueeze(initial, axis).shape, Insert(J, axis, k);
    forall d: nat | d < |u| ensures BroadcastIx(u, Identity(|shape|), I)[d] == Insert(J, axis, 0)[d] {
      if d != axis {
        assert u[d] == shape[d] && 0 <= I[d] < shape[d] && I[d] == Insert(J, axis, 0)[d];
      }
    }
    assert BroadcastIx(u, Identity(|shape|), I) == Insert(J, axis, 0);
  }

  predicate FromOk(b: Tensor, a: Tensor, initial: Tensor, axis: nat)
  {
    AffineOk(b, a, axis) && initial.shape == Without(b.shape, axis)
  }

  function AffineStatesFrom(b: Tensor, a: Tensor, initial: Tensor, axis: nat): (r: Tensor)
    requires FromOk(b, a, initial, axis)
    ensures r.shape == b.shape
  {
    hide Size, PrefixPairs, Component, Repeated, Hadamard, Plus;
    var pairs := PrefixPairs(b, a, axis);
    Plus(Hadamard(Component(pairs, 0, b.shape), Repeated(initial, axis, b.shape)), Component(pairs, 1, b.shape))
  }

  function AffineScanFrom(b: Tensor, a: Tensor, initial: Tensor, axis: nat): Option<Tensor>
  {
    if FromOk(b, a, initial, axis) then Some(AffineStatesFrom(b, a, initial, axis)) else None
  }

  lemma {:induction false} StateFromPairs(b: Tensor, a: Tensor, initial: Tensor, axis: nat, J: Index, k: nat)
    ensures Times(Product(a, axis, J, k), At(initial, J)) + State(b, a, axis, J, k) == StateFrom(b, a, initial, axis, J, k)
  {
    hide Times, At;
    if k > 0 {
      StateFromPairs(b, a, initial, axis, J, k - 1);
      var m := At(a, Insert(J, axis, k));
      TimesAssoc(m, Product(a, axis, J, k - 1), At(initial, J));
      TimesAdd(m, Times(Product(a, axis, J, k - 1), At(initial, J)), State(b, a, axis, J, k - 1));
    }
  }

  /** A seeded affine scan solves the recurrence from the given initial state. */
  lemma AffineFromSolves(b: Tensor, a: Tensor, initial: Tensor, axis: nat, J: Index, k: nat)
    requires FromOk(b, a, initial, axis) && Valid(Without(b.shape, axis), J) && k < b.shape[axis]
    ensures At(AffineStatesFrom(b, a, initial, axis), Insert(J, axis, k)) == StateFrom(b, a, initial, axis, J, k)
  {
    hide Size, At, Times, Component, PrefixPairs, State, StateFrom, Product, Valid, Repeated, Insert;
    var I := Insert(J, axis, k);
    InsertValid(b.shape, axis, J, k);
    PrefixPairsAt(b, a, axis, J, k);
    ComponentAt(PrefixPairs(b, a, axis), 0, b.shape, I);
    ComponentAt(PrefixPairs(b, a, axis), 1, b.shape, I);
    RepeatedAt(initial, axis, b.shape, J, k);
    StateFromPairs(b, a, initial, axis, J, k);
  }

  /** The operation accepts exactly operands of one shape with an axis in range, and then answers the recurrence's states. */
  lemma AffineScanMeaning(b: Tensor, a: Tensor, axis: nat)
    ensures var r := AffineScan(b, a, axis);
      && (r.Some? <==> axis < |b.shape| && a.shape == b.shape)
      && (r.Some? ==> r.value.shape == b.shape && forall J, k: nat :: Valid(Without(b.shape, axis), J) && k < b.shape[axis] ==>
        At(r.value, Insert(J, axis, k)) == State(b, a, axis, J, k))
  {
    hide Size, At, AffineStates, State, Valid, Insert;
    if AffineOk(b, a, axis) {
      forall J, k: nat | Valid(Without(b.shape, axis), J) && k < b.shape[axis]
        ensures At(AffineStates(b, a, axis), Insert(J, axis, k)) == State(b, a, axis, J, k)
      {
        AffineSolves(b, a, axis, J, k);
      }
    }
  }

  /** With an initial state, its shape must be the operands' without the axis. */
  lemma AffineScanFromMeaning(b: Tensor, a: Tensor, initial: Tensor, axis: nat)
    ensures var r := AffineScanFrom(b, a, initial, axis);
      && (r.Some? <==> axis < |b.shape| && a.shape == b.shape && initial.shape == Without(b.shape, axis))
      && (r.Some? ==> r.value.shape == b.shape && forall J, k: nat :: Valid(Without(b.shape, axis), J) && k < b.shape[axis] ==>
        At(r.value, Insert(J, axis, k)) == StateFrom(b, a, initial, axis, J, k))
  {
    hide Size, At, AffineStatesFrom, StateFrom, Valid, Insert, Without;
    if FromOk(b, a, initial, axis) {
      forall J, k: nat | Valid(Without(b.shape, axis), J) && k < b.shape[axis]
        ensures At(AffineStatesFrom(b, a, initial, axis), Insert(J, axis, k)) == StateFrom(b, a, initial, axis, J, k)
      {
        AffineFromSolves(b, a, initial, axis, J, k);
      }
    }
  }

  // ----- splitting a scan -----

  lemma {:induction false} StateSplit(b: Tensor, a: Tensor, b1: Tensor, a1: Tensor, b2: Tensor, a2: Tensor, axis: nat, J: Index, k: nat)
    requires Joinable(b1, b2, axis) && Joinable(a1, a2, axis) && a1.shape == b1.shape && a2.shape == b2.shape
    requires b == Join(b1, b2, axis) && a == Join(a1, a2, axis) && b1.shape[axis] > 0
    requires Valid(Without(b1.shape, axis), J) && k < b.shape[axis]
    ensures var last := Slab(AffineStates(b1, a1, axis), axis, b1.shape[axis] - 1);
      State(b, a, axis, J, k)
        == if k < b1.shape[axis] then State(b1, a1, axis, J, k) else StateFrom(b2, a2, last, axis, J, k - b1.shape[axis])
  {
    hide Size, At, Times, Join, AffineStates, Valid, Insert;
    var n := b1.shape[axis];
    JoinAt(b1, b2, axis, J, k);
    JoinAt(a1, a2, axis, J, k);
    if k > 0 {
      StateSplit(b, a, b1, a1, b2, a2, axis, J, k - 1);
      if k == n {
        AffineSolves(b1, a1, axis, J, n - 1);
      }
    }
  }

  lemma SameWithout(a: Tensor, b: Tensor, axis: nat)
    requires Joinable(a, b, axis)
    ensures axis < |a.shape| && axis < |b.shape| && Without(b.shape, axis) == Without(a.shape, axis)
  {
  }

  lemma SameJoin(a: Tensor, b: Tensor, c: Tensor, d: Tensor, axis: nat)
    requires Joinable(a, b, axis) && c.shape == a.shape && d.shape == b.shape
    ensures Joinable(c, d, axis) && Join(c, d, axis).shape == Join(a, b, axis).shape
  {
  }

  /** Scan one block, then scan the next from the first block's last state. */
  function BlockScan(b1: Tensor, a1: Tensor, b2: Tensor, a2: Tensor, axis: nat): (r: Tensor)
    requires Joinable(b1, b2, axis) && Joinable(a1, a2, axis) && a1.shape == b1.shape && a2.shape == b2.shape
    requires b1.shape[axis] > 0
    ensures r.shape == Join(b1, b2, axis).shape
  {
    hide Size, Join, AffineStates, AffineStatesFrom, Slab, Joinable, Without;
    SameWithout(b1, b2, axis);
    var first := AffineStates(b1, a1, axis);
    var second := AffineStatesFrom(b2, a2, Slab(first, axis, b1.shape[axis] - 1), axis);
    SameJoin(b1, b2, first, second, axis);
    Join(first, second, axis)
  }

  lemma BlockScanAt(b1: Tensor, a1: Tensor, b2: Tensor, a2: Tensor, axis: nat, J: Index, k: nat)
    requires Joinable(b1, b2, axis) && Joinable(a1, a2, axis) && a1.shape == b1.shape && a2.shape == b2.shape
    requires b1.shape[axis] > 0 && Valid(Without(b1.shape, axis), J) && k < b1.shape[axis] + b2.shape[axis]
    ensures At(BlockScan(b1, a1, b2, a2, axis), Insert(J, axis, k))
         == State(Join(b1, b2, axis), Join(a1, a2, axis), axis, J, k)
  {
    hide Size, At, Times, Join, AffineStates, AffineStatesFrom, Valid, Insert, Slab, State, StateFrom;
    var n := b1.shape[axis];
    var first := AffineStates(b1, a1, axis);
    var last := Slab(first, axis, n - 1);
    assert Without(b2.shape, axis) == Without(b1.shape, axis);
    StateSplit(Join(b1, b2, axis), Join(a1, a2, axis), b1, a1, b2, a2, axis, J, k);
    JoinAt(first, AffineStatesFrom(b2, a2, last, axis), axis, J, k);
    if k < n {
      AffineSolves(b1, a1, axis, J, k);
    } else {
      AffineFromSolves(b2, a2, last, axis, J, k - n);
    }
  }

  /** Scanning a concatenation is scanning its first block and seeding the second with the last state. */
  lemma ScanConcatenation(b1: Tensor, a1: Tensor, b2: Tensor, a2: Tensor, axis: nat)
    requires Joinable(b1, b2, axis) && Joinable(a1, a2, axis) && a1.shape == b1.shape && a2.shape == b2.shape
    requires b1.shape[axis] > 0
    ensures AffineStates(Join(b1, b2, axis), Join(a1, a2, axis), axis) == BlockScan(b1, a1, b2, a2, axis)
  {
    hide Size, At, Join, AffineStates, BlockScan, Valid, Insert, Remove, State;
    var b, a := Join(b1, b2, axis), Join(a1, a2, axis);
    assert Without(b.shape, axis) == Without(b1.shape, axis);
    var whole, blocks := AffineStates(b, a, axis), BlockScan(b1, a1, b2, a2, axis);
    forall I: Index | Valid(b.shape, I) ensures At(whole, I) == At(blocks, I) {
      RemoveValid(b.shape, axis, I);
      ValidAt(b.shape, I, axis);
      var J, k: nat := Remove(I, axis), I[axis];
      AffineSolves(b, a, axis, J, k);
      BlockScanAt(b1, a1, b2, a2, axis, J, k);
    }
    Ext(whole, blocks);
  }

  lemma ValidAt(s: Shape, I: Index, axis: nat)
    requires Valid(s, I) && axis < |s|
    ensures |I| == |s| && 0 <= I[axis] < s[axis]
  {
  }
}
