/** Prefix scans of tensors along one axis: the tree, the doubling loop and what both compute. */
module Scans {
  import opened Products
  import opened Shapes
  import opened Tensors
  import opened TensorOps
  import opened Slabs
  import opened Folds

  type Combine = (Tensor, Tensor) -> Tensor

  ghost predicate KeepsShape(f: Combine)
  {
    forall a: Tensor, b: Tensor {:trigger f(a, b)} :: a.shape == b.shape ==> f(a, b).shape == a.shape
  }

  /** f combines each pair of slabs by op, independently of the other slabs. */
  ghost predicate Slabwise(f: Combine, op: Combine, axis: nat, slab: Shape)
  {
    forall a: Tensor, b: Tensor, k: int {:trigger Slab(f(a, b), axis, k)} :: Aligned(a, b, axis, slab) && 0 <= k < a.shape[axis] && f(a, b).shape == a.shape ==>
      Slab(f(a, b), axis, k) == op(Slab(a, axis, k), Slab(b, axis, k))
  }

  predicate Aligned(a: Tensor, b: Tensor, axis: nat, slab: Shape)
  {
    axis < |a.shape| && a.shape == b.shape && Without(a.shape, axis) == slab
  }

  function OfShape(s: Shape): Tensor -> bool
  {
    (t: Tensor) => t.shape == s
  }

  function SlabsOf(t: Tensor, axis: nat): (r: seq<Tensor>)
    requires axis < |t.shape|
    ensures |r| == t.shape[axis] && forall k :: 0 <= k < |r| ==> r[k] == Slab(t, axis, k)
  {
    seq(t.shape[axis], (k: nat) => Slab(t, axis, k))
  }

  lemma HalfDims(n: nat)
    requires n > 0
    ensures SliceDim(SliceAxis(0, n, 2)) == (n + 1) / 2 && SliceDim(SliceAxis(1, n, 2)) == n / 2
  {
  }

  function EvenSlabs(t: Tensor, axis: nat): (r: Tensor)
    requires axis < |t.shape| && t.shape[axis] > 0
    ensures r.shape == t.shape[axis := (t.shape[axis] + 1) / 2]
  {
    HalfDims(t.shape[axis]);
    SliceAlong(t, axis, 0, t.shape[axis], 2)
  }

  function OddSlabs(t: Tensor, axis: nat): (r: Tensor)
    requires axis < |t.shape| && t.shape[axis] > 0
    ensures r.shape == t.shape[axis := t.shape[axis] / 2]
  {
    HalfDims(t.shape[axis]);
    SliceAlong(t, axis, 1, t.shape[axis], 2)
  }

  /** Neighbouring slabs combined, two by two. */
  function PairSlabs(t: Tensor, axis: nat, f: Combine): (r: Tensor)
    requires axis < |t.shape| && t.shape[axis] > 0 && KeepsShape(f)
    ensures r.shape == t.shape[axis := t.shape[axis] / 2]
  {
    hide Size, SliceDim, EvenSlabs, OddSlabs;
    f(Narrow(EvenSlabs(t, axis), axis, 0, t.shape[axis] / 2), OddSlabs(t, axis))
  }

  lemma Resized(s: Shape, axis: nat, a: nat, b: nat)
    requires axis < |s|
    ensures s[axis := a][axis := b] == s[axis := b] && s[axis := s[axis]] == s
  {
  }

  lemma JoinableParts(a: Tensor, b: Tensor, s: Shape, axis: nat, m: nat, n: nat)
    requires axis < |s| && a.shape == s[axis := m] && b.shape == s[axis := n]
    ensures Joinable(a, b, axis) && a.shape[axis := a.shape[axis] + b.shape[axis]] == s[axis := m + n]
  {
  }

  function EvenPrefixSlabs(t: Tensor, odd: Tensor, axis: nat, f: Combine): (r: Tensor)
    requires axis < |t.shape| && t.shape[axis] > 1 && KeepsShape(f) && odd.shape == t.shape[axis := t.shape[axis] / 2]
    ensures r.shape == t.shape[axis := (t.shape[axis] + 1) / 2]
  {
    hide Size, SliceDim, EvenSlabs, Narrow, Join, Joinable;
    var n := t.shape[axis];
    var remaining := n - n / 2 - 1;
    var first := Narrow(t, axis, 0, 1);
    if remaining == 0 then first
    else
      Resized(t.shape, axis, n / 2, remaining);
      Resized(t.shape, axis, (n + 1) / 2, remaining);
      assert 1 + remaining == (n + 1) / 2;
      var tail := f(Narrow(odd, axis, 0, remaining), Narrow(EvenSlabs(t, axis), axis, 1, remaining));
      JoinableParts(first, tail, t.shape, axis, 1, remaining);
      Join(first, tail, axis)
  }

  function SpreadSlabs(t: Tensor, odd: Tensor, axis: nat, f: Combine): (r: Tensor)
    requires axis < |t.shape| && t.shape[axis] > 1 && KeepsShape(f) && odd.shape == t.shape[axis := t.shape[axis] / 2]
    ensures r.shape == t.shape
  {
    hide Size, SliceDim, EvenPrefixSlabs, Narrow, Join, Joinable, Interleave;
    var n, even := t.shape[axis], EvenPrefixSlabs(t, odd, axis, f);
    Resized(t.shape, axis, (n + 1) / 2, n / 2);
    Resized(t.shape, axis, n / 2, 2 * (n / 2));
    var merged := Interleave(Narrow(even, axis, 0, n / 2), odd, axis);
    if n % 2 == 0 then merged
    else
      Resized(t.shape, axis, (n + 1) / 2, 1);
      var last := Narrow(even, axis, n / 2, 1);
      JoinableParts(merged, last, t.shape, axis, 2 * (n / 2), 1);
      Join(merged, last, axis)
  }

  /** The tree scan of a tensor along one axis. */
  function PrefixTree(t: Tensor, axis: nat, f: Combine): (r: Tensor)
    requires axis < |t.shape| && KeepsShape(f)
    ensures r.shape == t.shape
    decreases if axis < |t.shape| then t.shape[axis] else 0
  {
    hide Size, PairSlabs, SpreadSlabs;
    if t.shape[axis] <= 1 || 0 in t.shape then t
    else SpreadSlabs(t, PrefixTree(PairSlabs(t, axis, f), axis, f), axis, f)
  }

  lemma WithoutResized(s: Shape, axis: nat, n: nat)
    requires axis < |s|
    ensures Without(s[axis := n], axis) == Without(s, axis)
  {
  }

  lemma CombineSlab(f: Combine, op: Combine, axis: nat, slab: Shape, a: Tensor, b: Tensor, k: nat)
    requires KeepsShape(f) && Slabwise(f, op, axis, slab) && Aligned(a, b, axis, slab) && k < a.shape[axis]
    ensures f(a, b).shape == a.shape && Slab(f(a, b), axis, k) == op(Slab(a, axis, k), Slab(b, axis, k))
  {
    hide Size, Slab, Without;
  }

  lemma EvenSlab(t: Tensor, axis: nat, k: nat)
    requires axis < |t.shape| && 2 * k < t.shape[axis]
    ensures Slab(EvenSlabs(t, axis), axis, k) == Slab(t, axis, 2 * k)
  {
    hide Size, Slab;
    HalfDims(t.shape[axis]);
    SliceAlongSlab(t, axis, 0, t.shape[axis], 2, k);
  }

  lemma OddSlab(t: Tensor, axis: nat, k: nat)
    requires axis < |t.shape| && 2 * k + 1 < t.shape[axis]
    ensures Slab(OddSlabs(t, axis), axis, k) == Slab(t, axis, 2 * k + 1)
  {
    hide Size, Slab;
    HalfDims(t.shape[axis]);
    SliceAlongSlab(t, axis, 1, t.shape[axis], 2, k);
  }

  lemma PairSlab(t: Tensor, axis: nat, f: Combine, op: Combine, k: nat)
    requires axis < |t.shape| && KeepsShape(f) && Slabwise(f, op, axis, Without(t.shape, axis)) && k < t.shape[axis] / 2
    ensures Slab(PairSlabs(t, axis, f), axis, k) == op(Slab(t, axis, 2 * k), Slab(t, axis, 2 * k + 1))
  {
    hide Size, Slab, Slabwise, KeepsShape, EvenSlabs, OddSlabs, Narrow, Without;
    var n := t.shape[axis];
    WithoutResized(t.shape, axis, n / 2);
    Resized(t.shape, axis, (n + 1) / 2, n / 2);
    var even, odd := Narrow(EvenSlabs(t, axis), axis, 0, n / 2), OddSlabs(t, axis);
    CombineSlab(f, op, axis, Without(t.shape, axis), even, odd, k);
    NarrowSlab(EvenSlabs(t, axis), axis, 0, n / 2, k);
    EvenSlab(t, axis, k);
    OddSlab(t, axis, k);
  }

  lemma EvenPrefixSlab(t: Tensor, odd: Tensor, axis: nat, f: Combine, op: Combine, j: nat)
    requires axis < |t.shape| && t.shape[axis] > 1 && KeepsShape(f) && odd.shape == t.shape[axis := t.shape[axis] / 2]
    requires Slabwise(f, op, axis, Without(t.shape, axis)) && 2 * j < t.shape[axis]
    ensures Slab(EvenPrefixSlabs(t, odd, axis, f), axis, j)
         == if j == 0 then Slab(t, axis, 0) else op(Slab(odd, axis, j - 1), Slab(t, axis, 2 * j))
  {
    hide Size, Slab, Slabwise, KeepsShape, EvenSlabs, OddSlabs, Narrow, Without, Join, Joinable;
    var n := t.shape[axis];
    var remaining := n - n / 2 - 1;
    var first := Narrow(t, axis, 0, 1);
    NarrowSlab(t, axis, 0, 1, 0);
    if remaining > 0 {
      Resized(t.shape, axis, n / 2, remaining);
      Resized(t.shape, axis, (n + 1) / 2, remaining);
      WithoutResized(t.shape, axis, remaining);
      var a, b := Narrow(odd, axis, 0, remaining), Narrow(EvenSlabs(t, axis), axis, 1, remaining);
      var tail := f(a, b);
      if j == 0 {
        CombineSlab(f, op, axis, Without(t.shape, axis), a, b, 0);
      } else {
        CombineSlab(f, op, axis, Without(t.shape, axis), a, b, j - 1);
        NarrowSlab(odd, axis, 0, remaining, j - 1);
        NarrowSlab(EvenSlabs(t, axis), axis, 1, remaining, j - 1);
        EvenSlab(t, axis, j);
      }
      JoinableParts(first, tail, t.shape, axis, 1, remaining);
      JoinSlab(first, tail, axis, j);
    }
  }

  lemma SpreadSlab(t: Tensor, odd: Tensor, axis: nat, f: Combine, op: Combine, k: nat)
    requires axis < |t.shape| && t.shape[axis] > 1 && KeepsShape(f) && odd.shape == t.shape[axis := t.shape[axis] / 2]
    requires Slabwise(f, op, axis, Without(t.shape, axis)) && k < t.shape[axis]
    ensures k % 2 == 1 ==> Slab(SpreadSlabs(t, odd, axis, f), axis, k) == Slab(odd, axis, k / 2)
    ensures k % 2 == 0 ==> Slab(SpreadSlabs(t, odd, axis, f), axis, k) == Slab(EvenPrefixSlabs(t, odd, axis, f), axis, k / 2)
  {
    hide Size, Slab, Slabwise, KeepsShape, EvenPrefixSlabs, Narrow, Without, Join, Joinable, Interleave;
    var n, even := t.shape[axis], EvenPrefixSlabs(t, odd, axis, f);
    Resized(t.shape, axis, (n + 1) / 2, n / 2);
    Resized(t.shape, axis, n / 2, 2 * (n / 2));
    var front := Narrow(even, axis, 0, n / 2);
    var merged := Interleave(front, odd, axis);
    if k < 2 * (n / 2) {
      InterleaveSlab(front, odd, axis, k);
      NarrowSlab(even, axis, 0, n / 2, k / 2);
    }
    if n % 2 == 1 {
      Resized(t.shape, axis, (n + 1) / 2, 1);
      var last := Narrow(even, axis, n / 2, 1);
      JoinableParts(merged, last, t.shape, axis, 2 * (n / 2), 1);
      JoinSlab(merged, last, axis, k);
      NarrowSlab(even, axis, n / 2, 1, 0);
    }
  }

  /** Slab by slab, the tensor scan is the sequence tree on the slabs. */
  lemma {:induction false} PrefixTreeIsTree(t: Tensor, axis: nat, f: Combine, op: Combine)
    requires axis < |t.shape| && KeepsShape(f) && Slabwise(f, op, axis, Without(t.shape, axis)) && 0 !in t.shape
    ensures SlabsOf(PrefixTree(t, axis, f), axis) == Tree(SlabsOf(t, axis), op).values
    decreases if axis < |t.shape| then t.shape[axis] else 0
  {
    hide Size, Slab, Slabwise, KeepsShape, PairSlabs, SpreadSlabs, EvenPrefixSlabs, Without, Spread, Pairs;
    var xs, n := SlabsOf(t, axis), t.shape[axis];
    if n > 1 {
      var p := PairSlabs(t, axis, f);
      WithoutResized(t.shape, axis, n / 2);
      assert 0 !in p.shape;
      PrefixTreeIsTree(p, axis, f, op);
      assert SlabsOf(p, axis) == Pairs(xs, op) by {
        forall k: nat | k < n / 2 ensures SlabsOf(p, axis)[k] == Pairs(xs, op)[k] {
          PairSlab(t, axis, f, op, k);
        }
      }
      var odd := PrefixTree(p, axis, f);
      forall k: nat | k < n ensures SlabsOf(PrefixTree(t, axis, f), axis)[k] == Spread(xs, SlabsOf(odd, axis), op)[k] {
        SpreadAt(xs, SlabsOf(odd, axis), op, k);
        SpreadSlab(t, odd, axis, f, op, k);
        if k % 2 == 0 {
          EvenPrefixSlab(t, odd, axis, f, op, k / 2);
        }
      }
    }
  }

  lemma EmptyUnique(a: Tensor, b: Tensor)
    requires a.shape == b.shape && 0 in a.shape
    ensures a == b
  {
    hide Size, At;
    forall I ensures !Valid(a.shape, I) { NoIndex(a.shape, I); }
    Ext(a, b);
  }

  /** What an inclusive scan must compute. */
  ghost predicate IsScan(r: Tensor, t: Tensor, axis: nat, op: Combine)
  {
    && r.shape == t.shape && axis < |t.shape|
    && forall k :: 0 <= k < t.shape[axis] ==> Slab(r, axis, k) == Fold(SlabsOf(t, axis)[..k + 1], op)
  }

  /** The tree scan is the sequential fold, for every slabwise associative combination, any axis and any length. */
  lemma PrefixTreeScans(t: Tensor, axis: nat, f: Combine, op: Combine)
    requires axis < |t.shape| && KeepsShape(f) && Slabwise(f, op, axis, Without(t.shape, axis))
    requires Associative(op, OfShape(Without(t.shape, axis)))
    ensures IsScan(PrefixTree(t, axis, f), t, axis, op)
  {
    hide Size, Slab, Slabwise, KeepsShape, PrefixTree, Fold, Associative, Tree;
    var P, xs := OfShape(Without(t.shape, axis)), SlabsOf(t, axis);
    var r := PrefixTree(t, axis, f);
    assert All(P, xs);
    forall k: nat | k < t.shape[axis] ensures Slab(r, axis, k) == Fold(xs[..k + 1], op) {
      if 0 in t.shape {
        FoldIn(xs[..k + 1], op, P);
        assert 0 in Without(t.shape, axis) by {
          var d: nat :| d < |t.shape| && t.shape[d] == 0;
          assert Without(t.shape, axis)[if d < axis then d else d - 1] == 0;
        }
        EmptyUnique(Slab(r, axis, k), Fold(xs[..k + 1], op));
      } else {
        PrefixTreeIsTree(t, axis, f, op);
        TreeFolds(xs, op, P, k);
        assert Slab(r, axis, k) == SlabsOf(r, axis)[k];
      }
    }
  }

  lemma ScanUnique(a: Tensor, b: Tensor, t: Tensor, axis: nat, op: Combine)
    requires IsScan(a, t, axis, op) && IsScan(b, t, axis, op)
    ensures a == b
  {
    hide Size, Slab, Fold;
    SlabExt(a, b, axis);
  }

  // ----- the doubling loop -----

  newtype I64 = x: int | -0x8000_0000_0000_0000 <= x < 0x8000_0000_0000_0000

  /** The last d of the first k + 1 inputs, or all of them. */
  function Window<T>(xs: seq<T>, k: nat, d: nat): (r: seq<T>)
    requires k < |xs| && d > 0
    ensures |r| > 0
  {
    if k + 1 <= d then xs[..k + 1] else xs[k + 1 - d..k + 1]
  }

  lemma WindowsMeet<T>(xs: seq<T>, k: nat, d: nat)
    requires d > 0 && d <= k < |xs|
    ensures Window(xs, k, 2 * d) == Window(xs, k - d, d) + Window(xs, k, d)
  {
  }

  /** Combining a window with the window just before it doubles its width, later operand first. */
  lemma WindowDoubles<T(!new)>(xs: seq<T>, k: nat, d: nat, op: (T, T) -> T, P: T -> bool)
    requires k < |xs| && d > 0 && All(P, xs) && Associative(op, P) && Commutative(op, P)
    ensures k < d ==> Window(xs, k, 2 * d) == Window(xs, k, d)
    ensures k >= d ==> op(Fold(Window(xs, k, d), op), Fold(Window(xs, k - d, d), op)) == Fold(Window(xs, k, 2 * d), op)
  {
    hide Fold, Associative;
    if k >= d {
      var late, early := Window(xs, k, d), Window(xs, k - d, d);
      WindowsMeet(xs, k, d);
      FoldConcat(early, late, op, P);
      FoldIn(early, op, P);
      FoldIn(late, op, P);
      assert op(Fold(late, op), Fold(early, op)) == op(Fold(early, op), Fold(late, op));
    }
  }

  /** One stage: every slab from position d on is combined with the slab d places earlier. */
  function Stage(t: Tensor, axis: nat, f: Combine, d: nat): (r: Tensor)
    requires axis < |t.shape| && KeepsShape(f) && 0 < d < t.shape[axis]
    ensures r.shape == t.shape
  {
    hide Size, Narrow, Join, Joinable;
    var n := t.shape[axis];
    var prefix := Narrow(t, axis, 0, d);
    var tail := f(Narrow(t, axis, d, n - d), Narrow(t, axis, 0, n - d));
    JoinableParts(prefix, tail, t.shape, axis, d, n - d);
    Join(prefix, tail, axis)
  }

  lemma StageSlab(t: Tensor, axis: nat, f: Combine, op: Combine, d: nat, k: nat)
    requires axis < |t.shape| && KeepsShape(f) && Slabwise(f, op, axis, Without(t.shape, axis)) && 0 < d < t.shape[axis]
    requires k < t.shape[axis]
    ensures Slab(Stage(t, axis, f, d), axis, k) == if k < d then Slab(t, axis, k) else op(Slab(t, axis, k), Slab(t, axis, k - d))
  {
    hide Size, Slab, Slabwise, KeepsShape, Narrow, Without, Join, Joinable;
    var n := t.shape[axis];
    var prefix, late, early := Narrow(t, axis, 0, d), Narrow(t, axis, d, n - d), Narrow(t, axis, 0, n - d);
    WithoutResized(t.shape, axis, n - d);
    CombineSlab(f, op, axis, Without(t.shape, axis), late, early, if k < d then 0 else k - d);
    JoinableParts(prefix, f(late, early), t.shape, axis, d, n - d);
    JoinSlab(prefix, f(late, early), axis, k);
    if k < d {
      NarrowSlab(t, axis, 0, d, k);
    } else {
      NarrowSlab(t, axis, d, n - d, k - d);
      NarrowSlab(t, axis, 0, n - d, k - d);
    }
  }

  ghost predicate WindowsOf(r: Tensor, t: Tensor, axis: nat, op: Combine, d: nat)
  {
    && r.shape == t.shape && axis < |t.shape| && d > 0
    && forall k :: 0 <= k < t.shape[axis] ==> Slab(r, axis, k) == Fold(Window(SlabsOf(t, axis), k, d), op)
  }

  lemma StageWindows(r: Tensor, t: Tensor, axis: nat, f: Combine, op: Combine, d: nat)
    requires WindowsOf(r, t, axis, op, d) && d < t.shape[axis]
    requires KeepsShape(f) && Slabwise(f, op, axis, Without(t.shape, axis))
    requires Associative(op, OfShape(Without(t.shape, axis))) && Commutative(op, OfShape(Without(t.shape, axis)))
    ensures WindowsOf(Stage(r, axis, f, d), t, axis, op, 2 * d)
  {
    hide Size, Slab, Slabwise, KeepsShape, Stage, Fold, Associative, Commutative, Window;
    var P, xs := OfShape(Without(t.shape, axis)), SlabsOf(t, axis);
    assert All(P, xs);
    forall k: nat | k < t.shape[axis] ensures Slab(Stage(r, axis, f, d), axis, k) == Fold(Window(xs, k, 2 * d), op) {
      StageSlab(r, axis, f, op, d, k);
      WindowDoubles(xs, k, d, op, P);
    }
  }

  lemma EmptyOrSingle(t: Tensor, axis: nat, f: Combine)
    requires axis < |t.shape| && KeepsShape(f) && (t.shape[axis] <= 1 || 0 in t.shape)
    ensures PrefixTree(t, axis, f) == t
  {
    hide Size, KeepsShape;
  }

  lemma SingleWindows(t: Tensor, axis: nat, op: Combine)
    requires axis < |t.shape|
    ensures WindowsOf(t, t, axis, op, 1)
  {
    hide Size, Slab;
    var xs := SlabsOf(t, axis);
    forall k: nat | k < |xs| ensures Fold(Window(xs, k, 1), op) == Slab(t, axis, k) {
      assert Window(xs, k, 1) == [xs[k]];
    }
  }

  lemma FullWindows(r: Tensor, t: Tensor, axis: nat, op: Combine, d: nat)
    requires WindowsOf(r, t, axis, op, d) && d >= t.shape[axis]
    ensures IsScan(r, t, axis, op)
  {
    hide Size, Slab, Fold;
  }

  /** The doubling scan. Offsets stay within the axis length, so the 64-bit offset never overflows; the result is the
      sequential fold and therefore also what the tree computes. */
  method DoublingScan(t: Tensor, axis: nat, f: Combine, ghost op: Combine) returns (result: Tensor)
    requires axis < |t.shape| && t.shape[axis] < 0x8000_0000_0000_0000
    requires KeepsShape(f) && Slabwise(f, op, axis, Without(t.shape, axis))
    requires Associative(op, OfShape(Without(t.shape, axis))) && Commutative(op, OfShape(Without(t.shape, axis)))
    ensures IsScan(result, t, axis, op)
    ensures result == PrefixTree(t, axis, f)
  {
    hide Size, Slab, Slabwise, KeepsShape, Stage, Fold, Associative, Commutative, Window, PrefixTree, SlabsOf, Without;
    var length := t.shape[axis] as I64;
    PrefixTreeScans(t, axis, f, op);
    if length <= 1 || 0 in t.shape {
      EmptyOrSingle(t, axis, f);
      return t;
    }
    result := t;
    var offset: I64 := 1;
    SingleWindows(t, axis, op);
    ghost var width: nat := 1;
    while offset < length
      invariant 1 <= offset && width == offset as int
      invariant WindowsOf(result, t, axis, op, width)
      decreases length as int - offset as int
    {
      StageWindows(result, t, axis, f, op, width);
      result := Stage(result, axis, f, offset as nat);
      width := 2 * width;
      if offset >= length - offset {
        break;
      }
      offset := offset * 2;
    }
    FullWindows(result, t, axis, op, width);
    ScanUnique(result, PrefixTree(t, axis, f), t, axis, op);
  }
}
