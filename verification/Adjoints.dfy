/** Each linear tensor operation and the operation its reverse rule records are adjoint. */
module Adjoints {
  import opened Products
  import opened Sums
  import opened Shapes
  import opened IndexSums
  import opened Tensors
  import opened TensorOps

  // ----- bilinearity of the inner product -----

  lemma InnerCong(a: Tensor, b: Tensor, c: Tensor, d: Tensor)
    requires a.shape == b.shape == c.shape == d.shape
    requires forall I :: Valid(a.shape, I) ==> Times(At(a, I), At(b, I)) == Times(At(c, I), At(d, I))
    ensures Inner(a, b) == Inner(c, d)
  {
    hide Times, Size;
    SumIxCong(a.shape, (I: Index) => Times(At(a, I), At(b, I)), (I: Index) => Times(At(c, I), At(d, I)));
  }

  lemma InnerComm(a: Tensor, b: Tensor)
    requires a.shape == b.shape
    ensures Inner(a, b) == Inner(b, a)
  {
    hide Times, Size;
    forall I | Valid(a.shape, I) ensures Times(At(a, I), At(b, I)) == Times(At(b, I), At(a, I)) {
      TimesComm(At(a, I), At(b, I));
    }
    InnerCong(a, b, b, a);
  }

  lemma InnerAdd(y: Tensor, a: Tensor, b: Tensor, c: Tensor)
    requires y.shape == a.shape == b.shape == c.shape
    requires forall I :: Valid(y.shape, I) ==> At(c, I) == At(a, I) + At(b, I)
    ensures Inner(y, c) == Inner(y, a) + Inner(y, b)
    ensures Inner(c, y) == Inner(a, y) + Inner(b, y)
  {
    hide Times, Size;
    var f := (I: Index) => Times(At(y, I), At(a, I));
    var g := (I: Index) => Times(At(y, I), At(b, I));
    var h := (I: Index) => Times(At(y, I), At(c, I));
    forall I | Valid(y.shape, I) ensures h(I) == f(I) + g(I) {
      TimesAdd(At(y, I), At(a, I), At(b, I));
    }
    SumIxAdd(y.shape, f, g, h);
    InnerComm(y, a);
    InnerComm(y, b);
    InnerComm(y, c);
  }

  lemma InnerZero(a: Tensor, b: Tensor)
    requires a.shape == b.shape
    requires forall I :: Valid(a.shape, I) ==> At(b, I) == 0.0
    ensures Inner(a, b) == 0.0 && Inner(b, a) == 0.0
  {
    hide Times, Size;
    forall I | Valid(a.shape, I) ensures Times(At(a, I), At(b, I)) == 0.0 {
      TimesZero(At(a, I));
    }
    SumIxZero(a.shape, (I: Index) => Times(At(a, I), At(b, I)));
    InnerComm(a, b);
  }

  /** Multiplying elementwise is self-adjoint. */
  lemma HadamardAdjoint(y: Tensor, d: Tensor, x: Tensor)
    requires y.shape == d.shape == x.shape
    ensures Inner(y, Hadamard(d, x)) == Inner(Hadamard(y, d), x)
  {
    hide Times, Size;
    forall I | Valid(y.shape, I) ensures Times(At(y, I), At(Hadamard(d, x), I)) == Times(At(Hadamard(y, d), I), At(x, I)) {
      TimesAssoc(At(y, I), At(d, I), At(x, I));
    }
    InnerCong(y, Hadamard(d, x), Hadamard(y, d), x);
  }

  // ----- layout -----

  lemma ReshapeAdjoint(y: Tensor, x: Tensor)
    requires Size(y.shape) == Size(x.shape)
    ensures Inner(y, Reshape(x, y.shape)) == Inner(Reshape(y, x.shape), x)
  {
    hide Times, Size;
    var rx, ry := Reshape(x, y.shape), Reshape(y, x.shape);
    var f := (I: Index) => Times(At(y, I), At(rx, I));
    var g := (I: Index) => Times(At(ry, I), At(x, I));
    forall k: nat | k < Size(y.shape) ensures Pick(y.shape, f, k) == Pick(x.shape, g, k) {
      FlatUnflat(y.shape, k);
      FlatUnflat(x.shape, k);
    }
    SumCong(Size(y.shape), (k: nat) => Pick(y.shape, f, k), (k: nat) => Pick(x.shape, g, k));
  }

  lemma PermPos(perm: seq<nat>, a: nat)
    requires IsPerm(perm, |perm|) && a < |perm|
    ensures PosIn(perm, perm[a]) == a
  {
  }

  lemma InversePerm(perm: seq<nat>)
    requires IsPerm(perm, |perm|)
    ensures IsPerm(Inverse(perm), |perm|)
    ensures forall a: nat :: a < |perm| ==> PosIn(Inverse(perm), a) == perm[a]
    ensures Inverse(Inverse(perm)) == perm
  {
    var inv := Inverse(perm);
    forall p: nat | p < |perm| ensures inv[p] < |perm| && perm[inv[p]] == p {
      assert p in perm;
    }
    forall a: nat | a < |perm| ensures inv[perm[a]] == a && a in inv && PosIn(inv, a) == perm[a] {
      PermPos(perm, a);
      assert inv[perm[a]] == a;
      var q := PosIn(inv, a);
      assert perm[inv[q]] == q;
    }
    assert Inverse(inv) == perm;
  }

  lemma PermutedInverse(perm: seq<nat>, shape: Shape)
    requires IsPerm(perm, |shape|)
    ensures IsPerm(Inverse(perm), |shape|) && Permuted(Permuted(shape, perm), Inverse(perm)) == shape
  {
    InversePerm(perm);
    var inv := Inverse(perm);
    forall p: nat | p < |perm| ensures inv[p] < |perm| && Permuted(shape, perm)[inv[p]] == shape[p] {
      assert p in perm;
    }
  }

  lemma TransposeAdjoint(y: Tensor, x: Tensor, perm: seq<nat>)
    requires IsPerm(perm, |x.shape|)
    requires y.shape == Permuted(x.shape, perm)
    ensures IsPerm(Inverse(perm), |y.shape|) && Permuted(y.shape, Inverse(perm)) == x.shape
    ensures Inner(y, Transpose(x, perm)) == Inner(Transpose(y, Inverse(perm)), x)
  {
    hide Times, Size;
    PermutedInverse(perm, x.shape);
    var phi := (I: Index) => TransposeIx(perm, I);
    var psi := (J: Index) => TransposeIx(Inverse(perm), J);
    forall I, J | Valid(y.shape, I) && Valid(x.shape, J) ensures phi(I) == J <==> psi(J) == I {
      TransposeIxInverse(perm, I, J);
    }
    PullAdjoint(y, x, Transpose(x, perm), Transpose(y, Inverse(perm)), phi, psi);
  }

  lemma TransposeIxInverse(perm: seq<nat>, I: Index, J: Index)
    requires IsPerm(perm, |perm|) && |I| == |J| == |perm|
    ensures TransposeIx(perm, I) == J <==> TransposeIx(Inverse(perm), J) == I
  {
    InversePerm(perm);
    var inv := Inverse(perm);
    if TransposeIx(perm, I) == J {
      forall a: nat | a < |perm| ensures TransposeIx(inv, J)[a] == I[a] {
        PermPos(perm, a);
        assert J[perm[a]] == TransposeIx(perm, I)[perm[a]];
      }
    }
    if TransposeIx(inv, J) == I {
      forall p: nat | p < |perm| ensures TransposeIx(perm, I)[p] == J[p] {
        var a := PosIn(perm, p);
        assert p in perm;
        assert I[a] == TransposeIx(inv, J)[a];
      }
    }
  }

  lemma FlipAdjoint(y: Tensor, x: Tensor, axes: seq<nat>)
    requires y.shape == x.shape
    ensures Inner(y, Flip(x, axes)) == Inner(Flip(y, axes), x)
  {
    hide Times, Size;
    var phi := (I: Index) => FlipIx(x.shape, axes, I);
    forall I, J | Valid(y.shape, I) && Valid(x.shape, J) ensures phi(I) == J <==> phi(J) == I {
      FlipIxInvolution(x.shape, axes, I);
      FlipIxInvolution(x.shape, axes, J);
    }
    PullAdjoint(y, x, Flip(x, axes), Flip(y, axes), phi, phi);
  }

  lemma FlipIxInvolution(shape: Shape, axes: seq<nat>, I: Index)
    ensures FlipIx(shape, axes, FlipIx(shape, axes, I)) == I
    ensures Valid(shape, I) ==> Valid(shape, FlipIx(shape, axes, I))
  {
  }

  // ----- slicing and padding -----

  lemma UnsliceIxInverse(axes: seq<SliceAxis>, I: Index, J: Index)
    requires |I| == |J| == |axes|
    requires forall a :: 0 <= a < |axes| ==> axes[a].stride > 0 && I[a] >= 0
    ensures SliceIx(axes, I) == J <==> UnsliceIx(axes, J) == I
  {
    forall a: nat | a < |axes| ensures axes[a].start + I[a] * axes[a].stride == J[a] <==> UnsliceCoord(axes[a], J[a]) == I[a] {
      UnsliceCoordInverse(axes[a], I[a], J[a]);
    }
    if SliceIx(axes, I) == J {
      forall a: nat | a < |axes| ensures UnsliceIx(axes, J)[a] == I[a] {
        assert J[a] == SliceIx(axes, I)[a];
      }
    }
    if UnsliceIx(axes, J) == I {
      forall a: nat | a < |axes| ensures SliceIx(axes, I)[a] == J[a] {
        assert I[a] == UnsliceIx(axes, J)[a];
      }
    }
  }

  lemma UnsliceCoordInverse(ax: SliceAxis, i: int, j: int)
    requires ax.stride > 0 && i >= 0
    ensures ax.start + i * ax.stride == j <==> UnsliceCoord(ax, j) == i
  {
    var s := ax.stride;
    MulGap(-1, i, s);
    var d := j - ax.start;
    assert d == (d / s) * s + d % s;
    DivModUnique(s, i, 0);
    assert d == i * s ==> d / s == i && d % s == 0;
  }

  lemma SliceAdjoint(y: Tensor, x: Tensor, axes: seq<SliceAxis>)
    requires SliceOk(x.shape, axes)
    requires y.shape == SliceShape(axes)
    ensures Inner(y, Slice(x, axes)) == Inner(SliceGradient(y, axes, x.shape), x)
  {
    hide Times, Size;
    var phi := (I: Index) => SliceIx(axes, I);
    var psi := (J: Index) => UnsliceIx(axes, J);
    forall I, J | Valid(y.shape, I) && Valid(x.shape, J) ensures phi(I) == J <==> psi(J) == I {
      UnsliceIxInverse(axes, I, J);
    }
    PullAdjoint(y, x, Slice(x, axes), SliceGradient(y, axes, x.shape), phi, psi);
  }

  lemma SliceGradientAdjoint(y: Tensor, x: Tensor, axes: seq<SliceAxis>)
    requires SliceOk(y.shape, axes)
    requires x.shape == SliceShape(axes)
    ensures Inner(y, SliceGradient(x, axes, y.shape)) == Inner(Slice(y, axes), x)
  {
    hide Times, Size;
    SliceAdjoint(x, y, axes);
    InnerComm(y, SliceGradient(x, axes, y.shape));
    InnerComm(x, Slice(y, axes));
  }

  /** The interior window of a padded tensor. */
  function InteriorAxes(shape: Shape, padding: seq<Edge>): seq<SliceAxis>
    requires |padding| == |shape|
  {
    seq(|shape|, (a: nat) requires a < |shape| =>
      SliceAxis(padding[a].low, padding[a].low + shape[a], 1))
  }

  /** Border cotangents: zero inside, y outside. */
  function Border(y: Tensor, shape: Shape, padding: seq<Edge>): (r: Tensor)
    requires |padding| == |shape| && y.shape == PadShape(shape, padding)
    ensures r.shape == y.shape
  {
    Choose(Pad(Fill(shape, 1.0), padding, Fill([], 0.0)), Fill(y.shape, 0.0), y)
  }

  function AllMask(rank: nat): seq<bool>
  {
    seq(rank, (a: nat) => true)
  }

  lemma {:induction false} DropAll<T>(xs: seq<T>, mask: seq<bool>)
    requires |mask| == |xs| && forall a :: 0 <= a < |mask| ==> mask[a]
    ensures Drop(xs, mask) == []
  {
    if xs != [] {
      DropAll(xs[1..], mask[1..]);
    }
  }

  /** Reducing every axis leaves the total. */
  lemma ReduceAll(t: Tensor, mask: seq<bool>)
    requires |mask| == |t.shape| && forall a :: 0 <= a < |mask| ==> mask[a]
    ensures Drop(t.shape, mask) == []
    ensures At(ReduceSum(t, mask), []) == SumIx(t.shape, (I: Index) => At(t, I))
  {
    DropAll(t.shape, mask);
    var phi := (I: Index) => Drop(I, mask);
    forall I | Valid(t.shape, I) ensures FiberAt(t, phi, [], I) == At(t, I) {
      DropAll(I, mask);
    }
    SumIxCong(t.shape, (I: Index) => FiberAt(t, phi, [], I), (I: Index) => At(t, I));
  }

  lemma ScalarInner(a: Tensor, b: Tensor)
    requires a.shape == b.shape == []
    ensures Inner(a, b) == Times(At(a, []), At(b, []))
  {
    hide Times, Size;
    SumIxDelta([], [], (I: Index) => Times(At(a, I), At(b, I)));
  }

  lemma PadInteriorAdjoint(y: Tensor, x: Tensor, padding: seq<Edge>)
    requires |padding| == |x.shape| && y.shape == PadShape(x.shape, padding)
    ensures SliceOk(y.shape, InteriorAxes(x.shape, padding)) && SliceShape(InteriorAxes(x.shape, padding)) == x.shape
    ensures Inner(y, Pad(x, padding, Fill([], 0.0))) == Inner(Slice(y, InteriorAxes(x.shape, padding)), x)
  {
    hide Times, Size;
    var axes := InteriorAxes(x.shape, padding);
    assert SliceShape(axes) == x.shape;
    var phi := (I: Index) => ShiftIx(I, Lows(padding));
    var psi := (J: Index) => SliceIx(axes, J);
    forall I, J | Valid(y.shape, I) && Valid(x.shape, J) ensures phi(I) == J <==> psi(J) == I {
      if phi(I) == J {
        assert forall a :: 0 <= a < |I| ==> J[a] == phi(I)[a];
      }
      if psi(J) == I {
        assert forall a :: 0 <= a < |J| ==> I[a] == psi(J)[a];
      }
    }
    PullAdjoint(y, x, Pad(x, padding, Fill([], 0.0)), Slice(y, axes), phi, psi);
  }

  lemma PadFillAt(y: Tensor, shape: Shape, padding: seq<Edge>, fill: Tensor, I: Index)
    requires fill.shape == []
    requires |padding| == |shape| && y.shape == PadShape(shape, padding)
    requires Valid(y.shape, I)
    ensures Times(At(y, I), At(Pad(Fill(shape, 0.0), padding, fill), I)) == Times(At(fill, []), At(Border(y, shape, padding), I))
  {
    hide Times, Size;
    var J := ShiftIx(I, Lows(padding));
    if Valid(shape, J) {
      assert At(Pad(Fill(shape, 0.0), padding, fill), I) == 0.0;
      assert At(Border(y, shape, padding), I) == 0.0;
      TimesZero(At(y, I));
      TimesZero(At(fill, []));
    } else {
      assert At(Pad(Fill(shape, 0.0), padding, fill), I) == At(fill, []);
      assert At(Border(y, shape, padding), I) == At(y, I);
      TimesComm(At(y, I), At(fill, []));
    }
  }

  lemma PadFillAdjoint(y: Tensor, shape: Shape, padding: seq<Edge>, fill: Tensor)
    requires fill.shape == []
    requires |padding| == |shape| && y.shape == PadShape(shape, padding)
    ensures Drop(y.shape, AllMask(|y.shape|)) == []
    ensures Inner(y, Pad(Fill(shape, 0.0), padding, fill))
         == Inner(ReduceSum(Border(y, shape, padding), AllMask(|y.shape|)), fill)
  {
    hide Times, Size;
    var b := Border(y, shape, padding);
    var mask := AllMask(|y.shape|);
    ReduceAll(b, mask);
    ScalarInner(ReduceSum(b, mask), fill);
    var p := Pad(Fill(shape, 0.0), padding, fill);
    var f := (I: Index) => At(b, I);
    var h := (I: Index) => Times(At(y, I), At(p, I));
    var v := At(fill, []);
    forall I | Valid(y.shape, I) ensures h(I) == Times(v, f(I)) {
      PadFillAt(y, shape, padding, fill, I);
    }
    SumIxScale(y.shape, v, f, h);
    TimesComm(v, At(ReduceSum(b, mask), []));
  }

  lemma PadSplit(x: Tensor, padding: seq<Edge>, fill: Tensor, I: Index)
    requires |padding| == |x.shape| && Valid(PadShape(x.shape, padding), I)
    ensures At(Pad(x, padding, fill), I)
         == At(Pad(x, padding, Fill([], 0.0)), I) + At(Pad(Fill(x.shape, 0.0), padding, fill), I)
  {
    var J := ShiftIx(I, Lows(padding));
    if Valid(x.shape, J) {
      assert At(Pad(x, padding, fill), I) == At(x, J);
    } else {
      assert At(Pad(x, padding, fill), I) == At(fill, []);
    }
  }

  /** Padding is adjoint to taking the interior and summing the border. */
  lemma PadAdjoint(y: Tensor, x: Tensor, padding: seq<Edge>, fill: Tensor)
    requires fill.shape == []
    requires |padding| == |x.shape| && y.shape == PadShape(x.shape, padding)
    ensures SliceOk(y.shape, InteriorAxes(x.shape, padding)) && SliceShape(InteriorAxes(x.shape, padding)) == x.shape
    ensures Drop(y.shape, AllMask(|y.shape|)) == []
    ensures Inner(y, Pad(x, padding, fill))
         == Inner(Slice(y, InteriorAxes(x.shape, padding)), x)
          + Inner(ReduceSum(Border(y, x.shape, padding), AllMask(|y.shape|)), fill)
  {
    hide *;
    PadInteriorAdjoint(y, x, padding);
    PadFillAdjoint(y, x.shape, padding, fill);
    var inner, outer, all := Pad(x, padding, Fill([], 0.0)), Pad(Fill(x.shape, 0.0), padding, fill), Pad(x, padding, fill);
    forall I | Valid(y.shape, I) ensures At(all, I) == At(inner, I) + At(outer, I) {
      PadSplit(x, padding, fill, I);
    }
    InnerAdd(y, inner, outer, all);
  }

  // ----- concatenation -----

  lemma {:induction false} StartMono(ts: seq<Tensor>, axis: nat, k: nat, n: nat)
    requires k <= n
    ensures Start(ts, axis, k) <= Start(ts, axis, n)
    ensures k < n ==> Start(ts, axis, k) + Extent(ts, axis, k) <= Start(ts, axis, n)
  {
    if k < n {
      StartMono(ts, axis, k, n - 1);
    }
  }

  lemma NarrowOk(shape: Shape, axis: nat, start: nat, length: nat, piece: Shape)
    requires axis < |shape| && start + length <= shape[axis] && piece == shape[axis := length]
    ensures SliceOk(shape, NarrowAxes(shape, axis, start, length))
    ensures SliceShape(NarrowAxes(shape, axis, start, length)) == piece
  {
  }

  /** The window of a concatenation that holds piece k. */
  function PieceAxes(ts: seq<Tensor>, axis: nat, k: nat, shape: Shape): seq<SliceAxis>
  {
    NarrowAxes(shape, axis, Start(ts, axis, k), Extent(ts, axis, k))
  }

  lemma PieceAxesOk(ts: seq<Tensor>, axis: nat, k: nat, shape: Shape)
    requires ConcatOk(ts, axis) && shape == ts[0].shape[axis := Start(ts, axis, |ts|)] && k < |ts|
    ensures SliceOk(shape, PieceAxes(ts, axis, k, shape))
    ensures SliceShape(PieceAxes(ts, axis, k, shape)) == ts[k].shape
  {
    hide Size;
    StartMono(ts, axis, k, |ts|);
    NarrowOk(shape, axis, Start(ts, axis, k), Extent(ts, axis, k), ts[k].shape);
  }

  lemma EmbedAt(t: Tensor, axis: nat, start: nat, shape: Shape, I: Index)
    requires axis < |shape| && |t.shape| == |shape| && Valid(shape, I)
    ensures At(SliceGradient(t, NarrowAxes(shape, axis, start, t.shape[axis]), shape), I)
         == At(t, I[axis := I[axis] - start])
  {
    hide Size;
    var U := UnsliceIx(NarrowAxes(shape, axis, start, t.shape[axis]), I);
    var K := I[axis := I[axis] - start];
    if I[axis] >= start {
      assert U == K;
    } else {
      assert U[axis] < 0 && K[axis] < 0;
    }
  }

  lemma PiecesStep(y: Tensor, ts: seq<Tensor>, axis: nat, n: nat)
    requires axis < |y.shape| && n < |ts| && |ts[n].shape| == |y.shape|
    ensures Inner(y, Pieces(ts, axis, n + 1, y.shape))
         == Inner(y, Pieces(ts, axis, n, y.shape))
          + Inner(y, SliceGradient(ts[n], PieceAxes(ts, axis, n, y.shape), y.shape))
  {
    hide Times, Size, Inner, At;
    var less, last := Pieces(ts, axis, n, y.shape), SliceGradient(ts[n], PieceAxes(ts, axis, n, y.shape), y.shape);
    var all := Pieces(ts, axis, n + 1, y.shape);
    forall I | Valid(y.shape, I) ensures At(all, I) == At(less, I) + At(last, I) {
      EmbedAt(ts[n], axis, Start(ts, axis, n), y.shape, I);
    }
    InnerAdd(y, less, last, all);
  }

  /** What the reverse rule contributes for piece k, paired with that piece. */
  function PieceTerm(y: Tensor, ts: seq<Tensor>, axis: nat, k: nat): real
  {
    if k < |ts| && SliceOk(y.shape, PieceAxes(ts, axis, k, y.shape)) && SliceShape(PieceAxes(ts, axis, k, y.shape)) == ts[k].shape
    then Inner(Slice(y, PieceAxes(ts, axis, k, y.shape)), ts[k])
    else 0.0
  }

  lemma {:induction false} PiecesAdjoint(y: Tensor, ts: seq<Tensor>, axis: nat, n: nat)
    requires ConcatOk(ts, axis) && y.shape == ts[0].shape[axis := Start(ts, axis, |ts|)] && n <= |ts|
    ensures Inner(y, Pieces(ts, axis, n, y.shape)) == Sum(n, (k: nat) => PieceTerm(y, ts, axis, k))
  {
    hide Times, Size, Inner, At, Start, PieceAxes, Valid;
    if n == 0 {
      InnerZero(y, Pieces(ts, axis, 0, y.shape));
    } else {
      PiecesAdjoint(y, ts, axis, n - 1);
      PiecesStep(y, ts, axis, n - 1);
      PieceAxesOk(ts, axis, n - 1, y.shape);
      SliceGradientAdjoint(y, ts[n - 1], PieceAxes(ts, axis, n - 1, y.shape));
    }
  }

  /** Concatenation is adjoint to cutting the cotangent back into pieces. */
  lemma ConcatAdjoint(y: Tensor, ts: seq<Tensor>, axis: nat)
    requires ConcatOk(ts, axis) && y.shape == ts[0].shape[axis := Start(ts, axis, |ts|)]
    ensures Inner(y, Concatenate(ts, axis)) == Sum(|ts|, (k: nat) => PieceTerm(y, ts, axis, k))
  {
    hide Times, Size, Inner, At, Valid;
    PiecesAdjoint(y, ts, axis, |ts|);
  }

  /** Inside the window of piece k, a concatenation reads piece k. */
  lemma ConcatReads(ts: seq<Tensor>, axis: nat, k: nat, I: Index)
    requires ConcatOk(ts, axis) && k < |ts|
    requires Valid(ts[0].shape[axis := Start(ts, axis, |ts|)], I)
    requires Start(ts, axis, k) <= I[axis] < Start(ts, axis, k) + Extent(ts, axis, k)
    ensures At(Concatenate(ts, axis), I) == At(ts[k], I[axis := I[axis] - Start(ts, axis, k)])
  {
    hide Size, Start;
    var f := (j: nat) => PieceAt(ts, axis, I, j);
    forall j: nat | j < |ts| && j != k ensures f(j) == 0.0 {
      if j < k { StartMono(ts, axis, j, k); } else { StartMono(ts, axis, k, j); }
      var K := I[axis := I[axis] - Start(ts, axis, j)];
      assert K[axis] == I[axis] - Start(ts, axis, j);
      assert !Valid(ts[j].shape, K);
    }
    SumDelta(|ts|, k, f);
  }

  // ----- broadcasting and reduction -----

  /** Output axis b is expanded from nothing or from a singleton. */
  predicate Expanded(shape: Shape, axes: seq<nat>, b: nat, extent: nat)
  {
    var a := PosIn(axes, b);
    a >= |axes| || a >= |shape| || (shape[a] == 1 && extent != 1)
  }

  /** The axes the reverse rule of a broadcast sums over. */
  function BroadcastMask(shape: Shape, out: Shape, axes: seq<nat>): (mask: seq<bool>)
    ensures |mask| == |out|
  {
    seq(|out|, (b: nat) requires b < |out| => Expanded(shape, axes, b, out[b]))
  }

  function Shifted(axes: seq<nat>, q: nat): seq<nat>
    requires forall a :: 0 <= a < |axes| ==> axes[a] >= q
  {
    seq(|axes|, (a: nat) requires a < |axes| => axes[a] - q)
  }

  lemma PosInTail(axes: seq<nat>, b: nat)
    requires forall a, c :: 0 <= a < c < |axes| ==> axes[a] < axes[c]
    requires axes != [] && axes[0] == 0
    ensures forall a :: 0 <= a < |axes[1..]| ==> axes[1..][a] >= 1
    ensures PosIn(axes, b + 1) == PosIn(Shifted(axes[1..], 1), b) + 1
  {
    assert axes[1..] == axes[1..];
    PosInShift(axes[1..], b);
  }

  lemma {:induction false} PosInShift(axes: seq<nat>, b: nat)
    requires forall a :: 0 <= a < |axes| ==> axes[a] >= 1
    ensures PosIn(axes, b + 1) == PosIn(Shifted(axes, 1), b)
  {
    if axes != [] {
      assert Shifted(axes, 1)[1..] == Shifted(axes[1..], 1);
      PosInShift(axes[1..], b);
    }
  }

  lemma BroadcastFirst(shape: Shape, out: Shape, axes: seq<nat>)
    requires BroadcastOk(shape, out, axes)
    ensures |axes| > 0 ==> axes[0] < |out|
  {
  }

  lemma BroadcastOkTake(shape: Shape, out: Shape, axes: seq<nat>)
    requires BroadcastOk(shape, out, axes) && out != [] && axes != [] && axes[0] == 0
    ensures forall a :: 0 <= a < |axes[1..]| ==> axes[1..][a] >= 1
    ensures BroadcastOk(shape[1..], out[1..], Shifted(axes[1..], 1))
  {
  }

  lemma MaskTake(shape: Shape, out: Shape, axes: seq<nat>)
    requires BroadcastOk(shape, out, axes) && out != [] && axes != [] && axes[0] == 0
    ensures forall a :: 0 <= a < |axes[1..]| ==> axes[1..][a] >= 1
    ensures BroadcastMask(shape, out, axes)[1..] == BroadcastMask(shape[1..], out[1..], Shifted(axes[1..], 1))
    ensures BroadcastMask(shape, out, axes)[0] == (shape[0] == 1 && out[0] != 1)
  {
    hide PosIn;
    forall b: nat | b < |out| - 1
      ensures Expanded(shape, axes, b + 1, out[b + 1]) == Expanded(shape[1..], Shifted(axes[1..], 1), b, out[1..][b])
    {
      PosInTail(axes, b);
    }
  }

  lemma BroadcastOkSkip(shape: Shape, out: Shape, axes: seq<nat>)
    requires BroadcastOk(shape, out, axes) && out != [] && !(axes != [] && axes[0] == 0)
    ensures forall a :: 0 <= a < |axes| ==> axes[a] >= 1
    ensures BroadcastOk(shape, out[1..], Shifted(axes, 1))
  {
    forall a | 0 <= a < |axes| ensures axes[a] >= 1 {
      assert a > 0 ==> axes[0] < axes[a];
    }
  }

  lemma MaskSkip(shape: Shape, out: Shape, axes: seq<nat>)
    requires BroadcastOk(shape, out, axes) && out != [] && !(axes != [] && axes[0] == 0)
    ensures forall a :: 0 <= a < |axes| ==> axes[a] >= 1
    ensures BroadcastMask(shape, out, axes)[1..] == BroadcastMask(shape, out[1..], Shifted(axes, 1))
    ensures BroadcastMask(shape, out, axes)[0]
  {
    hide PosIn, BroadcastOk;
    BroadcastOkSkip(shape, out, axes);
    forall b: nat | b < |out| - 1
      ensures Expanded(shape, axes, b + 1, out[b + 1]) == Expanded(shape, Shifted(axes, 1), b, out[1..][b])
    {
      PosInShift(axes, b);
    }
  }

  /** Dropping the expanded axes leaves the input up to singleton axes. */
  lemma {:induction false} BroadcastSize(shape: Shape, out: Shape, axes: seq<nat>)
    requires BroadcastOk(shape, out, axes)
    ensures Size(Drop(out, BroadcastMask(shape, out, axes))) == Size(shape)
    decreases |out|
  {
    hide Scale;
    if out == [] {
      BroadcastFirst(shape, out, axes);
    } else {
      if axes != [] && axes[0] == 0 {
        BroadcastOkTake(shape, out, axes);
        MaskTake(shape, out, axes);
        BroadcastSize(shape[1..], out[1..], Shifted(axes[1..], 1));
        ScaleUnit(Size(shape[1..]));
      } else {
        BroadcastOkSkip(shape, out, axes);
        MaskSkip(shape, out, axes);
        BroadcastSize(shape, out[1..], Shifted(axes, 1));
      }
    }
  }

  lemma {:induction false} DropValid(shape: Shape, mask: seq<bool>, I: Index)
    requires Valid(shape, I) && |mask| == |shape|
    ensures Valid(Drop(shape, mask), Drop(I, mask))
  {
    if shape != [] {
      assert Valid(shape[1..], I[1..]);
      DropValid(shape[1..], mask[1..], I[1..]);
    }
  }

  lemma BroadcastIxTail(shape: Shape, axes: seq<nat>, I: Index)
    requires I != [] && |axes| == |shape|
    requires forall a, c :: 0 <= a < c < |axes| ==> axes[a] < axes[c]
    ensures axes != [] && axes[0] == 0 ==>
      (forall a :: 0 <= a < |axes[1..]| ==> axes[1..][a] >= 1)
      && BroadcastIx(shape, axes, I) == [if shape[0] == 1 then 0 else I[0]] + BroadcastIx(shape[1..], Shifted(axes[1..], 1), I[1..])
    ensures !(axes != [] && axes[0] == 0) ==>
      (forall a :: 0 <= a < |axes| ==> axes[a] >= 1)
      && BroadcastIx(shape, axes, I) == BroadcastIx(shape, Shifted(axes, 1), I[1..])
  {
  }

  lemma FlatHead(s: Shape, I: Index)
    requires Valid(s, I) && s != []
    ensures Valid(s[1..], I[1..])
    ensures Flat(s, I) == Scale(I[0], Size(s[1..])) + Flat(s[1..], I[1..])
  {
  }

  lemma {:induction false} BroadcastFlat(shape: Shape, out: Shape, axes: seq<nat>, I: Index)
    requires BroadcastOk(shape, out, axes) && Valid(out, I)
    ensures Valid(shape, BroadcastIx(shape, axes, I))
    ensures Valid(Drop(out, BroadcastMask(shape, out, axes)), Drop(I, BroadcastMask(shape, out, axes)))
    ensures Flat(Drop(out, BroadcastMask(shape, out, axes)), Drop(I, BroadcastMask(shape, out, axes)))
         == Flat(shape, BroadcastIx(shape, axes, I))
    decreases |out|
  {
    hide Scale;
    var mask := BroadcastMask(shape, out, axes);
    DropValid(out, mask, I);
    if out == [] {
      BroadcastFirst(shape, out, axes);
    } else {
      BroadcastIxTail(shape, axes, I);
      if axes != [] && axes[0] == 0 {
        BroadcastFlatTake(shape, out, axes, I);
      } else {
        BroadcastOkSkip(shape, out, axes);
        MaskSkip(shape, out, axes);
        BroadcastFlat(shape, out[1..], Shifted(axes, 1), I[1..]);
      }
    }
  }

  lemma {:induction false} BroadcastFlatTake(shape: Shape, out: Shape, axes: seq<nat>, I: Index)
    requires BroadcastOk(shape, out, axes) && Valid(out, I) && out != [] && axes != [] && axes[0] == 0
    ensures Valid(shape, BroadcastIx(shape, axes, I))
    ensures Valid(Drop(out, BroadcastMask(shape, out, axes)), Drop(I, BroadcastMask(shape, out, axes)))
    ensures Flat(Drop(out, BroadcastMask(shape, out, axes)), Drop(I, BroadcastMask(shape, out, axes)))
         == Flat(shape, BroadcastIx(shape, axes, I))
    decreases |out|, 0
  {
    hide Scale, BroadcastIx, BroadcastMask, Expanded;
    var mask, B := BroadcastMask(shape, out, axes), BroadcastIx(shape, axes, I);
    DropValid(out, mask, I);
    BroadcastIxTail(shape, axes, I);
    BroadcastOkTake(shape, out, axes);
    MaskTake(shape, out, axes);
    BroadcastFlat(shape[1..], out[1..], Shifted(axes[1..], 1), I[1..]);
    BroadcastSize(shape[1..], out[1..], Shifted(axes[1..], 1));
    ScaleUnit(Size(shape[1..]));
    assert B[1..] == BroadcastIx(shape[1..], Shifted(axes[1..], 1), I[1..]);
    FlatHead(shape, B);
    if !mask[0] {
      FlatHead(Drop(out, mask), Drop(I, mask));
    }
  }

  /** What the reverse rule of a broadcast records: reduce the expanded axes, restore the input shape. */
  function Unbroadcast(y: Tensor, shape: Shape, axes: seq<nat>): (r: Tensor)
    requires BroadcastOk(shape, y.shape, axes)
    ensures r.shape == shape
  {
    BroadcastSize(shape, y.shape, axes);
    Reshape(ReduceSum(y, BroadcastMask(shape, y.shape, axes)), shape)
  }

  lemma ReshapeAt(t: Tensor, shape: Shape, I: Index, J: Index)
    requires Size(shape) == Size(t.shape) && Valid(shape, I) && Valid(t.shape, J) && Flat(shape, I) == Flat(t.shape, J)
    ensures At(Reshape(t, shape), I) == At(t, J)
  {
  }

  lemma FiberSumCong(y: Tensor, phi: Index -> Index, J: Index, psi: Index -> Index, K: Index)
    requires forall I :: Valid(y.shape, I) ==> (phi(I) == J <==> psi(I) == K)
    ensures FiberSum(y, phi, J) == FiberSum(y, psi, K)
  {
    SumIxCong(y.shape, (I: Index) => FiberAt(y, phi, J, I), (I: Index) => FiberAt(y, psi, K, I));
  }

  lemma UnbroadcastAt(y: Tensor, shape: Shape, axes: seq<nat>, J: Index)
    requires BroadcastOk(shape, y.shape, axes) && Valid(shape, J)
    ensures At(Unbroadcast(y, shape, axes), J) == FiberSum(y, (I: Index) => BroadcastIx(shape, axes, I), J)
  {
    hide Scale, Size, Flat, BroadcastMask, BroadcastIx, BroadcastOk, Drop;
    var mask := BroadcastMask(shape, y.shape, axes);
    var kept := Drop(y.shape, mask);
    BroadcastSize(shape, y.shape, axes);
    var K := Unflat(kept, Flat(shape, J));
    FlatUnflat(kept, Flat(shape, J));
    ReshapeAt(ReduceSum(y, mask), shape, J, K);
    var phi := (I: Index) => Drop(I, mask);
    var psi := (I: Index) => BroadcastIx(shape, axes, I);
    forall I | Valid(y.shape, I) ensures phi(I) == K <==> psi(I) == J {
      BroadcastFlat(shape, y.shape, axes, I);
      if psi(I) == J { FlatInjective(kept, phi(I), K); }
      if phi(I) == K { FlatInjective(shape, psi(I), J); }
    }
    FiberSumCong(y, phi, K, psi, J);
  }

  lemma BroadcastAdjoint(y: Tensor, x: Tensor, axes: seq<nat>)
    requires BroadcastOk(x.shape, y.shape, axes)
    ensures Inner(y, Broadcast(x, y.shape, axes)) == Inner(Unbroadcast(y, x.shape, axes), x)
  {
    hide Times, Size, Inner, BroadcastIx, BroadcastOk, Unbroadcast;
    forall J | Valid(x.shape, J)
      ensures At(Unbroadcast(y, x.shape, axes), J) == FiberSum(y, (I: Index) => BroadcastIx(x.shape, axes, I), J)
    {
      UnbroadcastAt(y, x.shape, axes, J);
    }
    FiberAdjoint(y, x, Broadcast(x, y.shape, axes), Unbroadcast(y, x.shape, axes), (I: Index) => BroadcastIx(x.shape, axes, I));
  }

  function Iota(n: nat): seq<nat>
  {
    seq(n, (a: nat) => a)
  }

  lemma {:induction false} OnesSize(shape: Shape, mask: seq<bool>)
    requires |mask| == |shape|
    ensures Size(Ones(shape, mask)) == Size(Drop(shape, mask))
  {
    hide Scale;
    if shape != [] {
      OnesSize(shape[1..], mask[1..]);
      assert Ones(shape, mask)[1..] == Ones(shape[1..], mask[1..]);
      ScaleUnit(Size(Ones(shape[1..], mask[1..])));
    }
  }

  /** Zero out the masked coordinates. */
  function Zeroed(I: Index, mask: seq<bool>): Index
  {
    seq(|I|, (a: nat) requires a < |I| => if a < |mask| && mask[a] then 0 else I[a])
  }

  lemma {:induction false} OnesFlat(shape: Shape, mask: seq<bool>, I: Index)
    requires |mask| == |shape| && Valid(shape, I)
    ensures Valid(Ones(shape, mask), Zeroed(I, mask)) && Valid(Drop(shape, mask), Drop(I, mask))
    ensures Flat(Ones(shape, mask), Zeroed(I, mask)) == Flat(Drop(shape, mask), Drop(I, mask))
  {
    hide Scale;
    DropValid(shape, mask, I);
    if shape != [] {
      assert Valid(shape[1..], I[1..]);
      OnesFlat(shape[1..], mask[1..], I[1..]);
      OnesSize(shape[1..], mask[1..]);
      assert Ones(shape, mask)[1..] == Ones(shape[1..], mask[1..]);
      assert Zeroed(I, mask)[1..] == Zeroed(I[1..], mask[1..]);
      FlatHead(Ones(shape, mask), Zeroed(I, mask));
      ScaleUnit(Size(Ones(shape[1..], mask[1..])));
      if !mask[0] {
        FlatHead(Drop(shape, mask), Drop(I, mask));
      }
    }
  }

  /** What the reverse rule of a sum records: restore singleton axes, then broadcast. */
  function Unreduce(y: Tensor, shape: Shape, mask: seq<bool>): (r: Tensor)
    requires |mask| == |shape| && y.shape == Drop(shape, mask)
    ensures r.shape == shape
  {
    OnesSize(shape, mask);
    Broadcast(Reshape(y, Ones(shape, mask)), shape, Iota(|shape|))
  }

  lemma UnreduceAt(y: Tensor, shape: Shape, mask: seq<bool>, I: Index)
    requires |mask| == |shape| && y.shape == Drop(shape, mask) && Valid(shape, I)
    ensures At(Unreduce(y, shape, mask), I) == At(y, Drop(I, mask))
  {
    hide Scale, Size, Flat, Drop;
    OnesSize(shape, mask);
    OnesFlat(shape, mask, I);
    var ones := Ones(shape, mask);
    assert BroadcastIx(ones, Iota(|shape|), I) == Zeroed(I, mask);
    ReshapeAt(y, ones, Zeroed(I, mask), Drop(I, mask));
  }

  lemma ReduceAdjoint(y: Tensor, x: Tensor, mask: seq<bool>)
    requires |mask| == |x.shape| && y.shape == Drop(x.shape, mask)
    ensures Inner(y, ReduceSum(x, mask)) == Inner(Unreduce(y, x.shape, mask), x)
  {
    hide Times, Size, Inner, Drop, Unreduce, At, FiberSum;
    forall I | Valid(x.shape, I) ensures At(Unreduce(y, x.shape, mask), I) == At(y, Drop(I, mask)) {
      UnreduceAt(y, x.shape, mask, I);
    }
    FiberAdjoint(x, y, Unreduce(y, x.shape, mask), ReduceSum(x, mask), (I: Index) => Drop(I, mask));
    InnerComm(x, Unreduce(y, x.shape, mask));
    InnerComm(y, ReduceSum(x, mask));
  }

  // ----- prefix sums -----

  function LaneCell(y: Tensor, x: Tensor, axis: nat, I: Index, J: Index): real
  {
    if OnLaneUpTo(axis, I, J) then Times(At(y, I), At(x, J)) else 0.0
  }

  lemma FlipLane(shape: Shape, axis: nat, I: Index, J: Index)
    requires axis < |shape| && Valid(shape, I) && Valid(shape, J)
    ensures OnLaneUpTo(axis, FlipIx(shape, [axis], J), FlipIx(shape, [axis], I)) <==> OnLaneUpTo(axis, I, J)
  {
    var FI, FJ := FlipIx(shape, [axis], I), FlipIx(shape, [axis], J);
    if OnLaneUpTo(axis, I, J) {
      assert forall a :: 0 <= a < |I| && a != axis ==> J[a] == I[a];
      assert FI == FJ[axis := FI[axis]];
    }
    if OnLaneUpTo(axis, FJ, FI) {
      forall a: nat | a < |I| && a != axis ensures J[a] == I[a] {
        assert FI[a] == FJ[axis := FI[axis]][a];
      }
      assert J == I[axis := J[axis]];
    }
  }

  /** Flipping, summing prefixes and flipping back sums suffixes. */
  lemma SuffixSum(y: Tensor, axis: nat, J: Index)
    requires axis < |y.shape| && Valid(y.shape, J)
    ensures At(Flip(Cumsum(Flip(y, [axis]), axis), [axis]), J) == SumWhere(y, (I: Index) => OnLaneUpTo(axis, I, J))
  {
    hide Size, OnLaneUpTo, At;
    var flipped := Flip(y, [axis]);
    var FJ := FlipIx(y.shape, [axis], J);
    FlipIxInvolution(y.shape, [axis], J);
    var p := (K: Index) => OnLaneUpTo(axis, FJ, K);
    var q := (I: Index) => OnLaneUpTo(axis, I, J);
    var f := (K: Index) => WhereAt(flipped, p, K);
    var g := (I: Index) => WhereAt(y, q, I);
    var flip := (I: Index) => FlipIx(y.shape, [axis], I);
    forall I | Valid(y.shape, I) ensures Valid(y.shape, flip(I)) && flip(flip(I)) == I && f(flip(I)) == g(I) {
      FlipIxInvolution(y.shape, [axis], I);
      FlipLane(y.shape, axis, I, J);
    }
    SumIxTransfer(y.shape, y.shape, f, g, flip, flip);
    assert At(Flip(Cumsum(flipped, axis), [axis]), J) == At(Cumsum(flipped, axis), FJ);
    assert At(Cumsum(flipped, axis), FJ) == SumWhere(flipped, p);
  }

  lemma LaneRow(y: Tensor, x: Tensor, axis: nat, I: Index)
    ensures RowIx((A: Index, B: Index) => LaneCell(y, x, axis, A, B), x.shape, I)
         == Times(At(y, I), SumWhere(x, (J: Index) => OnLaneUpTo(axis, I, J)))
  {
    hide Times, Size, OnLaneUpTo, At;
    var p := (J: Index) => OnLaneUpTo(axis, I, J);
    var h := (J: Index) => LaneCell(y, x, axis, I, J);
    TimesZero(At(y, I));
    SumIxScale(x.shape, At(y, I), (J: Index) => WhereAt(x, p, J), h);
    RowIxCong((A: Index, B: Index) => LaneCell(y, x, axis, A, B), x.shape, I, h);
  }

  lemma LaneCol(y: Tensor, x: Tensor, axis: nat, J: Index)
    ensures ColIx((A: Index, B: Index) => LaneCell(y, x, axis, A, B), y.shape, J)
         == Times(SumWhere(y, (I: Index) => OnLaneUpTo(axis, I, J)), At(x, J))
  {
    hide Times, Size, OnLaneUpTo, At;
    var p := (I: Index) => OnLaneUpTo(axis, I, J);
    var f := (I: Index) => WhereAt(y, p, I);
    var h := (I: Index) => LaneCell(y, x, axis, I, J);
    TimesZero(At(x, J));
    forall I | Valid(y.shape, I) ensures h(I) == Times(At(x, J), f(I)) {
      TimesComm(At(y, I), At(x, J));
    }
    SumIxScale(y.shape, At(x, J), f, h);
    TimesComm(At(x, J), SumWhere(y, p));
    ColIxCong((A: Index, B: Index) => LaneCell(y, x, axis, A, B), y.shape, J, h);
  }

  /** Prefix sums are adjoint to suffix sums. */
  lemma CumsumAdjoint(y: Tensor, x: Tensor, axis: nat)
    requires y.shape == x.shape && axis < |x.shape|
    ensures Inner(y, Cumsum(x, axis)) == Inner(Flip(Cumsum(Flip(y, [axis]), axis), [axis]), x)
  {
    hide Times, Size, OnLaneUpTo, At, SumWhere;
    var F := (A: Index, B: Index) => LaneCell(y, x, axis, A, B);
    var suffix := Flip(Cumsum(Flip(y, [axis]), axis), [axis]);
    var rows := (I: Index) => Times(At(y, I), At(Cumsum(x, axis), I));
    var cols := (J: Index) => Times(At(suffix, J), At(x, J));
    forall I | Valid(y.shape, I) ensures rows(I) == RowIx(F, x.shape, I) {
      LaneRow(y, x, axis, I);
    }
    forall J | Valid(x.shape, J) ensures cols(J) == ColIx(F, y.shape, J) {
      SuffixSum(y, axis, J);
      LaneCol(y, x, axis, J);
    }
    SumIxSwap(y.shape, x.shape, F, rows, cols);
  }

  // ----- gathers and runtime windows -----

  /** Gathering is adjoint to scatter-add with the same clamped indices. */
  lemma GatherAdjoint(y: Tensor, x: Tensor, indices: Tensor, axis: nat, batched: bool)
    requires axis < |x.shape| && y.shape == GatherShape(x.shape, indices.shape, axis, batched)
    ensures Inner(y, Gather(x, indices, axis, batched)) == Inner(GatherGradient(y, indices, axis, batched, x.shape), x)
  {
    hide Times, Size, Inner, At, GatherIx, FiberSum;
    FiberAdjoint(y, x, Gather(x, indices, axis, batched), GatherGradient(y, indices, axis, batched, x.shape),
                 (I: Index) => GatherIx(x.shape[axis], indices, axis, batched, I));
  }

  /** Scatter-add is adjoint to gathering with the same clamped indices. */
  lemma ScatterAdjoint(y: Tensor, x: Tensor, indices: Tensor, axis: nat, batched: bool)
    requires axis < |y.shape| && x.shape == GatherShape(y.shape, indices.shape, axis, batched)
    ensures Inner(y, GatherGradient(x, indices, axis, batched, y.shape)) == Inner(Gather(y, indices, axis, batched), x)
  {
    hide Times, Size, Inner, At, GatherIx, FiberSum;
    GatherAdjoint(x, y, indices, axis, batched);
    InnerComm(y, GatherGradient(x, indices, axis, batched, y.shape));
    InnerComm(x, Gather(y, indices, axis, batched));
  }

  lemma ShiftInverse(I: Index, J: Index, low: seq<int>)
    requires |I| == |J| == |low|
    ensures UnshiftIx(I, low) == J <==> ShiftIx(J, low) == I
  {
    if UnshiftIx(I, low) == J {
      forall a: nat | a < |I| ensures ShiftIx(J, low)[a] == I[a] {
        assert J[a] == UnshiftIx(I, low)[a];
      }
    }
    if ShiftIx(J, low) == I {
      forall a: nat | a < |I| ensures UnshiftIx(I, low)[a] == J[a] {
        assert I[a] == ShiftIx(J, low)[a];
      }
    }
  }

  lemma WindowOfZero(y: Tensor, shape: Shape, starts: seq<int>, J: Index)
    requires Valid(shape, J)
    ensures At(DynamicUpdateSlice(Fill(shape, 0.0), y, starts), J) == At(y, ShiftIx(J, ClampStarts(starts, shape, y.shape)))
  {
    hide Size, ClampStarts, ShiftIx;
  }

  lemma DynamicSliceAdjoint(y: Tensor, x: Tensor, starts: seq<int>)
    requires |y.shape| == |x.shape| == |starts|
    ensures Inner(y, DynamicSlice(x, starts, y.shape)) == Inner(DynamicUpdateSlice(Fill(x.shape, 0.0), y, starts), x)
  {
    hide Times, Size, Inner, ClampTo, At, DynamicUpdateSlice;
    var low := ClampStarts(starts, x.shape, y.shape);
    var phi := (I: Index) => UnshiftIx(I, low);
    var psi := (J: Index) => ShiftIx(J, low);
    forall I, J | Valid(y.shape, I) && Valid(x.shape, J) ensures phi(I) == J <==> psi(J) == I {
      ShiftInverse(I, J, low);
    }
    forall J | Valid(x.shape, J) ensures At(DynamicUpdateSlice(Fill(x.shape, 0.0), y, starts), J) == At(y, psi(J)) {
      WindowOfZero(y, x.shape, starts, J);
    }
    PullAdjoint(y, x, DynamicSlice(x, starts, y.shape), DynamicUpdateSlice(Fill(x.shape, 0.0), y, starts), phi, psi);
  }

  lemma UpdateSplit(x: Tensor, u: Tensor, starts: seq<int>, J: Index)
    requires Valid(x.shape, J)
    ensures At(DynamicUpdateSlice(x, u, starts), J)
         == At(DynamicUpdateSlice(x, Fill(u.shape, 0.0), starts), J) + At(DynamicUpdateSlice(Fill(x.shape, 0.0), u, starts), J)
  {
    hide Size, ClampStarts, ShiftIx;
  }

  lemma UpdateKeep(y: Tensor, x: Tensor, u: Shape, starts: seq<int>, J: Index)
    requires y.shape == x.shape && Valid(x.shape, J)
    ensures Times(At(y, J), At(DynamicUpdateSlice(x, Fill(u, 0.0), starts), J))
         == Times(At(DynamicUpdateSlice(y, Fill(u, 0.0), starts), J), At(x, J))
  {
    hide Times, Size, ClampStarts, ShiftIx;
    TimesZero(At(y, J));
    TimesZero(At(x, J));
  }

  /** Overwriting a window: the old data keeps the outside, the update receives the window. */
  lemma DynamicUpdateSliceAdjoint(y: Tensor, x: Tensor, u: Tensor, starts: seq<int>)
    requires y.shape == x.shape && |x.shape| == |u.shape| == |starts|
    ensures Inner(y, DynamicUpdateSlice(x, u, starts))
         == Inner(DynamicUpdateSlice(y, Fill(u.shape, 0.0), starts), x) + Inner(DynamicSlice(y, starts, u.shape), u)
  {
    hide Times, Size, Inner, At, DynamicSlice, DynamicUpdateSlice;
    var old_, new_ := DynamicUpdateSlice(x, Fill(u.shape, 0.0), starts), DynamicUpdateSlice(Fill(x.shape, 0.0), u, starts);
    forall J | Valid(x.shape, J)
      ensures At(DynamicUpdateSlice(x, u, starts), J) == At(old_, J) + At(new_, J)
    {
      UpdateSplit(x, u, starts, J);
    }
    InnerAdd(y, old_, new_, DynamicUpdateSlice(x, u, starts));
    forall J | Valid(x.shape, J)
      ensures Times(At(y, J), At(old_, J)) == Times(At(DynamicUpdateSlice(y, Fill(u.shape, 0.0), starts), J), At(x, J))
    {
      UpdateKeep(y, x, u.shape, starts, J);
    }
    InnerCong(y, old_, DynamicUpdateSlice(y, Fill(u.shape, 0.0), starts), x);
    DynamicSliceAdjoint(u, y, starts);
    InnerComm(u, DynamicSlice(y, starts, u.shape));
    InnerComm(new_, y);
  }

  // ----- contractions -----

  /** One term of the trilinear form sum over M of A[a(M)] B[b(M)] Y[c(M)]. */
  function TriTerm(A: Tensor, a: Index -> Index, B: Tensor, b: Index -> Index, Y: Tensor, c: Index -> Index, M: Index): real
  {
    Times(Times(At(A, a(M)), At(B, b(M))), At(Y, c(M)))
  }

  function TriSum(s: Shape, A: Tensor, a: Index -> Index, B: Tensor, b: Index -> Index, Y: Tensor, c: Index -> Index): real
  {
    SumIx(s, (M: Index) => TriTerm(A, a, B, b, Y, c, M))
  }

  function Head(n: nat, M: Index): Index
  {
    if n <= |M| then M[..n] else M
  }

  /** Pairing a contraction with Y sums the trilinear form over output and summed coordinates. */
  lemma ContractTri(out: Shape, red: Shape, A: Tensor, a: Index -> Index, B: Tensor, b: Index -> Index, Y: Tensor)
    requires Y.shape == out
    ensures Inner(Y, Contract(out, red, A, a, B, b)) == TriSum(out + red, A, a, B, b, Y, (M: Index) => Head(|out|, M))
  {
    hide Times, Size, At;
    var c := (M: Index) => Head(|out|, M);
    var f := (M: Index) => TriTerm(A, a, B, b, Y, c, M);
    var rows := (I: Index) => Times(At(Y, I), At(Contract(out, red, A, a, B, b), I));
    forall I | Valid(out, I) ensures rows(I) == SumIx(red, (L: Index) => f(I + L)) {
      ContractRow(out, red, A, a, B, b, Y, I);
      SumIxCong(red, (L: Index) => f(I + L), (L: Index) => TriTerm(A, a, B, b, Y, c, I + L));
    }
    SumIxConcat(out, red, f, rows);
  }

  lemma ContractRow(out: Shape, red: Shape, A: Tensor, a: Index -> Index, B: Tensor, b: Index -> Index, Y: Tensor, I: Index)
    requires Y.shape == out && Valid(out, I)
    ensures Times(At(Y, I), At(Contract(out, red, A, a, B, b), I))
         == SumIx(red, (L: Index) => TriTerm(A, a, B, b, Y, (M: Index) => Head(|out|, M), I + L))
  {
    hide Times, Size, At;
    var g := (L: Index) => ContractTerm(A, a, B, b, I, L);
    var h := (L: Index) => TriTerm(A, a, B, b, Y, (M: Index) => Head(|out|, M), I + L);
    forall L | Valid(red, L) ensures h(L) == Times(At(Y, I), g(L)) {
      assert Head(|out|, I + L) == I;
      TimesComm(g(L), At(Y, I));
    }
    SumIxScale(red, At(Y, I), g, h);
  }

  /** Two trilinear forms whose nonzero terms correspond are equal. */
  lemma TriTransfer(
    s: Shape, A: Tensor, a: Index -> Index, B: Tensor, b: Index -> Index, Y: Tensor, c: Index -> Index,
    t: Shape, A': Tensor, a': Index -> Index, B': Tensor, b': Index -> Index, Y': Tensor, c': Index -> Index,
    there: Index -> Index, back: Index -> Index)
    requires forall M :: Valid(s, M) && TriTerm(A, a, B, b, Y, c, M) != 0.0 ==>
      Valid(t, there(M)) && TriTerm(A', a', B', b', Y', c', there(M)) == TriTerm(A, a, B, b, Y, c, M) && back(there(M)) == M
    requires forall M :: Valid(t, M) && TriTerm(A', a', B', b', Y', c', M) != 0.0 ==>
      Valid(s, back(M)) && TriTerm(A, a, B, b, Y, c, back(M)) == TriTerm(A', a', B', b', Y', c', M) && there(back(M)) == M
    ensures TriSum(s, A, a, B, b, Y, c) == TriSum(t, A', a', B', b', Y', c')
  {
    hide TriTerm, Size;
    SumIxTransfer(s, t, (M: Index) => TriTerm(A, a, B, b, Y, c, M), (M: Index) => TriTerm(A', a', B', b', Y', c', M), there, back);
  }

  lemma TimesRotate(a: real, b: real, c: real)
    ensures Times(Times(a, b), c) == Times(Times(c, b), a)
    ensures Times(Times(a, b), c) == Times(Times(a, c), b)
  {
  }

  lemma TimesNonzero(a: real, b: real, c: real)
    requires Times(Times(a, b), c) != 0.0
    ensures a != 0.0 && b != 0.0 && c != 0.0
  {
  }

  // ----- matrix product -----

  /** Exchange the last two coordinates. */
  function SwapIx(M: Index): Index
  {
    if |M| < 2 then M else M[..|M| - 2] + [M[|M| - 1], M[|M| - 2]]
  }

  /** Move the third-last coordinate to the end: (i, j, l) becomes (l, j, i). */
  function ReverseIx(M: Index): Index
  {
    if |M| < 3 then M else M[..|M| - 3] + [M[|M| - 1], M[|M| - 2], M[|M| - 3]]
  }

  lemma SwapLastPerm(rank: nat)
    requires rank >= 2
    ensures IsPerm(SwapLast(rank), rank)
    ensures Inverse(SwapLast(rank)) == SwapLast(rank)
    ensures forall a: nat :: a < rank ==> PosIn(SwapLast(rank), a) == SwapLast(rank)[a]
  {
    var p := SwapLast(rank);
    forall a: nat | a < rank ensures p[a] < rank && p[p[a]] == a && a in p && PosIn(p, a) == p[a] {
      assert p[p[a]] == a;
    }
    assert Inverse(p) == p;
  }

  lemma SwapLastIx(I: Index)
    requires |I| >= 2
    ensures TransposeIx(SwapLast(|I|), I) == SwapIx(I)
  {
    hide PosIn, IsPerm;
    SwapLastPerm(|I|);
  }

  function SwapTensor(t: Tensor): (r: Tensor)
    requires |t.shape| >= 2
    ensures r.shape == t.shape[..|t.shape| - 2] + [t.shape[|t.shape| - 1], t.shape[|t.shape| - 2]]
  {
    var r := Transpose(t, SwapLast(|t.shape|));
    assert r.shape == t.shape[..|t.shape| - 2] + [t.shape[|t.shape| - 1], t.shape[|t.shape| - 2]];
    r
  }

  lemma SwapTensorAt(t: Tensor, I: Index)
    requires |t.shape| >= 2 && |I| == |t.shape|
    ensures At(SwapTensor(t), I) == At(t, SwapIx(I))
    ensures Valid(t.shape, SwapIx(I)) <==> Valid(SwapTensor(t).shape, I)
  {
    hide Size, Flat;
    SwapLastIx(I);
    SwapValid(t.shape, I);
  }

  lemma SwapValid(s: Shape, I: Index)
    requires |s| >= 2 && |I| == |s|
    ensures Valid(s, SwapIx(I)) <==> Valid(s[..|s| - 2] + [s[|s| - 1], s[|s| - 2]], I)
  {
    var n := |s|;
    var t := s[..n - 2] + [s[n - 1], s[n - 2]];
    if Valid(s, SwapIx(I)) {
      assert SwapIx(I)[n - 1] == I[n - 2] && SwapIx(I)[n - 2] == I[n - 1];
      assert forall a :: 0 <= a < n - 2 ==> SwapIx(I)[a] == I[a];
    }
    if Valid(t, I) {
      assert t[n - 1] == s[n - 2] && t[n - 2] == s[n - 1];
      assert forall a :: 0 <= a < n - 2 ==> t[a] == s[a];
    }
  }

  lemma MatmulTri(A: Tensor, B: Tensor, Y: Tensor)
    requires MatmulOk(A.shape, B.shape) && Y.shape == MatmulShape(A.shape, B.shape)
    ensures Inner(Y, Matmul(A, B))
         == TriSum(Y.shape + [A.shape[|A.shape| - 1]], A, MatLeft, B, MatRight, Y, (M: Index) => Head(|Y.shape|, M))
  {
    hide Times, Size, At;
    ContractTri(Y.shape, [A.shape[|A.shape| - 1]], A, MatLeft, B, MatRight, Y);
  }

  /** Coordinates of the two forms of A-gradient terms correspond by exchanging the last two axes. */
  lemma LeftTerm(A: Tensor, B: Tensor, Y: Tensor, r: nat, M: Index)
    requires r >= 2 && |M| == r + 1 && |B.shape| == r
    ensures TriTerm(A, MatLeft, B, MatRight, Y, (N: Index) => Head(r, N), M)
         == TriTerm(Y, MatLeft, SwapTensor(B), MatRight, A, (N: Index) => Head(r, N), SwapIx(M))
    ensures SwapIx(SwapIx(M)) == M
  {
    hide Times, Size, At, SwapTensor;
    var K := SwapIx(M);
    assert MatLeft(K) == Head(r, M) && Head(r, K) == MatLeft(M);
    SwapTensorAt(B, MatRight(K));
    assert SwapIx(MatRight(K)) == MatRight(M);
    TimesRotate(At(A, MatLeft(M)), At(B, MatRight(M)), At(Y, Head(r, M)));
  }

  lemma LeftTransfer(A: Tensor, B: Tensor, Y: Tensor, r: nat, s: Shape, t: Shape)
    requires r >= 2 && |B.shape| == r && |s| == |t| == r + 1
    requires s == t[..r - 1] + [t[r], t[r - 1]]
    ensures TriSum(s, A, MatLeft, B, MatRight, Y, (M: Index) => Head(r, M))
         == TriSum(t, Y, MatLeft, SwapTensor(B), MatRight, A, (M: Index) => Head(r, M))
  {
    hide Times, Size, At, SwapTensor, TriTerm, TriSum, SwapIx, Valid;
    var head := (M: Index) => Head(r, M);
    var swap := (M: Index) => SwapIx(M);
    forall M: Index | |M| == r + 1
      ensures TriTerm(A, MatLeft, B, MatRight, Y, head, M) == TriTerm(Y, MatLeft, SwapTensor(B), MatRight, A, head, swap(M))
      ensures swap(swap(M)) == M && |swap(M)| == r + 1 && (Valid(s, M) <==> Valid(t, swap(M)))
    {
      LeftTerm(A, B, Y, r, M);
      SwapValid(t, M);
      SwapLength(M);
    }
    forall M: Index ensures Valid(s, M) || Valid(t, M) ==> |M| == r + 1 {
      ValidLength(s, M);
      ValidLength(t, M);
    }
    TriTransfer(s, A, MatLeft, B, MatRight, Y, head, t, Y, MatLeft, SwapTensor(B), MatRight, A, head, swap, swap);
  }

  lemma ValidLength(s: Shape, I: Index)
    ensures Valid(s, I) ==> |I| == |s|
  {
  }

  lemma SwapLength(M: Index)
    ensures |SwapIx(M)| == |M| && |ReverseIx(M)| == |M|
  {
  }

  /** Matrix product is adjoint, in its left operand, to multiplying by the transposed right operand. */
  lemma MatmulLeftAdjoint(Y: Tensor, A: Tensor, B: Tensor)
    requires MatmulOk(A.shape, B.shape) && Y.shape == MatmulShape(A.shape, B.shape)
    ensures MatmulOk(Y.shape, SwapTensor(B).shape) && MatmulShape(Y.shape, SwapTensor(B).shape) == A.shape
    ensures Inner(Y, Matmul(A, B)) == Inner(Matmul(Y, SwapTensor(B)), A)
  {
    hide Times, Size, At, Inner, Matmul, SwapTensor, TriTerm, TriSum;
    var r := |A.shape|;
    var s, t := Y.shape + [A.shape[r - 1]], A.shape + [Y.shape[r - 1]];
    assert s == t[..r - 1] + [t[r], t[r - 1]];
    assert MatmulShape(Y.shape, SwapTensor(B).shape) == A.shape;
    LeftTransfer(A, B, Y, r, s, t);
    MatmulTri(A, B, Y);
    MatmulTri(Y, SwapTensor(B), A);
    InnerComm(A, Matmul(Y, SwapTensor(B)));
  }

  lemma ReverseValid(s: Shape, I: Index)
    requires |s| >= 3 && |I| == |s|
    ensures Valid(s, ReverseIx(I)) <==> Valid(s[..|s| - 3] + [s[|s| - 1], s[|s| - 2], s[|s| - 3]], I)
  {
    var n := |s|;
    var t := s[..n - 3] + [s[n - 1], s[n - 2], s[n - 3]];
    var R := ReverseIx(I);
    if Valid(s, R) {
      assert R[n - 1] == I[n - 3] && R[n - 2] == I[n - 2] && R[n - 3] == I[n - 1];
      assert forall a :: 0 <= a < n - 3 ==> R[a] == I[a];
    }
    if Valid(t, I) {
      assert t[n - 1] == s[n - 3] && t[n - 2] == s[n - 2] && t[n - 3] == s[n - 1];
      assert forall a :: 0 <= a < n - 3 ==> t[a] == s[a];
    }
  }

  lemma RightTerm(A: Tensor, B: Tensor, Y: Tensor, r: nat, M: Index)
    requires r >= 2 && |M| == r + 1 && |A.shape| == r
    ensures TriTerm(A, MatLeft, B, MatRight, Y, (N: Index) => Head(r, N), M)
         == TriTerm(SwapTensor(A), MatLeft, Y, MatRight, B, (N: Index) => Head(r, N), ReverseIx(M))
    ensures ReverseIx(ReverseIx(M)) == M
  {
    hide Times, Size, At, SwapTensor;
    var K := ReverseIx(M);
    assert MatRight(K) == Head(r, M) && Head(r, K) == MatRight(M);
    SwapTensorAt(A, MatLeft(K));
    assert SwapIx(MatLeft(K)) == MatLeft(M);
    TimesRotate(At(A, MatLeft(M)), At(B, MatRight(M)), At(Y, Head(r, M)));
  }

  lemma RightTransfer(A: Tensor, B: Tensor, Y: Tensor, r: nat, s: Shape, t: Shape)
    requires r >= 2 && |A.shape| == r && |s| == |t| == r + 1
    requires s == t[..r - 2] + [t[r], t[r - 1], t[r - 2]]
    ensures TriSum(s, A, MatLeft, B, MatRight, Y, (M: Index) => Head(r, M))
         == TriSum(t, SwapTensor(A), MatLeft, Y, MatRight, B, (M: Index) => Head(r, M))
  {
    hide Times, Size, At, SwapTensor, TriTerm, TriSum, ReverseIx, Valid;
    var head := (M: Index) => Head(r, M);
    var rev := (M: Index) => ReverseIx(M);
    forall M: Index | |M| == r + 1
      ensures TriTerm(A, MatLeft, B, MatRight, Y, head, M) == TriTerm(SwapTensor(A), MatLeft, Y, MatRight, B, head, rev(M))
      ensures rev(rev(M)) == M && |rev(M)| == r + 1 && (Valid(s, M) <==> Valid(t, rev(M)))
    {
      RightTerm(A, B, Y, r, M);
      ReverseValid(t, M);
      SwapLength(M);
    }
    forall M: Index ensures Valid(s, M) || Valid(t, M) ==> |M| == r + 1 {
      ValidLength(s, M);
      ValidLength(t, M);
    }
    TriTransfer(s, A, MatLeft, B, MatRight, Y, head, t, SwapTensor(A), MatLeft, Y, MatRight, B, head, rev, rev);
  }

  /** Matrix product is adjoint, in its right operand, to multiplying by the transposed left operand. */
  lemma MatmulRightAdjoint(Y: Tensor, A: Tensor, B: Tensor)
    requires MatmulOk(A.shape, B.shape) && Y.shape == MatmulShape(A.shape, B.shape)
    ensures MatmulOk(SwapTensor(A).shape, Y.shape) && MatmulShape(SwapTensor(A).shape, Y.shape) == B.shape
    ensures Inner(Y, Matmul(A, B)) == Inner(Matmul(SwapTensor(A), Y), B)
  {
    hide Times, Size, At, Inner, Matmul, SwapTensor, TriTerm, TriSum;
    var r := |A.shape|;
    var s, t := Y.shape + [A.shape[r - 1]], B.shape + [Y.shape[r - 2]];
    assert s == t[..r - 2] + [t[r], t[r - 1], t[r - 2]];
    assert MatmulShape(SwapTensor(A).shape, Y.shape) == B.shape;
    assert SwapTensor(A).shape[r - 1] == Y.shape[r - 2];
    RightTransfer(A, B, Y, r, s, t);
    MatmulTri(A, B, Y);
    MatmulTri(SwapTensor(A), Y, B);
    InnerComm(B, Matmul(SwapTensor(A), Y));
  }
}
