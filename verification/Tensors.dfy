/** Real-valued tensors: a shape and row-major data. */
module Tensors {
  import opened Products
  import opened Sums
  import opened Shapes
  import opened IndexSums

  datatype RawTensor = Dense(shape: Shape, data: seq<real>)

  type Tensor = t: RawTensor | |t.data| == Size(t.shape) witness Dense([], [0.0])

  /** Element at a coordinate; coordinates outside the shape read zero. */
  function At(t: Tensor, ix: Index): real
  {
    if Valid(t.shape, ix) then t.data[Flat(t.shape, ix)] else 0.0
  }

  function Build(shape: Shape, f: Index -> real): (t: Tensor)
    ensures t.shape == shape
    ensures forall ix :: Valid(shape, ix) ==> At(t, ix) == f(ix)
  {
    var t := Dense(shape, seq(Size(shape), (k: nat) requires k < Size(shape) => f(Unflat(shape, k))));
    assert forall ix :: Valid(shape, ix) ==> At(t, ix) == f(ix) by {
      forall ix | Valid(shape, ix) ensures At(t, ix) == f(ix) {
        UnflatFlat(shape, ix);
      }
    }
    t
  }

  lemma Ext(a: Tensor, b: Tensor)
    requires a.shape == b.shape
    requires forall ix :: Valid(a.shape, ix) ==> At(a, ix) == At(b, ix)
    ensures a == b
  {
    forall k: nat | k < Size(a.shape) ensures a.data[k] == b.data[k] {
      var ix := Unflat(a.shape, k);
      assert At(a, ix) == At(b, ix);
      FlatUnflat(a.shape, k);
    }
  }

  /** A shape with an empty axis has no coordinates. */
  lemma NoIndex(s: Shape, I: Index)
    requires 0 in s
    ensures !Valid(s, I)
  {
    var a :| 0 <= a < |s| && s[a] == 0;
    if |I| == |s| {
      assert !(0 <= I[a] < s[a]);
    }
  }

  // ----- inner product and adjoint gathers -----

  function Inner(a: Tensor, b: Tensor): real
    requires a.shape == b.shape
  {
    SumIx(a.shape, (I: Index) => Times(At(a, I), At(b, I)))
  }

  /** The sum of y over the coordinates that phi sends to J. */
  function FiberSum(y: Tensor, phi: Index -> Index, J: Index): real
  {
    SumIx(y.shape, (I: Index) => FiberAt(y, phi, J, I))
  }

  function FiberAt(y: Tensor, phi: Index -> Index, J: Index, I: Index): real
  {
    if phi(I) == J then At(y, I) else 0.0
  }

  function FiberCell(y: Tensor, x: Tensor, phi: Index -> Index, I: Index, J: Index): real
  {
    if phi(I) == J then Times(At(y, I), At(x, J)) else 0.0
  }

  lemma FiberRow(y: Tensor, x: Tensor, phi: Index -> Index, I: Index)
    ensures RowIx((A: Index, B: Index) => FiberCell(y, x, phi, A, B), x.shape, I) == Times(At(y, I), At(x, phi(I)))
  {
    hide Times;
    var F := (A: Index, B: Index) => FiberCell(y, x, phi, A, B);
    if Valid(x.shape, phi(I)) {
      RowIxDelta(F, x.shape, I, phi(I));
    } else {
      RowIxZero(F, x.shape, I);
      TimesZero(At(y, I));
    }
  }

  lemma FiberCol(y: Tensor, x: Tensor, phi: Index -> Index, J: Index)
    ensures ColIx((A: Index, B: Index) => FiberCell(y, x, phi, A, B), y.shape, J) == Times(At(x, J), FiberSum(y, phi, J))
  {
    hide Times;
    var F := (A: Index, B: Index) => FiberCell(y, x, phi, A, B);
    var f := (I: Index) => FiberAt(y, phi, J, I);
    var h := (I: Index) => FiberCell(y, x, phi, I, J);
    forall I | Valid(y.shape, I) ensures h(I) == Times(At(x, J), f(I)) {
      TimesComm(At(y, I), At(x, J));
      TimesZero(At(x, J));
    }
    SumIxScale(y.shape, At(x, J), f, h);
    ColIxCong(F, y.shape, J, h);
  }

  /** Reading through an index map and summing over its fibres are adjoint. */
  lemma FiberAdjoint(y: Tensor, x: Tensor, px: Tensor, bx: Tensor, phi: Index -> Index)
    requires px.shape == y.shape && bx.shape == x.shape
    requires forall I :: Valid(y.shape, I) ==> At(px, I) == At(x, phi(I))
    requires forall J :: Valid(x.shape, J) ==> At(bx, J) == FiberSum(y, phi, J)
    ensures Inner(y, px) == Inner(bx, x)
  {
    hide Times;
    var F := (A: Index, B: Index) => FiberCell(y, x, phi, A, B);
    var rows := (I: Index) => Times(At(y, I), At(px, I));
    var cols := (J: Index) => Times(At(bx, J), At(x, J));
    forall I | Valid(y.shape, I) ensures rows(I) == RowIx(F, x.shape, I) {
      FiberRow(y, x, phi, I);
    }
    forall J | Valid(x.shape, J) ensures cols(J) == ColIx(F, y.shape, J) {
      FiberCol(y, x, phi, J);
      TimesComm(At(bx, J), At(x, J));
    }
    SumIxSwap(y.shape, x.shape, F, rows, cols);
  }

  /** Partial index maps inverse to each other give adjoint gathers. */
  lemma PullAdjoint(y: Tensor, x: Tensor, px: Tensor, py: Tensor, phi: Index -> Index, psi: Index -> Index)
    requires px.shape == y.shape && py.shape == x.shape
    requires forall I :: Valid(y.shape, I) ==> At(px, I) == At(x, phi(I))
    requires forall J :: Valid(x.shape, J) ==> At(py, J) == At(y, psi(J))
    requires forall I, J :: Valid(y.shape, I) && Valid(x.shape, J) ==> (phi(I) == J <==> psi(J) == I)
    ensures Inner(y, px) == Inner(py, x)
  {
    forall J | Valid(x.shape, J) ensures At(py, J) == FiberSum(y, phi, J) {
      var f := (I: Index) => FiberAt(y, phi, J, I);
      if Valid(y.shape, psi(J)) {
        SumIxDelta(y.shape, psi(J), f);
      } else {
        SumIxZero(y.shape, f);
      }
    }
    FiberAdjoint(y, x, px, py, phi);
  }
}
