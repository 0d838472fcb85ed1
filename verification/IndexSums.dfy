/** Sums over all coordinates of a shape, independent of the memory order. */
module IndexSums {
  import opened Products
  import opened Sums
  import opened Shapes

  function Pick(s: Shape, f: Index -> real, k: nat): real
  {
    if k < Size(s) then f(Unflat(s, k)) else 0.0
  }

  /** The sum of f over every valid coordinate of s. */
  function SumIx(s: Shape, f: Index -> real): real
  {
    Sum(Size(s), (k: nat) => Pick(s, f, k))
  }

  lemma SumIxCong(s: Shape, f: Index -> real, g: Index -> real)
    requires forall I :: Valid(s, I) ==> f(I) == g(I)
    ensures SumIx(s, f) == SumIx(s, g)
  {
    SumCong(Size(s), (k: nat) => Pick(s, f, k), (k: nat) => Pick(s, g, k));
  }

  lemma SumIxZero(s: Shape, f: Index -> real)
    requires forall I :: Valid(s, I) ==> f(I) == 0.0
    ensures SumIx(s, f) == 0.0
  {
    SumZero(Size(s), (k: nat) => Pick(s, f, k));
  }

  lemma SumIxAdd(s: Shape, f: Index -> real, g: Index -> real, h: Index -> real)
    requires forall I :: Valid(s, I) ==> h(I) == f(I) + g(I)
    ensures SumIx(s, h) == SumIx(s, f) + SumIx(s, g)
  {
    SumAdd(Size(s), (k: nat) => Pick(s, f, k), (k: nat) => Pick(s, g, k), (k: nat) => Pick(s, h, k));
  }

  lemma SumIxScale(s: Shape, c: real, f: Index -> real, h: Index -> real)
    requires forall I :: Valid(s, I) ==> h(I) == Times(c, f(I))
    ensures SumIx(s, h) == Times(c, SumIx(s, f))
  {
    hide Times;
    SumScale(Size(s), c, (k: nat) => Pick(s, f, k), (k: nat) => Pick(s, h, k));
  }

  lemma SumIxDelta(s: Shape, J: Index, f: Index -> real)
    requires Valid(s, J)
    requires forall I :: Valid(s, I) && I != J ==> f(I) == 0.0
    ensures SumIx(s, f) == f(J)
  {
    var k := Flat(s, J);
    UnflatFlat(s, J);
    var p := (i: nat) => Pick(s, f, i);
    forall i: nat | i < Size(s) && i != k ensures p(i) == 0.0 {
      FlatUnflat(s, i);
    }
    SumDelta(Size(s), k, p);
  }

  function RowIx(F: (Index, Index) -> real, t: Shape, I: Index): real
  {
    SumIx(t, (J: Index) => F(I, J))
  }

  function ColIx(F: (Index, Index) -> real, s: Shape, J: Index): real
  {
    SumIx(s, (I: Index) => F(I, J))
  }

  lemma RowIxCong(F: (Index, Index) -> real, t: Shape, I: Index, g: Index -> real)
    requires forall J :: Valid(t, J) ==> F(I, J) == g(J)
    ensures RowIx(F, t, I) == SumIx(t, g)
  {
    SumIxCong(t, (J: Index) => F(I, J), g);
  }

  lemma ColIxCong(F: (Index, Index) -> real, s: Shape, J: Index, g: Index -> real)
    requires forall I :: Valid(s, I) ==> F(I, J) == g(I)
    ensures ColIx(F, s, J) == SumIx(s, g)
  {
    SumIxCong(s, (I: Index) => F(I, J), g);
  }

  lemma RowIxDelta(F: (Index, Index) -> real, t: Shape, I: Index, K: Index)
    requires Valid(t, K)
    requires forall J :: Valid(t, J) && J != K ==> F(I, J) == 0.0
    ensures RowIx(F, t, I) == F(I, K)
  {
    SumIxDelta(t, K, (J: Index) => F(I, J));
  }

  lemma ColIxDelta(F: (Index, Index) -> real, s: Shape, J: Index, K: Index)
    requires Valid(s, K)
    requires forall I :: Valid(s, I) && I != K ==> F(I, J) == 0.0
    ensures ColIx(F, s, J) == F(K, J)
  {
    SumIxDelta(s, K, (I: Index) => F(I, J));
  }

  lemma RowIxZero(F: (Index, Index) -> real, t: Shape, I: Index)
    requires forall J :: Valid(t, J) ==> F(I, J) == 0.0
    ensures RowIx(F, t, I) == 0.0
  {
    SumIxZero(t, (J: Index) => F(I, J));
  }

  lemma ColIxZero(F: (Index, Index) -> real, s: Shape, J: Index)
    requires forall I :: Valid(s, I) ==> F(I, J) == 0.0
    ensures ColIx(F, s, J) == 0.0
  {
    SumIxZero(s, (I: Index) => F(I, J));
  }

  function Cell(s: Shape, t: Shape, F: (Index, Index) -> real, i: nat, j: nat): real
  {
    if i < Size(s) && j < Size(t) then F(Unflat(s, i), Unflat(t, j)) else 0.0
  }

  /** Exchanging two sums over coordinates. */
  lemma SumIxSwap(s: Shape, t: Shape, F: (Index, Index) -> real, rows: Index -> real, cols: Index -> real)
    requires forall I :: Valid(s, I) ==> rows(I) == RowIx(F, t, I)
    requires forall J :: Valid(t, J) ==> cols(J) == ColIx(F, s, J)
    ensures SumIx(s, rows) == SumIx(t, cols)
  {
    var G := (i: nat, j: nat) => Cell(s, t, F, i, j);
    forall i: nat | i < Size(s) ensures Pick(s, rows, i) == Row(G, Size(t), i) {
      var I := Unflat(s, i);
      RowCong(G, Size(t), i, (k: nat) => Pick(t, (J: Index) => F(I, J), k));
    }
    forall j: nat | j < Size(t) ensures Pick(t, cols, j) == Col(G, Size(s), j) {
      var J := Unflat(t, j);
      ColCong(G, Size(s), j, (k: nat) => Pick(s, (I: Index) => F(I, J), k));
    }
    SumSwap(Size(s), Size(t), G, (k: nat) => Pick(s, rows, k), (k: nat) => Pick(t, cols, k));
  }

  /** One-to-one correspondence between the nonzero terms of two sums. */
  ghost predicate Matches(s: Shape, f: Index -> real, t: Shape, g: Index -> real, there: Index -> Index, back: Index -> Index)
  {
    forall I :: Valid(s, I) && f(I) != 0.0 ==>
      Valid(t, there(I)) && g(there(I)) == f(I) && back(there(I)) == I
  }

  function TransferCell(f: Index -> real, there: Index -> Index, I: Index, J: Index): real
  {
    if there(I) == J then f(I) else 0.0
  }

  lemma TransferRow(s: Shape, t: Shape, f: Index -> real, there: Index -> Index, I: Index)
    requires f(I) != 0.0 ==> Valid(t, there(I))
    ensures RowIx((A: Index, B: Index) => TransferCell(f, there, A, B), t, I) == f(I)
  {
    var F := (A: Index, B: Index) => TransferCell(f, there, A, B);
    if f(I) != 0.0 {
      RowIxDelta(F, t, I, there(I));
    } else {
      RowIxZero(F, t, I);
    }
  }

  lemma TransferCol(s: Shape, t: Shape, f: Index -> real, g: Index -> real, there: Index -> Index, back: Index -> Index, J: Index)
    requires Valid(t, J)
    requires Matches(s, f, t, g, there, back)
    requires Matches(t, g, s, f, back, there)
    ensures ColIx((A: Index, B: Index) => TransferCell(f, there, A, B), s, J) == g(J)
  {
    var F := (A: Index, B: Index) => TransferCell(f, there, A, B);
    if g(J) != 0.0 {
      ColIxDelta(F, s, J, back(J));
    } else {
      ColIxZero(F, s, J);
    }
  }

  /** Sums whose nonzero terms correspond one to one are equal. */
  lemma SumIxTransfer(s: Shape, t: Shape, f: Index -> real, g: Index -> real, there: Index -> Index, back: Index -> Index)
    requires Matches(s, f, t, g, there, back)
    requires Matches(t, g, s, f, back, there)
    ensures SumIx(s, f) == SumIx(t, g)
  {
    var F := (A: Index, B: Index) => TransferCell(f, there, A, B);
    forall I | Valid(s, I) ensures f(I) == RowIx(F, t, I) {
      TransferRow(s, t, f, there, I);
    }
    forall J | Valid(t, J) ensures g(J) == ColIx(F, s, J) {
      TransferCol(s, t, f, g, there, back, J);
    }
    SumIxSwap(s, t, F, f, g);
  }

  /** Summing over a concatenated shape is summing over its two parts. */
  lemma SumIxConcat(s: Shape, t: Shape, f: Index -> real, rows: Index -> real)
    requires forall I :: Valid(s, I) ==> rows(I) == SumIx(t, (J: Index) => f(I + J))
    ensures SumIx(s + t, f) == SumIx(s, rows)
  {
    hide Scale;
    var n, m := Size(s), Size(t);
    var F := (i: nat, j: nat) => Cell(s, t, (I: Index, J: Index) => f(I + J), i, j);
    SizeConcat(s, t);
    forall i: nat, j: nat | i < n && j < m ensures F(i, j) == Pick(s + t, f, Scale(i, m) + j) {
      ConcatPick(s, t, f, i, j);
    }
    forall i: nat | i < n ensures Pick(s, rows, i) == Row(F, m, i) {
      var I := Unflat(s, i);
      RowCong(F, m, i, (k: nat) => Pick(t, (J: Index) => f(I + J), k));
    }
    SumProduct(n, m, (k: nat) => Pick(s + t, f, k), (k: nat) => Pick(s, rows, k), F);
  }

  lemma ConcatPick(s: Shape, t: Shape, f: Index -> real, i: nat, j: nat)
    requires i < Size(s) && j < Size(t)
    ensures Scale(i, Size(t)) + j < Size(s + t)
    ensures Pick(s + t, f, Scale(i, Size(t)) + j) == f(Unflat(s, i) + Unflat(t, j))
  {
    hide Scale, Size, Unflat, Flat;
    UnflatConcat(s, t, i, j);
  }
}
