/** Diagonals of two axes as strided flat slices, and embedding a vector as a diagonal. */
module Diagonals {
  import opened Options
  import opened Products
  import opened Shapes
  import opened Tensors
  import opened TensorOps
  import opened Adjoints
  import opened Slabs

  // ----- axis orders -----

  /** The axes below n other than a and b, in order. */
  function Others(n: nat, a: nat, b: nat): (r: seq<nat>)
    ensures forall k :: 0 <= k < |r| ==> r[k] < n && r[k] != a && r[k] != b
    ensures forall k, l :: 0 <= k < l < |r| ==> r[k] < r[l]
    ensures forall x :: 0 <= x < n && x != a && x != b ==> x in r
  {
    if n == 0 then [] else if n - 1 == a || n - 1 == b then Others(n - 1, a, b) else Others(n - 1, a, b) + [n - 1]
  }

  lemma {:induction false} OthersCount(n: nat, a: nat, b: nat)
    requires a != b
    ensures |Others(n, a, b)| == n - (if a < n then 1 else 0) - (if b < n then 1 else 0)
  {
    if n > 0 {
      OthersCount(n - 1, a, b);
    }
  }

  function PairLast(n: nat, a: nat, b: nat): seq<nat>
  {
    Others(n, a, b) + [a, b]
  }

  lemma PairLastPerm(n: nat, a: nat, b: nat)
    requires a < n && b < n && a != b
    ensures IsPerm(PairLast(n, a, b), n)
  {
    OthersCount(n, a, b);
    var p, o := PairLast(n, a, b), Others(n, a, b);
    forall x | 0 <= x < n ensures x in p {
      if x == a {
        assert p[|o|] == a;
      } else if x == b {
        assert p[|o| + 1] == b;
      } else {
        assert x in o;
        var k :| 0 <= k < |o| && o[k] == x;
        assert p[k] == x;
      }
    }
  }

  /** Permuting a coordinate and reading it through the transpose gives the coordinate back. */
  lemma TransposeReads(t: Tensor, perm: seq<nat>, J: Index)
    requires IsPerm(perm, |t.shape|) && Valid(t.shape, J)
    ensures Valid(Permuted(t.shape, perm), Permuted(J, perm))
    ensures At(Transpose(t, perm), Permuted(J, perm)) == At(t, J)
  {
    hide Size, At;
    forall p: nat | p < |perm| ensures TransposeIx(perm, Permuted(J, perm))[p] == J[p] {
      assert p in perm;
    }
    assert TransposeIx(perm, Permuted(J, perm)) == J;
  }

  // ----- extracting a diagonal -----

  /** Where an offset diagonal starts, and how long it is. */
  datatype Diag = Diag(row: nat, col: nat, len: nat)

  function DiagOf(rows: nat, cols: nat, offset: int): (d: Diag)
    ensures d.row <= rows && d.col <= cols && (d.row == 0 || d.col == 0)
    ensures d.len == if rows - d.row < cols - d.col then rows - d.row else cols - d.col
  {
    var row: nat := if offset < 0 then (if -offset < rows then -offset else rows) else 0;
    var col: nat := if offset > 0 then (if offset < cols then offset else cols) else 0;
    Diag(row, col, if rows - row < cols - col then rows - row else cols - col)
  }

  predicate DiagonalOk(shape: Shape, a: nat, b: nat)
  {
    a < |shape| && b < |shape| && a != b
  }

  function FlatStart(d: Diag, cols: nat): nat
  {
    if d.len == 0 then 0 else d.row * cols + d.col
  }

  function FlatStride(d: Diag, cols: nat): (s: nat)
    ensures s > 0
  {
    if d.len <= 1 then 1 else cols + 1
  }

  function FlatLimit(d: Diag, cols: nat): nat
  {
    if d.len == 0 then 0 else FlatStart(d, cols) + (d.len - 1) * FlatStride(d, cols) + 1
  }

  /** Flat position of the i-th diagonal entry. */
  lemma FlatEntry(d: Diag, cols: nat, i: nat)
    requires i < d.len
    ensures FlatStart(d, cols) + i * FlatStride(d, cols) == (d.row + i) * cols + (d.col + i)
  {
    if d.len == 1 {
      assert i == 0;
    } else {
      assert i * (cols + 1) == i * cols + i;
      assert (d.row + i) * cols == d.row * cols + i * cols;
    }
  }

  lemma StridedCount(start: nat, n: nat, s: nat)
    requires n > 0 && s > 0
    ensures (n - 1) * s >= 0
    ensures SliceDim(SliceAxis(start, start + (n - 1) * s + 1, s)) == n
  {
    MulGap(-1, n - 1, s);
    if s == 1 {
      assert (n - 1) * s + 1 == n;
      DivModUnique(1, n, 0);
    } else {
      DivModUnique(s, n - 1, 1);
    }
  }

  /** The strided slice stays inside the flattened matrix and has one entry per diagonal element. */
  lemma FlatSlice(rows: nat, cols: nat, offset: int)
    ensures var d := DiagOf(rows, cols, offset);
      && FlatStart(d, cols) <= FlatLimit(d, cols) <= rows * cols
      && SliceDim(SliceAxis(FlatStart(d, cols), FlatLimit(d, cols), FlatStride(d, cols))) == d.len
  {
    hide SliceDim, DiagOf;
    var d := DiagOf(rows, cols, offset);
    if d.len > 0 {
      StridedCount(FlatStart(d, cols), d.len, FlatStride(d, cols));
      FlatEntry(d, cols, d.len - 1);
      MulGap(d.row + d.len - 1, rows, cols);
    } else {
      MulGap(-1, rows, cols);
      EmptySlice();
    }
  }

  lemma EmptySlice()
    ensures SliceDim(SliceAxis(0, 0, 1)) == 0
  {
  }

  function OtherShape(shape: Shape, a: nat, b: nat): (r: Shape)
    requires DiagonalOk(shape, a, b)
    ensures |r| == |shape| - 2
  {
    OthersCount(|shape|, a, b);
    Permuted(shape, Others(|shape|, a, b))
  }

  lemma MatrixLast(shape: Shape, a: nat, b: nat)
    requires DiagonalOk(shape, a, b)
    ensures IsPerm(PairLast(|shape|, a, b), |shape|)
    ensures Permuted(shape, PairLast(|shape|, a, b)) == OtherShape(shape, a, b) + [shape[a], shape[b]]
    ensures Size([shape[a], shape[b]]) == shape[a] * shape[b]
    ensures Size(OtherShape(shape, a, b) + [shape[a], shape[b]]) == Size(OtherShape(shape, a, b) + [shape[a] * shape[b]])
  {
    hide Size;
    PairLastPerm(|shape|, a, b);
    var rest := OtherShape(shape, a, b);
    assert Permuted(shape, PairLast(|shape|, a, b)) == rest + [shape[a], shape[b]];
    SizeTwo(shape[a], shape[b]);
    SizeMerge(rest, [shape[a], shape[b]], []);
    assert rest + [shape[a], shape[b]] + [] == rest + [shape[a], shape[b]];
    assert rest + [shape[a] * shape[b]] + [] == rest + [shape[a] * shape[b]];
  }

  /** Transpose the two axes last, flatten them, and take a strided slice. */
  function Diagonal(t: Tensor, offset: int, a: nat, b: nat): (r: Tensor)
    requires DiagonalOk(t.shape, a, b)
    ensures r.shape == OtherShape(t.shape, a, b) + [DiagOf(t.shape[a], t.shape[b], offset).len]
  {
    hide Size, SliceDim, FlatStart, FlatStride, FlatLimit, IsPerm, DiagOf;
    var rows, cols := t.shape[a], t.shape[b];
    var d, rest := DiagOf(rows, cols, offset), OtherShape(t.shape, a, b);
    MatrixLast(t.shape, a, b);
    FlatSlice(rows, cols, offset);
    assert IsPerm(PairLast(|t.shape|, a, b), |t.shape|);
    var flat := Reshape(Ordered(t, a, b), rest + [rows * cols]);
    assert (rest + [rows * cols])[|rest| := d.len] == rest + [d.len];
    SliceAlong(flat, |rest|, FlatStart(d, cols), FlatLimit(d, cols), FlatStride(d, cols))
  }

  function Ordered(t: Tensor, a: nat, b: nat): (r: Tensor)
    requires DiagonalOk(t.shape, a, b)
    ensures r.shape == OtherShape(t.shape, a, b) + [t.shape[a], t.shape[b]]
  {
    MatrixLast(t.shape, a, b);
    Transpose(t, PairLast(|t.shape|, a, b))
  }

  lemma FlattenLast(t: Tensor, rest: Shape, rows: nat, cols: nat, R: Index, x: nat, y: nat)
    requires t.shape == rest + [rows, cols] && Valid(rest, R) && x < rows && y < cols
    ensures Size(rest + [rows * cols]) == Size(t.shape)
    ensures Valid(rest + [rows * cols], R + [x * cols + y])
    ensures At(Reshape(t, rest + [rows * cols]), R + [x * cols + y]) == At(t, R + [x, y])
  {
    hide Size, Flat, At;
    SizeTwo(rows, cols);
    FlatTwo(rows, cols, x, y);
    SizeMerge(rest, [rows, cols], []);
    FlatMerge(rest, [rows, cols], [], R, [x, y], []);
    assert rest + [rows, cols] + [] == rest + [rows, cols] && rest + [rows * cols] + [] == rest + [rows * cols];
    assert R + [x, y] + [] == R + [x, y] && R + [x * cols + y] + [] == R + [x * cols + y];
    assert Scale(rows, cols) == rows * cols && Scale(x, cols) == x * cols;
    ReshapeAt(t, rest + [rows * cols], R + [x * cols + y], R + [x, y]);
  }

  /** A coordinate without its entries on the two axes. */
  function Rest(J: Index, a: nat, b: nat): Index
  {
    Permuted(J, Others(|J|, a, b))
  }

  lemma DiagonalIndex(shape: Shape, J: Index, a: nat, b: nat)
    requires DiagonalOk(shape, a, b) && Valid(shape, J)
    ensures |J| == |shape| && 0 <= J[a] < shape[a] && 0 <= J[b] < shape[b]
    ensures Valid(OtherShape(shape, a, b), Rest(J, a, b)) && |Rest(J, a, b)| == |OtherShape(shape, a, b)|
    ensures forall k: nat :: k < |PairLast(|J|, a, b)| ==> PairLast(|J|, a, b)[k] < |J|
    ensures Permuted(J, PairLast(|J|, a, b)) == Rest(J, a, b) + [J[a], J[b]]
  {
  }

  lemma OrderedAt(t: Tensor, a: nat, b: nat, J: Index)
    requires DiagonalOk(t.shape, a, b) && Valid(t.shape, J)
    ensures |J| == |t.shape| && At(Ordered(t, a, b), Rest(J, a, b) + [J[a], J[b]]) == At(t, J)
  {
    hide Size, At, Transpose, IsPerm, Valid;
    DiagonalIndex(t.shape, J, a, b);
    MatrixLast(t.shape, a, b);
    TransposeReads(t, PairLast(|t.shape|, a, b), J);
  }

  lemma DiagonalSlice(t: Tensor, offset: int, a: nat, b: nat, R: Index, i: nat)
    requires DiagonalOk(t.shape, a, b) && Valid(OtherShape(t.shape, a, b), R)
    requires i < DiagOf(t.shape[a], t.shape[b], offset).len
    ensures var d := DiagOf(t.shape[a], t.shape[b], offset);
      && Valid(Diagonal(t, offset, a, b).shape, R + [i])
      && At(Diagonal(t, offset, a, b), R + [i]) == At(Ordered(t, a, b), R + [d.row + i, d.col + i])
  {
    hide Size, Flat, At, FlatStart, FlatStride, FlatLimit, Ordered, Reshape, SliceAlong, SliceDim, OtherShape;
    var rows, cols := t.shape[a], t.shape[b];
    var d, rest := DiagOf(rows, cols, offset), OtherShape(t.shape, a, b);
    FlatSlice(rows, cols, offset);
    FlatEntry(d, cols, i);
    MatrixLast(t.shape, a, b);
    var flat := Reshape(Ordered(t, a, b), rest + [rows * cols]);
    var k := (d.row + i) * cols + (d.col + i);
    assert Without(flat.shape, |rest|) == rest;
    SliceAlongAt(flat, |rest|, FlatStart(d, cols), FlatLimit(d, cols), FlatStride(d, cols), R, i);
    assert Insert(R, |rest|, i) == R + [i] && Insert(R, |rest|, k) == R + [k];
    FlattenLast(Ordered(t, a, b), rest, rows, cols, R, d.row + i, d.col + i);
  }

  /** Entry i of the diagonal is the tensor at (row + i, col + i) on the two axes, all other coordinates unchanged. */
  lemma DiagonalAt(t: Tensor, offset: int, a: nat, b: nat, J: Index, i: nat)
    requires DiagonalOk(t.shape, a, b) && Valid(t.shape, J)
    requires |J| == |t.shape| && J[a] == DiagOf(t.shape[a], t.shape[b], offset).row + i
    requires J[b] == DiagOf(t.shape[a], t.shape[b], offset).col + i
    ensures Valid(Diagonal(t, offset, a, b).shape, Rest(J, a, b) + [i])
    ensures At(Diagonal(t, offset, a, b), Rest(J, a, b) + [i]) == At(t, J)
  {
    hide Size, At, Diagonal, Ordered, Valid, Rest;
    DiagonalIndex(t.shape, J, a, b);
    OrderedAt(t, a, b, J);
    DiagonalSlice(t, offset, a, b, Rest(J, a, b), i);
  }

  // ----- embedding a diagonal -----

  function Edges(rank: nat, axis: nat, low: nat, high: nat): seq<Edge>
  {
    seq(rank, (a: nat) => if a == axis then Edge(low, high) else Edge(0, 0))
  }

  /** Zero padding of one axis of a tensor. */
  function PadAxis(t: Tensor, axis: nat, low: nat, high: nat): (r: Tensor)
    requires axis < |t.shape|
    ensures r.shape == t.shape[axis := t.shape[axis] + low + high]
  {
    assert PadShape(t.shape, Edges(|t.shape|, axis, low, high)) == t.shape[axis := t.shape[axis] + low + high];
    Pad(t, Edges(|t.shape|, axis, low, high), Fill([], 0.0))
  }

  lemma PadAxisAt(t: Tensor, axis: nat, low: nat, high: nat, I: Index)
    requires axis < |t.shape| && Valid(t.shape[axis := t.shape[axis] + low + high], I)
    ensures At(PadAxis(t, axis, low, high), I) == At(t, I[axis := I[axis] - low])
  {
    hide Size, Flat;
    var J := I[axis := I[axis] - low];
    assert ShiftIx(I, Lows(Edges(|t.shape|, axis, low, high))) == J;
    assert Valid([], []);
  }

  /** Rows one longer than a square, flattened and cut at the square's length. */
  function Cut(padded: Tensor, pre: Shape, n: nat): (r: Tensor)
    requires padded.shape == pre + [n, n + 1]
    ensures r.shape == pre + [n, n]
  {
    hide Size, Scale, SliceAlong;
    MergeTwo(pre, n, n + 1);
    MergeTwo(pre, n, n);
    SquareFits(n);
    var flat := Reshape(padded, pre + [Scale(n, n + 1)]);
    UnitSteps(Scale(n, n));
    var cut := SliceAlong(flat, |pre|, 0, Scale(n, n), 1);
    assert flat.shape[|pre| := Scale(n, n)] == pre + [Scale(n, n)];
    Reshape(cut, pre + [n, n])
  }

  /** The vector on the main diagonal of a square matrix: pad each entry to a row one longer than the matrix, and cut
      the flattened rows at the square's length. */
  function Square(t: Tensor): (r: Tensor)
    requires |t.shape| > 0
    ensures r.shape == t.shape[..|t.shape| - 1] + [t.shape[|t.shape| - 1], t.shape[|t.shape| - 1]]
  {
    hide Size, PadAxis, Unsqueeze, Cut;
    var r, pre, n := |t.shape|, t.shape[..|t.shape| - 1], t.shape[|t.shape| - 1];
    var column := Unsqueeze(t, r);
    assert column.shape == pre + [n, 1];
    var padded := PadAxis(column, r, 0, n);
    assert padded.shape == pre + [n, n + 1];
    Cut(padded, pre, n)
  }

  lemma MergeTwo(pre: Shape, m: nat, n: nat)
    ensures Size(pre + [m, n]) == Size(pre + [Scale(m, n)])
  {
    hide Size, Scale;
    SizeTwo(m, n);
    SizeMerge(pre, [m, n], []);
    assert pre + [m, n] + [] == pre + [m, n] && pre + [Scale(m, n)] + [] == pre + [Scale(m, n)];
  }

  lemma UnitSteps(n: nat)
    ensures SliceDim(SliceAxis(0, n, 1)) == n
  {
    DivModUnique(1, n, 0);
  }

  lemma SquareFits(n: nat)
    ensures Scale(n, n) <= Scale(n, n + 1)
  {
  }

  /** Position i n + j of the cut rows is an entry of column 0 of the padded rows exactly on the diagonal. */
  lemma CutPosition(n: nat, i: nat, j: nat)
    requires i < n && j < n
    ensures var k := Scale(i, n) + j;
      && k < Scale(n, n)
      && (if j >= i then k == Scale(i, n + 1) + (j - i) && j - i < n + 1
          else k == Scale(i - 1, n + 1) + (n + 1 + j - i) && 0 < n + 1 + j - i < n + 1)
  {
    MulGap(i, n, n);
    assert i * (n + 1) == i * n + i;
    assert (i - 1) * (n + 1) == i * (n + 1) - (n + 1);
  }

  lemma PaddedAt(t: Tensor, pre: Shape, n: nat, p: Index, i: nat, c: nat)
    requires t.shape == pre + [n] && Valid(pre, p) && i < n && c < n + 1
    ensures Unsqueeze(t, |pre| + 1).shape == pre + [n, 1]
    ensures At(PadAxis(Unsqueeze(t, |pre| + 1), |pre| + 1, 0, n), p + [i, c]) == if c == 0 then At(t, p + [i]) else 0.0
  {
    hide Size, At, Unsqueeze, PadAxis;
    var u, I := Unsqueeze(t, |pre| + 1), p + [i, c];
    assert u.shape == pre + [n, 1];
    assert u.shape[|pre| + 1 := 1 + n] == pre + [n, 1 + n];
    PadAxisAt(u, |pre| + 1, 0, n, I);
    assert I[|pre| + 1 := c] == I;
    if c == 0 {
      UnsqueezeAt(t, |pre| + 1, p + [i]);
      assert Insert(p + [i], |pre| + 1, 0) == I;
    } else {
      Outside(u, I, |pre| + 1);
    }
  }

  lemma Outside(t: Tensor, I: Index, axis: nat)
    requires |I| == |t.shape| && axis < |I| && !(0 <= I[axis] < t.shape[axis])
    ensures At(t, I) == 0.0
  {
  }

  lemma CutToFlat(padded: Tensor, pre: Shape, n: nat, p: Index, i: nat, j: nat)
    requires padded.shape == pre + [n, n + 1] && Valid(pre, p) && i < n && j < n
    ensures Size(pre + [Scale(n, n + 1)]) == Size(padded.shape)
    ensures At(Cut(padded, pre, n), p + [i, j]) == At(Reshape(padded, pre + [Scale(n, n + 1)]), p + [Scale(i, n) + j])
  {
    hide Size, Scale, At, SliceAlong, Reshape, Valid;
    MergeTwo(pre, n, n + 1);
    SquareFits(n);
    UnitSteps(Scale(n, n));
    var flat := Reshape(padded, pre + [Scale(n, n + 1)]);
    var cut := SliceAlong(flat, |pre|, 0, Scale(n, n), 1);
    assert flat.shape[|pre| := Scale(n, n)] == pre + [Scale(n, n)];
    CutAt(cut, pre, n, p, i, j);
    FlatAt(flat, pre, n, p, Scale(i, n) + j);
  }

  /** Square (i, j) is position i n + j of the cut and of the flat rows, and then column 0 or another column of padded. */
  lemma CutReads(padded: Tensor, pre: Shape, n: nat, p: Index, i: nat, j: nat)
    requires padded.shape == pre + [n, n + 1] && Valid(pre, p) && i < n && j < n
    ensures j >= i ==> At(Cut(padded, pre, n), p + [i, j]) == At(padded, p + [i, j - i])
    ensures j < i ==> At(Cut(padded, pre, n), p + [i, j]) == At(padded, p + [i - 1, n + 1 + j - i])
  {
    hide Size, At, Cut, Reshape, Valid;
    CutToFlat(padded, pre, n, p, i, j);
    CutPosition(n, i, j);
    if j >= i {
      FlattenLast(padded, pre, n, n + 1, p, i, j - i);
    } else {
      FlattenLast(padded, pre, n, n + 1, p, i - 1, n + 1 + j - i);
    }
  }

  lemma SquareAt(t: Tensor, pre: Shape, n: nat, p: Index, i: nat, j: nat)
    requires t.shape == pre + [n] && Valid(pre, p) && i < n && j < n
    ensures At(Square(t), p + [i, j]) == if i == j then At(t, p + [i]) else 0.0
  {
    hide Size, Scale, At, Unsqueeze, PadAxis, Cut, Flat, Valid;
    assert t.shape[..|t.shape| - 1] == pre;
    var padded := PadAxis(Unsqueeze(t, |pre| + 1), |pre| + 1, 0, n);
    PaddedAt(t, pre, n, p, i, 0);
    assert padded.shape == pre + [n, n + 1];
    CutReads(padded, pre, n, p, i, j);
    PaddedAt(t, pre, n, p, if j >= i then i else i - 1, if j >= i then j - i else n + 1 + j - i);
  }

  lemma CutAt(cut: Tensor, pre: Shape, n: nat, p: Index, i: nat, j: nat)
    requires cut.shape == pre + [Scale(n, n)] && Valid(pre, p) && i < n && j < n
    ensures Size(pre + [n, n]) == Size(cut.shape) && Scale(i, n) + j < Scale(n, n)
    ensures At(Reshape(cut, pre + [n, n]), p + [i, j]) == At(cut, p + [Scale(i, n) + j])
  {
    hide Size, Scale, At, Flat, Reshape;
    MergeTwo(pre, n, n);
    CutPosition(n, i, j);
    SizeTwo(n, n);
    FlatTwo(n, n, i, j);
    FlatMerge(pre, [n, n], [], p, [i, j], []);
    assert pre + [n, n] + [] == pre + [n, n] && pre + [Scale(n, n)] + [] == pre + [Scale(n, n)];
    assert p + [i, j] + [] == p + [i, j] && p + [Scale(i, n) + j] + [] == p + [Scale(i, n) + j];
    ReshapeAt(cut, pre + [n, n], p + [i, j], p + [Scale(i, n) + j]);
  }

  lemma FlatAt(flat: Tensor, pre: Shape, n: nat, p: Index, k: nat)
    requires flat.shape == pre + [Scale(n, n + 1)] && Valid(pre, p) && k < Scale(n, n)
    ensures Scale(n, n) <= Scale(n, n + 1) && At(SliceAlong(flat, |pre|, 0, Scale(n, n), 1), p + [k]) == At(flat, p + [k])
  {
    hide Size, Scale, At, SliceAlong;
    SquareFits(n);
    UnitSteps(Scale(n, n));
    assert Without(flat.shape, |pre|) == pre;
    SliceAlongAt(flat, |pre|, 0, Scale(n, n), 1, p, k);
    assert Insert(p, |pre|, k) == p + [k];
  }

  // ----- an offset diagonal in a larger matrix -----

  /** Zero borders that move a square off the main diagonal. */
  function BandEdges(rank: nat, offset: int): seq<Edge>
  {
    var shift: nat := if offset >= 0 then offset else -offset;
    seq(rank + 1, (a: nat) =>
      if a == rank then (if offset >= 0 then Edge(shift, 0) else Edge(0, shift))
      else if a + 1 == rank then (if offset >= 0 then Edge(0, shift) else Edge(shift, 0))
      else Edge(0, 0))
  }

  function Side(n: nat, offset: int): nat
  {
    n + if offset >= 0 then offset else -offset
  }

  function DiagEmbed(t: Tensor, offset: int): (r: Tensor)
    requires |t.shape| > 0
    ensures r.shape == t.shape[..|t.shape| - 1] + [Side(t.shape[|t.shape| - 1], offset), Side(t.shape[|t.shape| - 1], offset)]
  {
    hide Size, Square, Pad;
    var n, s := t.shape[|t.shape| - 1], Square(t);
    assert PadShape(s.shape, BandEdges(|t.shape|, offset)) == t.shape[..|t.shape| - 1] + [Side(n, offset), Side(n, offset)];
    Pad(s, BandEdges(|t.shape|, offset), Fill([], 0.0))
  }

  /** The operation refuses scalars. */
  function DiagEmbedChecked(t: Tensor, offset: int): Option<Tensor>
  {
    if |t.shape| == 0 then None else Some(DiagEmbed(t, offset))
  }

  lemma PadZeroAt(t: Tensor, padding: seq<Edge>, I: Index)
    requires |padding| == |t.shape| && Valid(PadShape(t.shape, padding), I)
    ensures At(Pad(t, padding, Fill([], 0.0)), I) == At(t, ShiftIx(I, Lows(padding)))
  {
    hide Size, Flat;
    assert Valid([], []);
  }

  /** The embedded matrix has the vector on its offset diagonal and zeros everywhere else. */
  lemma DiagEmbedAt(t: Tensor, offset: int, pre: Shape, n: nat, p: Index, r: nat, c: nat)
    requires t.shape == pre + [n] && Valid(pre, p) && r < Side(n, offset) && c < Side(n, offset)
    ensures At(DiagEmbed(t, offset), p + [r, c])
         == if c - r == offset then At(t, p + [if offset >= 0 then r else c]) else 0.0
  {
    hide Size, At, Square, Pad, Flat;
    assert t.shape[..|t.shape| - 1] == pre;
    var s, e, I := Square(t), BandEdges(|t.shape|, offset), p + [r, c];
    assert PadShape(s.shape, e) == pre + [Side(n, offset), Side(n, offset)];
    PadZeroAt(s, e, I);
    var i, j := if offset >= 0 then r as int else r + offset, if offset >= 0 then c - offset else c as int;
    assert ShiftIx(I, Lows(e)) == p + [i, j];
    if 0 <= i < n && 0 <= j < n {
      SquareAt(t, pre, n, p, i, j);
    } else if !(0 <= i < n) {
      Outside(s, p + [i, j], |pre|);
    } else {
      Outside(s, p + [i, j], |pre| + 1);
    }
  }

  lemma {:induction false} OthersFront(n: nat)
    ensures Others(n + 2, n, n + 1) == seq(n, (k: nat) => k)
  {
    OthersBelow(n, n, n + 1, n);
    assert Others(n + 2, n, n + 1) == Others(n + 1, n, n + 1) == Others(n, n, n + 1);
  }

  lemma {:induction false} OthersBelow(m: nat, a: nat, b: nat, n: nat)
    requires m <= n <= a && n <= b
    ensures Others(m, a, b) == seq(m, (k: nat) => k)
  {
    if m > 0 {
      OthersBelow(m - 1, a, b, n);
    }
  }

  /** Embed a vector as a diagonal and extract the same diagonal over the two appended axes. */
  function ThereAndBack(t: Tensor, offset: int): (r: Tensor)
    requires |t.shape| > 0
    ensures r.shape == t.shape
  {
    hide Size, DiagEmbed, Diagonal, DiagOf;
    var m, r := DiagEmbed(t, offset), |t.shape|;
    EmbeddedShape(t.shape, offset, m.shape);
    Diagonal(m, offset, r - 1, r)
  }

  lemma EmbeddedShape(s: Shape, offset: int, m: Shape)
    requires |s| > 0 && m == s[..|s| - 1] + [Side(s[|s| - 1], offset), Side(s[|s| - 1], offset)]
    ensures DiagonalOk(m, |s| - 1, |s|)
    ensures OtherShape(m, |s| - 1, |s|) + [DiagOf(m[|s| - 1], m[|s|], offset).len] == s
  {
    OthersFront(|s| - 1);
    assert OtherShape(m, |s| - 1, |s|) == s[..|s| - 1];
  }

  lemma EmbedEntry(t: Tensor, offset: int, pre: Shape, n: nat, p: Index, i: nat)
    requires t.shape == pre + [n] && Valid(pre, p) && i < n
    ensures At(ThereAndBack(t, offset), p + [i]) == At(t, p + [i])
  {
    hide Size, At, Flat, DiagEmbed, Diagonal, OtherShape;
    var m, side := DiagEmbed(t, offset), Side(n, offset);
    assert t.shape[..|t.shape| - 1] == pre;
    assert m.shape == pre + [side, side];
    var dg := DiagOf(side, side, offset);
    var J := p + [dg.row + i, dg.col + i];
    OthersFront(|pre|);
    assert Rest(J, |pre|, |pre| + 1) == p;
    DiagonalAt(m, offset, |pre|, |pre| + 1, J, i);
    DiagEmbedAt(t, offset, pre, n, p, dg.row + i, dg.col + i);
  }

  /** Extracting the embedded diagonal gives the vector back, for every length, leading shape and offset. */
  lemma DiagonalOfEmbed(t: Tensor, offset: int)
    requires |t.shape| > 0
    ensures ThereAndBack(t, offset) == t
  {
    hide Size, At, ThereAndBack;
    var r, pre, n := |t.shape|, t.shape[..|t.shape| - 1], t.shape[|t.shape| - 1];
    forall I: Index | Valid(t.shape, I) ensures At(ThereAndBack(t, offset), I) == At(t, I) {
      assert t.shape == pre + [n] && I == I[..r - 1] + [I[r - 1]];
      EmbedEntry(t, offset, pre, n, I[..r - 1], I[r - 1]);
    }
    Ext(ThereAndBack(t, offset), t);
  }

  /** Every tensor but a scalar is embedded, and its diagonal over the two appended axes is the tensor. */
  lemma DiagEmbedMeaning(t: Tensor, offset: int)
    ensures var m, r := DiagEmbedChecked(t, offset), |t.shape|;
      && (m.Some? <==> r > 0)
      && (m.Some? ==> DiagonalOk(m.value.shape, r - 1, r) && Diagonal(m.value, offset, r - 1, r) == t)
  {
    hide Size, DiagEmbed, Diagonal, DiagOf;
    if |t.shape| > 0 {
      DiagonalOfEmbed(t, offset);
      EmbeddedShape(t.shape, offset, DiagEmbed(t, offset).shape);
    }
  }
}
