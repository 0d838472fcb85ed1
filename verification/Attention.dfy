/** Masked attention over operands of equal batch shape, coordinate by coordinate. */
module Attention {
  import opened Products
  import opened Sums
  import opened Shapes
  import opened IndexSums
  import opened Tensors
  import opened TensorOps
  import opened Adjoints
  import opened Program
  import opened Rules

  predicate MaskedOk(q: Shape, k: Shape, v: Shape, f: Shape)
  {
    && |q| == |k| == |v| >= 2
    && q[..|q| - 2] == k[..|q| - 2] == v[..|q| - 2]
    && q[|q| - 1] == k[|q| - 1] && k[|q| - 2] == v[|q| - 2]
    && f == q[..|q| - 1] + [k[|q| - 2]]
  }

  /** Attention weights before normalisation. The additive mask enters through its exponential: factor 0 hides a key,
      factor 1 leaves its score unchanged. */
  function Weights(e: RawEnv, q: Tensor, k: Tensor, f: Tensor, scale: real): (r: Tensor)
    requires ScoresOk(q.shape, k.shape) && f.shape == q.shape[..|q.shape| - 1] + [k.shape[|q.shape| - 2]]
    ensures r.shape == f.shape
  {
    Hadamard(f, U(e, Exp, Scores(q, k, scale)))
  }

  function MaskedAttention(e: RawEnv, q: Tensor, k: Tensor, v: Tensor, f: Tensor, scale: real): (r: Tensor)
    requires MaskedOk(q.shape, k.shape, v.shape, f.shape)
    ensures r.shape == q.shape[..|q.shape| - 1] + [v.shape[|q.shape| - 1]]
  {
    hide Size, Weights, RowTotal, B;
    var w := Weights(e, q, k, f, scale);
    var p := B(Div, w, RowTotal(w));
    assert MatmulShape(p.shape, v.shape) == q.shape[..|q.shape| - 1] + [v.shape[|q.shape| - 1]];
    TensorOps.Matmul(p, v)
  }

  // ----- coordinates -----

  lemma SumIxOne(n: nat, g: Index -> real)
    ensures SumIx([n], g) == Sum(n, (j: nat) => g([j]))
  {
    SizeOne(n);
    forall j: nat | j < n ensures Pick([n], g, j) == g([j]) {
      FlatOne(n, j);
      UnflatFlat([n], [j]);
    }
    SumCong(n, (j: nat) => Pick([n], g, j), (j: nat) => g([j]));
  }

  lemma {:induction false} DropLast<T>(xs: seq<T>, r: nat)
    requires |xs| == r >= 1
    ensures Drop(xs, LastMask(r)) == xs[..r - 1]
  {
    var m := LastMask(r);
    if r == 1 {
      assert Drop(xs[1..], m[1..]) == xs[1..] == [];
    } else {
      assert m[1..] == LastMask(r - 1);
      DropLast(xs[1..], r - 1);
      assert xs[..r - 1] == [xs[0]] + xs[1..][..r - 2];
    }
  }

  function LaneAt(t: Tensor, P: Index, j: int): real
  {
    At(t, P + [j])
  }

  /** The total of a row, at every position of the row. */
  lemma RowTotalAt(t: Tensor, P: Index, j: int)
    requires |t.shape| >= 1 && Valid(t.shape, P + [j])
    ensures At(RowTotal(t), P + [j]) == Sum(t.shape[|t.shape| - 1], (i: nat) => LaneAt(t, P, i))
  {
    hide Size, At, Unreduce, TensorOps.ReduceSum, Drop;
    var r, mask := |t.shape|, LastMask(|t.shape|);
    var y := TensorOps.ReduceSum(t, mask);
    DropLast(t.shape, r);
    DropLast(P + [j], r);
    UnreduceAt(y, t.shape, mask, P + [j]);
    assert (P + [j])[..r - 1] == P;
    PrefixValid(t.shape, P, j);
    ReduceLastAt(t, P);
  }

  lemma PrefixValid(s: Shape, P: Index, j: int)
    requires |s| >= 1 && Valid(s, P + [j])
    ensures Valid(s[..|s| - 1], P) && |P| == |s| - 1 && 0 <= j < s[|s| - 1]
  {
    assert forall a :: 0 <= a < |P| ==> (P + [j])[a] == P[a];
    assert (P + [j])[|P|] == j;
  }

  lemma ReduceLastAt(t: Tensor, P: Index)
    requires |t.shape| >= 1 && Valid(t.shape[..|t.shape| - 1], P)
    ensures At(TensorOps.ReduceSum(t, LastMask(|t.shape|)), P) == Sum(t.shape[|t.shape| - 1], (i: nat) => LaneAt(t, P, i))
  {
    hide Size, At, Drop, SumIx, Sum;
    var r, mask := |t.shape|, LastMask(|t.shape|);
    var pre, n := t.shape[..r - 1], t.shape[r - 1];
    DropLast(t.shape, r);
    var phi := (I: Index) => Drop(I, mask);
    var f := (I: Index) => FiberAt(t, phi, P, I);
    assert At(TensorOps.ReduceSum(t, mask), P) == SumIx(t.shape, f);
    var rows := (A: Index) => SumIx([n], (L: Index) => f(A + L));
    SumIxConcat(pre, [n], f, rows);
    assert pre + [n] == t.shape;
    forall A | Valid(pre, A) && A != P ensures rows(A) == 0.0 {
      forall L | Valid([n], L) ensures f(A + L) == 0.0 { FiberLast(t, mask, P, A, L); }
      SumIxZero([n], (L: Index) => f(A + L));
    }
    SumIxDelta(pre, P, rows);
    SumIxOne(n, (L: Index) => f(P + L));
    forall j: nat | j < n ensures f(P + [j]) == LaneAt(t, P, j) { FiberLast(t, mask, P, P, [j]); }
    SumCong(n, (j: nat) => f(P + [j]), (j: nat) => LaneAt(t, P, j));
    assert Sum(n, (j: nat) => ((L: Index) => f(P + L))([j])) == Sum(n, (j: nat) => f(P + [j])) by {
      SumCong(n, (j: nat) => ((L: Index) => f(P + L))([j]), (j: nat) => f(P + [j]));
    }
  }

  lemma FiberLast(t: Tensor, mask: seq<bool>, P: Index, A: Index, L: Index)
    requires |t.shape| >= 1 && mask == LastMask(|t.shape|)
    requires |A| == |t.shape| - 1 && |L| == 1
    ensures FiberAt(t, (I: Index) => Drop(I, mask), P, A + L) == if A == P then At(t, P + L) else 0.0
  {
    hide Size, At, Drop;
    DropLast(A + L, |t.shape|);
    assert (A + L)[..|A|] == A;
  }

  // ----- attention by coordinates: P is a batch prefix followed by a query row -----

  function ProductAt(q: Tensor, k: Tensor, P: Index, j: int, t: int): real
  {
    Times(At(q, P + [t]), At(k, Key(P, j, t)))
  }

  /** Coordinate of column t of key row j in the batch of P. */
  function Key(P: Index, j: int, t: int): Index
  {
    if P == [] then [] else P[..|P| - 1] + [j, t]
  }

  function Score(q: Tensor, k: Tensor, scale: real, P: Index, j: int): real
  {
    var depth := if q.shape == [] then 0 else q.shape[|q.shape| - 1];
    Times(Sum(depth, (t: nat) => ProductAt(q, k, P, j, t)), scale)
  }

  function Weight(e: RawEnv, q: Tensor, k: Tensor, f: Tensor, scale: real, P: Index, j: int): real
  {
    Times(At(f, P + [j]), e.fn(Exp, Score(q, k, scale, P, j)))
  }

  /** Total weight of one query row over n keys. */
  function Mass(e: RawEnv, q: Tensor, k: Tensor, f: Tensor, scale: real, P: Index, n: nat): real
  {
    Sum(n, (j: nat) => Weight(e, q, k, f, scale, P, j))
  }

  function Share(e: RawEnv, q: Tensor, k: Tensor, v: Tensor, f: Tensor, scale: real, P: Index, n: nat, d: int, j: int): real
  {
    Times(Quot(Weight(e, q, k, f, scale, P, j), Mass(e, q, k, f, scale, P, n)), At(v, Key(P, j, d)))
  }

  /** Weighted mean of the value rows. */
  function Attend(e: RawEnv, q: Tensor, k: Tensor, v: Tensor, f: Tensor, scale: real, P: Index, n: nat, d: int): real
  {
    Sum(n, (j: nat) => Share(e, q, k, v, f, scale, P, n, d, j))
  }

  lemma MatmulSum(a: Tensor, b: Tensor, I: Index)
    requires MatmulOk(a.shape, b.shape) && Valid(MatmulShape(a.shape, b.shape), I)
    ensures At(TensorOps.Matmul(a, b), I)
         == Sum(a.shape[|a.shape| - 1], (t: nat) => ContractTerm(a, MatLeft, b, MatRight, I, [t]))
  {
    hide Size, At, Times, TensorOps.Matmul;
    MatmulAt(a, b, I);
    var f := (L: Index) => ContractTerm(a, MatLeft, b, MatRight, I, L);
    SumIxOne(a.shape[|a.shape| - 1], f);
    SumCong(a.shape[|a.shape| - 1], (t: nat) => f([t]), (t: nat) => ContractTerm(a, MatLeft, b, MatRight, I, [t]));
  }

  lemma SwapKey(k: Tensor, P: Index, j: int, t: int)
    requires |k.shape| >= 2 && |P| == |k.shape| - 1
    ensures At(SwapTensor(k), MatRight(P + [j] + [t])) == At(k, Key(P, j, t)) && MatLeft(P + [j] + [t]) == P + [t]
  {
    hide Size, At, SwapTensor;
    var M := P + [j] + [t];
    assert MatRight(M) == P[..|P| - 1] + [t, j];
    SwapTensorAt(k, MatRight(M));
    assert SwapIx(MatRight(M)) == Key(P, j, t);
    assert MatLeft(M) == P + [t];
  }

  lemma ScoreAt(q: Tensor, k: Tensor, scale: real, P: Index, j: int)
    requires ScoresOk(q.shape, k.shape) && Valid(q.shape[..|q.shape| - 1] + [k.shape[|q.shape| - 2]], P + [j])
    ensures At(Scores(q, k, scale), P + [j]) == Score(q, k, scale, P, j)
  {
    hide Size, At, Times, SwapTensor, TensorOps.Matmul, Valid;
    var t, r := SwapTensor(k), |q.shape|;
    assert MatmulShape(q.shape, t.shape) == q.shape[..r - 1] + [k.shape[r - 2]];
    MatmulSum(q, t, P + [j]);
    ValidLength(q.shape[..r - 1] + [k.shape[r - 2]], P + [j]);
    var f := (c: nat) => ContractTerm(q, MatLeft, t, MatRight, P + [j], [c]);
    var g := (c: nat) => ProductAt(q, k, P, j, c);
    forall c: nat | c < q.shape[r - 1] ensures f(c) == g(c) {
      SwapKey(k, P, j, c);
    }
    SumCong(q.shape[r - 1], f, g);
  }

  lemma WeightAt(e: RawEnv, q: Tensor, k: Tensor, f: Tensor, scale: real, P: Index, j: int)
    requires ScoresOk(q.shape, k.shape) && f.shape == q.shape[..|q.shape| - 1] + [k.shape[|q.shape| - 2]]
    requires Valid(f.shape, P + [j])
    ensures At(Weights(e, q, k, f, scale), P + [j]) == Weight(e, q, k, f, scale, P, j)
  {
    hide Size, At, Times, Scores, Score, Valid;
    ScoreAt(q, k, scale, P, j);
  }

  lemma MassAt(e: RawEnv, q: Tensor, k: Tensor, f: Tensor, scale: real, P: Index, j: int)
    requires ScoresOk(q.shape, k.shape) && f.shape == q.shape[..|q.shape| - 1] + [k.shape[|q.shape| - 2]]
    requires Valid(f.shape, P + [j])
    ensures At(RowTotal(Weights(e, q, k, f, scale)), P + [j]) == Mass(e, q, k, f, scale, P, k.shape[|q.shape| - 2])
  {
    hide Size, At, Times, Weight, Weights, RowTotal;
    var w, n := Weights(e, q, k, f, scale), k.shape[|q.shape| - 2];
    RowTotalAt(w, P, j);
    PrefixValid(f.shape, P, j);
    forall i: nat | i < n ensures LaneAt(w, P, i) == Weight(e, q, k, f, scale, P, i) {
      ExtendValid(f.shape, P, i);
      WeightAt(e, q, k, f, scale, P, i);
    }
    SumCong(n, (i: nat) => LaneAt(w, P, i), (i: nat) => Weight(e, q, k, f, scale, P, i));
  }

  lemma ExtendValid(s: Shape, P: Index, j: int)
    requires |s| >= 1 && Valid(s[..|s| - 1], P) && 0 <= j < s[|s| - 1]
    ensures Valid(s, P + [j])
  {
  }

  /** Every output entry is the weighted mean of the value rows its mask factor lets through. */
  lemma AttentionAt(e: RawEnv, q: Tensor, k: Tensor, v: Tensor, f: Tensor, scale: real, P: Index, d: int)
    requires MaskedOk(q.shape, k.shape, v.shape, f.shape)
    requires Valid(q.shape[..|q.shape| - 1] + [v.shape[|q.shape| - 1]], P + [d])
    ensures At(MaskedAttention(e, q, k, v, f, scale), P + [d]) == Attend(e, q, k, v, f, scale, P, k.shape[|q.shape| - 2], d)
  {
    hide Size, At, Times, Weight, Weights, RowTotal, Mass, TensorOps.Matmul;
    var r, n := |q.shape|, k.shape[|q.shape| - 2];
    var w := Weights(e, q, k, f, scale);
    var p := B(Div, w, RowTotal(w));
    var out := q.shape[..r - 1] + [v.shape[r - 1]];
    assert MatmulShape(p.shape, v.shape) == out;
    PrefixValid(out, P, d);
    assert out[..|out| - 1] == f.shape[..|f.shape| - 1] == q.shape[..r - 1];
    MatmulSum(p, v, P + [d]);
    var g := (j: nat) => ContractTerm(p, MatLeft, v, MatRight, P + [d], [j]);
    var h := (j: nat) => Share(e, q, k, v, f, scale, P, n, d, j);
    forall j: nat | j < n ensures g(j) == h(j) {
      ExtendValid(f.shape, P, j);
      WeightAt(e, q, k, f, scale, P, j);
      MassAt(e, q, k, f, scale, P, j);
      MatmulIx(P, d, j);
    }
    SumCong(n, g, h);
  }

  lemma MatmulIx(P: Index, d: int, j: int)
    requires P != []
    ensures MatLeft(P + [d] + [j]) == P + [j] && MatRight(P + [d] + [j]) == Key(P, j, d)
  {
    var M := P + [d] + [j];
    assert M[..|M| - 3] + [M[|M| - 3]] == P;
  }

  /** Equal entries give equal means. */
  lemma {:induction false} AttendCong(
    e: RawEnv, q: Tensor, k: Tensor, v: Tensor, f: Tensor, P: Index,
    q': Tensor, k': Tensor, v': Tensor, f': Tensor, P': Index, scale: real, n: nat, d: int)
    requires |q.shape| > 0 && |q'.shape| > 0 && q.shape[|q.shape| - 1] == q'.shape[|q'.shape| - 1]
    requires forall j: nat :: j < n ==> At(f, P + [j]) == At(f', P' + [j]) && At(v, Key(P, j, d)) == At(v', Key(P', j, d))
    requires forall t: nat :: t < q.shape[|q.shape| - 1] ==> At(q, P + [t]) == At(q', P' + [t])
    requires forall j: nat, t: nat :: j < n && t < q.shape[|q.shape| - 1] ==> At(k, Key(P, j, t)) == At(k', Key(P', j, t))
    ensures Attend(e, q, k, v, f, scale, P, n, d) == Attend(e, q', k', v', f', scale, P', n, d)
  {
    hide At, Size, Times, Key;
    var depth := q.shape[|q.shape| - 1];
    forall j: nat | j < n ensures Weight(e, q, k, f, scale, P, j) == Weight(e, q', k', f', scale, P', j) {
      SumCong(depth, (t: nat) => ProductAt(q, k, P, j, t), (t: nat) => ProductAt(q', k', P', j, t));
    }
    SumCong(n, (j: nat) => Weight(e, q, k, f, scale, P, j), (j: nat) => Weight(e, q', k', f', scale, P', j));
    SumCong(n, (j: nat) => Share(e, q, k, v, f, scale, P, n, d, j), (j: nat) => Share(e, q', k', v', f', scale, P', n, d, j));
  }
}
