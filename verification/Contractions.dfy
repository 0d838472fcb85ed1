/** General contraction by transpose, reshape and batched matrix product. */
module Contractions {
  import opened Options
  import opened Lists
  import opened Products
  import opened Sums
  import opened Shapes
  import opened IndexSums
  import opened Tensors
  import opened TensorOps
  import opened Adjoints
  import opened Rules
  import opened Attention
  import opened Diagonals

  // ----- axis lists -----

  /** The axes below n that are not listed, in order. */
  function Free(n: nat, used: seq<nat>): (r: seq<nat>)
    ensures forall k :: 0 <= k < |r| ==> r[k] < n && r[k] !in used
    ensures forall k, l :: 0 <= k < l < |r| ==> r[k] < r[l]
    ensures forall x :: 0 <= x < n && x !in used ==> x in r
  {
    if n == 0 then [] else if n - 1 in used then Free(n - 1, used) else Free(n - 1, used) + [n - 1]
  }

  predicate InRange(n: nat, xs: seq<nat>)
  {
    forall k :: 0 <= k < |xs| ==> xs[k] < n
  }

  /** In range and without repetition. */
  predicate AxesOk(rank: nat, used: seq<nat>)
  {
    Distinct(used) && forall k :: 0 <= k < |used| ==> used[k] < rank
  }

  lemma InSnoc<T>(xs: seq<T>, x: T, y: T)
    ensures y in xs + [x] <==> y in xs || y == x
  {
  }

  lemma {:induction false} FreeDrop(n: nat, used: seq<nat>, x: nat)
    requires x !in used
    ensures |Free(n, used + [x])| == |Free(n, used)| - (if x < n then 1 else 0)
  {
    if n > 0 {
      FreeDrop(n - 1, used, x);
      InSnoc(used, x, n - 1);
      if n - 1 in used + [x] {
        assert Free(n, used + [x]) == Free(n - 1, used + [x]);
      } else {
        assert Free(n, used + [x]) == Free(n - 1, used + [x]) + [n - 1];
      }
    }
  }

  lemma {:induction false} FreeNone(n: nat)
    ensures |Free(n, [])| == n
  {
    if n > 0 {
      FreeNone(n - 1);
      assert n - 1 !in [];
      assert Free(n, []) == Free(n - 1, []) + [n - 1];
    }
  }

  lemma {:induction false} FreeCount(n: nat, used: seq<nat>)
    requires AxesOk(n, used)
    ensures |Free(n, used)| + |used| == n
  {
    if used == [] {
      FreeNone(n);
    } else {
      var last := |used| - 1;
      assert used[last] !in used[..last];
      FreeCount(n, used[..last]);
      FreeDrop(n, used[..last], used[last]);
      assert used == used[..last] + [used[last]];
    }
  }

  lemma PermOf(p: seq<nat>, n: nat)
    requires |p| == n && InRange(n, p) && Distinct(p) && forall x :: 0 <= x < n ==> x in p
    ensures IsPerm(p, n)
  {
  }

  lemma Covers(n: nat, u: seq<nat>, p: seq<nat>)
    requires |p| == |u| + |Free(n, u)| && AxesOk(n, u)
    requires forall x :: x in p <==> x in u || x in Free(n, u)
    ensures |p| == n && InRange(n, p) && forall x :: 0 <= x < n ==> x in p
  {
    FreeCount(n, u);
    forall k | 0 <= k < |p| ensures p[k] < n {
      assert p[k] in p;
    }
  }

  /** Any arrangement of two disjoint axis lists and the remaining axes is a permutation. */
  lemma ArrangementPerm(n: nat, a: seq<nat>, b: seq<nat>)
    requires AxesOk(n, a + b)
    ensures IsPerm(a + Free(n, a + b) + b, n) && IsPerm(a + b + Free(n, a + b), n)
  {
    hide Free, IsPerm;
    var f := Free(n, a + b);
    var p, q := a + f + b, a + b + f;
    forall k, l | 0 <= k < l < |p| ensures p[k] != p[l] && q[k] != q[l] {
      Apart(a, b, f, k, l);
    }
    Covers(n, a + b, p);
    Covers(n, a + b, q);
    PermOf(p, n);
    PermOf(q, n);
  }

  lemma Apart(a: seq<nat>, b: seq<nat>, f: seq<nat>, k: nat, l: nat)
    requires Distinct(a + b) && (forall i, j :: 0 <= i < j < |f| ==> f[i] != f[j])
    requires (forall i :: 0 <= i < |f| ==> f[i] !in a + b) && k < l < |a| + |b| + |f|
    ensures (a + f + b)[k] != (a + f + b)[l] && (a + b + f)[k] != (a + b + f)[l]
  {
    var u := a + b;
    assert forall i :: 0 <= i < |a| ==> a[i] == u[i] && a[i] in u;
    assert forall i :: 0 <= i < |b| ==> b[i] == u[|a| + i] && b[i] in u;
  }

  /** The free axes of an operand, or nothing when an axis is out of range, repeated or shared. */
  method Axes(rank: nat, contracting: seq<nat>, batch: seq<nat>) returns (r: Option<seq<nat>>)
    ensures r.Some? <==> AxesOk(rank, contracting + batch)
    ensures r.Some? ==> r.value == Free(rank, contracting + batch)
  {
    var all := contracting + batch;
    var used := new bool[rank](i => false);
    var i := 0;
    while i < |all|
      invariant 0 <= i <= |all| && AxesOk(rank, all[..i])
      invariant forall x :: 0 <= x < rank ==> (used[x] <==> x in all[..i])
    {
      if all[i] >= rank || used[all[i]] {
        assert !AxesOk(rank, all) by {
          if all[i] < rank {
            var j :| 0 <= j < i && all[..i][j] == all[i];
            assert all[j] == all[i];
          }
        }
        return None;
      }
      used[all[i]] := true;
      assert all[..i + 1] == all[..i] + [all[i]];
      i := i + 1;
    }
    assert all[..i] == all;
    var free: seq<nat>, axis := [], 0;
    while axis < rank
      invariant 0 <= axis <= rank && free == Free(axis, all)
      invariant forall x :: 0 <= x < rank ==> (used[x] <==> x in all)
    {
      if !used[axis] {
        free := free + [axis];
      }
      axis := axis + 1;
    }
    return Some(free);
  }

  // ----- flattened matrix products -----

  /** Two runs of axes merged into two axes keep every position. */
  lemma MergeRuns(B: Shape, F: Shape, K: Shape)
    ensures Size(B + F + K) == Size(B + [Size(F), Size(K)])
  {
    hide Size;
    SizeMerge(B, F, K);
    SizeMerge(B + [Size(F)], K, []);
    assert B + [Size(F)] + K + [] == B + [Size(F)] + K;
    assert B + [Size(F)] + [Size(K)] + [] == B + [Size(F), Size(K)];
  }

  lemma MergeRunsAt(B: Shape, F: Shape, K: Shape, b: Index, i: Index, L: Index)
    requires Valid(B, b) && Valid(F, i) && Valid(K, L)
    ensures Valid(B + F + K, b + i + L) && Valid(B + [Size(F), Size(K)], b + [Flat(F, i), Flat(K, L)])
    ensures Flat(B + F + K, b + i + L) == Flat(B + [Size(F), Size(K)], b + [Flat(F, i), Flat(K, L)])
  {
    hide Size, Flat;
    FlatMerge(B, F, K, b, i, L);
    FlatMerge(B, F, [], b, i, []);
    assert B + F + [] == B + F && B + [Size(F)] + [] == B + [Size(F)] && b + [Flat(F, i)] + [] == b + [Flat(F, i)];
    FlatMerge(B + [Size(F)], K, [], b + [Flat(F, i)], L, []);
    assert B + [Size(F)] + K + [] == B + [Size(F)] + K && B + [Size(F)] + [Size(K)] + [] == B + [Size(F), Size(K)];
    assert b + [Flat(F, i)] + L + [] == b + [Flat(F, i)] + L;
    assert b + [Flat(F, i)] + [Flat(K, L)] + [] == b + [Flat(F, i), Flat(K, L)];
  }

  /** Flatten the free and contracted runs, multiply as batched matrices, and restore the free runs. */
  function MatrixProduct(x: Tensor, y: Tensor, B: Shape, F: Shape, K: Shape, G: Shape): (r: Tensor)
    requires x.shape == B + F + K && y.shape == B + K + G
    ensures r.shape == B + F + G
  {
    hide Size, Reshape, Matmul;
    MergeRuns(B, F, K);
    MergeRuns(B, K, G);
    MergeRuns(B, F, G);
    var left, right := Reshape(x, B + [Size(F), Size(K)]), Reshape(y, B + [Size(K), Size(G)]);
    ProductShape(B, Size(F), Size(K), Size(G));
    Reshape(Matmul(left, right), B + F + G)
  }

  lemma ProductShape(B: Shape, m: nat, k: nat, n: nat)
    ensures MatmulOk(B + [m, k], B + [k, n]) && MatmulShape(B + [m, k], B + [k, n]) == B + [m, n]
  {
    assert (B + [m, k])[..|B|] == B == (B + [k, n])[..|B|];
    assert (B + [m, k])[..|B| + 1] == B + [m];
  }

  function TermAt(x: Tensor, y: Tensor, b: Index, i: Index, j: Index, L: Index): real
  {
    Times(At(x, b + i + L), At(y, b + L + j))
  }

  lemma FlatTerm(x: Tensor, y: Tensor, B: Shape, F: Shape, K: Shape, G: Shape, b: Index, i: Index, j: Index, L: Index)
    requires x.shape == B + F + K && y.shape == B + K + G
    requires Valid(B, b) && Valid(F, i) && Valid(G, j) && Valid(K, L)
    ensures Size(B + F + K) == Size(B + [Size(F), Size(K)]) && Size(B + K + G) == Size(B + [Size(K), Size(G)])
    ensures ContractTerm(Reshape(x, B + [Size(F), Size(K)]), MatLeft, Reshape(y, B + [Size(K), Size(G)]), MatRight,
                         b + [Flat(F, i), Flat(G, j)], [Flat(K, L)])
         == TermAt(x, y, b, i, j, L)
  {
    hide Size, Flat, At, Times, Reshape;
    MergeRuns(B, F, K);
    MergeRuns(B, K, G);
    MergeRunsAt(B, F, K, b, i, L);
    MergeRunsAt(B, K, G, b, L, j);
    var M := b + [Flat(F, i), Flat(G, j)] + [Flat(K, L)];
    assert MatLeft(M) == b + [Flat(F, i), Flat(K, L)] && MatRight(M) == b + [Flat(K, L), Flat(G, j)];
    ReshapeAt(x, B + [Size(F), Size(K)], b + [Flat(F, i), Flat(K, L)], b + i + L);
    ReshapeAt(y, B + [Size(K), Size(G)], b + [Flat(K, L), Flat(G, j)], b + L + j);
  }

  /** Entry (b, i, j) sums, over all contracted coordinates, the products of the two operands. */
  lemma MatrixProductAt(x: Tensor, y: Tensor, B: Shape, F: Shape, K: Shape, G: Shape, b: Index, i: Index, j: Index)
    requires x.shape == B + F + K && y.shape == B + K + G && Valid(B, b) && Valid(F, i) && Valid(G, j)
    ensures At(MatrixProduct(x, y, B, F, K, G), b + i + j) == SumIx(K, (L: Index) => TermAt(x, y, b, i, j, L))
  {
    hide Size, Flat, At, Times, Reshape, Matmul, ContractTerm, TermAt;
    MergeRuns(B, F, K);
    MergeRuns(B, K, G);
    MergeRuns(B, F, G);
    MergeRunsAt(B, F, G, b, i, j);
    var left, right := Reshape(x, B + [Size(F), Size(K)]), Reshape(y, B + [Size(K), Size(G)]);
    ProductShape(B, Size(F), Size(K), Size(G));
    var I := b + [Flat(F, i), Flat(G, j)];
    ReshapeAt(Matmul(left, right), B + F + G, b + i + j, I);
    MatmulSum(left, right, I);
    var f := (L: Index) => TermAt(x, y, b, i, j, L);
    var g := (t: nat) => ContractTerm(left, MatLeft, right, MatRight, I, [t]);
    forall t: nat | t < Size(K) ensures g(t) == Pick(K, f, t) {
      FlatUnflat(K, t);
      FlatTerm(x, y, B, F, K, G, b, i, j, Unflat(K, t));
    }
    SumCong(Size(K), g, (t: nat) => Pick(K, f, t));
  }

  // ----- dot_general -----

  datatype Pairing = Pairing(leftContract: seq<nat>, rightContract: seq<nat>, leftBatch: seq<nat>, rightBatch: seq<nat>)

  predicate DotOk(l: Shape, r: Shape, s: Pairing)
  {
    && |s.leftContract| == |s.rightContract| && |s.leftBatch| == |s.rightBatch|
    && AxesOk(|l|, s.leftContract + s.leftBatch) && AxesOk(|r|, s.rightContract + s.rightBatch)
    && InRange(|l|, s.leftContract) && InRange(|l|, s.leftBatch) && InRange(|r|, s.rightContract) && InRange(|r|, s.rightBatch)
    && Permuted(l, s.leftContract) == Permuted(r, s.rightContract)
    && Permuted(l, s.leftBatch) == Permuted(r, s.rightBatch)
  }

  function LeftFree(l: Shape, s: Pairing): (r: seq<nat>)
    ensures InRange(|l|, r)
  {
    Free(|l|, s.leftContract + s.leftBatch)
  }

  function RightFree(r: Shape, s: Pairing): (f: seq<nat>)
    ensures InRange(|r|, f)
  {
    Free(|r|, s.rightContract + s.rightBatch)
  }

  function LeftOrder(l: Shape, s: Pairing): seq<nat>
  {
    s.leftBatch + LeftFree(l, s) + s.leftContract
  }

  function RightOrder(r: Shape, s: Pairing): seq<nat>
  {
    s.rightBatch + s.rightContract + RightFree(r, s)
  }

  lemma {:induction false} FreeCong(n: nat, u: seq<nat>, v: seq<nat>)
    requires forall x :: x in u <==> x in v
    ensures Free(n, u) == Free(n, v)
  {
    if n > 0 {
      FreeCong(n - 1, u, v);
    }
  }

  lemma SwapAxes(n: nat, a: seq<nat>, b: seq<nat>)
    requires AxesOk(n, a + b)
    ensures AxesOk(n, b + a) && Free(n, a + b) == Free(n, b + a)
  {
    var u, v := a + b, b + a;
    forall k, l | 0 <= k < l < |v| ensures v[k] != v[l] {
      var k', l' := if k < |b| then |a| + k else k - |b|, if l < |b| then |a| + l else l - |b|;
      assert v[k] == u[k'] && v[l] == u[l'];
    }
    forall k | 0 <= k < |v| ensures v[k] < n {
      assert v[k] == u[if k < |b| then |a| + k else k - |b|];
    }
    assert forall x :: x in u <==> x in v;
    FreeCong(n, u, v);
  }

  lemma PermutedConcat<T>(xs: seq<T>, p: seq<nat>, q: seq<nat>)
    requires InRange(|xs|, p) && InRange(|xs|, q)
    ensures InRange(|xs|, p + q) && Permuted(xs, p + q) == Permuted(xs, p) + Permuted(xs, q)
  {
  }

  lemma OrdersOk(l: Shape, r: Shape, s: Pairing)
    requires DotOk(l, r, s)
    ensures IsPerm(LeftOrder(l, s), |l|) && IsPerm(RightOrder(r, s), |r|)
    ensures InRange(|l|, LeftOrder(l, s)) && InRange(|r|, RightOrder(r, s))
    ensures Permuted(l, LeftOrder(l, s)) == Permuted(l, s.leftBatch) + Permuted(l, LeftFree(l, s)) + Permuted(l, s.leftContract)
    ensures Permuted(r, RightOrder(r, s)) == Permuted(r, s.rightBatch) + Permuted(r, s.rightContract) + Permuted(r, RightFree(r, s))
  {
    hide IsPerm, Permuted, Free, Distinct;
    SwapAxes(|l|, s.leftContract, s.leftBatch);
    SwapAxes(|r|, s.rightContract, s.rightBatch);
    ArrangementPerm(|l|, s.leftBatch, s.leftContract);
    ArrangementPerm(|r|, s.rightBatch, s.rightContract);
    PermutedConcat(l, s.leftBatch, LeftFree(l, s));
    PermutedConcat(l, s.leftBatch + LeftFree(l, s), s.leftContract);
    PermutedConcat(r, s.rightBatch, s.rightContract);
    PermutedConcat(r, s.rightBatch + s.rightContract, RightFree(r, s));
  }

  /** Extents of the batch axes, the free axes of each side, and the contracted axes. */
  datatype AxisGroups = AxisGroups(batch: Shape, left: Shape, right: Shape, sum: Shape)

  function ExtentsOf(l: Shape, r: Shape, s: Pairing): AxisGroups
    requires DotOk(l, r, s)
  {
    AxisGroups(Permuted(l, s.leftBatch), Permuted(l, LeftFree(l, s)), Permuted(r, RightFree(r, s)), Permuted(l, s.leftContract))
  }

  /** The left operand with its axes ordered batch, free, contracted. */
  function LeftArranged(l: Tensor, r: Shape, s: Pairing): (t: Tensor)
    requires DotOk(l.shape, r, s)
    ensures var x := ExtentsOf(l.shape, r, s); t.shape == x.batch + x.left + x.sum
  {
    hide Size, Free, IsPerm, Permuted;
    OrdersOk(l.shape, r, s);
    Transpose(l, LeftOrder(l.shape, s))
  }

  /** The right operand with its axes ordered batch, contracted, free. */
  function RightArranged(l: Shape, r: Tensor, s: Pairing): (t: Tensor)
    requires DotOk(l, r.shape, s)
    ensures var x := ExtentsOf(l, r.shape, s); t.shape == x.batch + x.sum + x.right
  {
    hide Size, Free, IsPerm, Permuted;
    OrdersOk(l, r.shape, s);
    Transpose(r, RightOrder(r.shape, s))
  }

  function DotGeneral(l: Tensor, r: Tensor, s: Pairing): (d: Tensor)
    requires DotOk(l.shape, r.shape, s)
    ensures var x := ExtentsOf(l.shape, r.shape, s); d.shape == x.batch + x.left + x.right
  {
    hide *;
    var x := ExtentsOf(l.shape, r.shape, s);
    MatrixProduct(LeftArranged(l, r.shape, s), RightArranged(l.shape, r, s), x.batch, x.left, x.sum, x.right)
  }

  /** Whether listed axes have equal extents, pair by pair. */
  method SameExtents(l: Shape, r: Shape, a: seq<nat>, b: seq<nat>) returns (same: bool)
    requires |a| == |b| && InRange(|l|, a) && InRange(|r|, b)
    ensures same <==> Permuted(l, a) == Permuted(r, b)
  {
    for i := 0 to |a|
      invariant forall j :: 0 <= j < i ==> l[a[j]] == r[b[j]]
    {
      if l[a[i]] != r[b[i]] {
        assert Permuted(l, a)[i] != Permuted(r, b)[i];
        return false;
      }
    }
    assert Permuted(l, a) == Permuted(r, b);
    return true;
  }

  /** The checked operation: lists that pair one to one, distinct axes in range, equal extents. */
  method DotGeneralOf(l: Tensor, r: Tensor, s: Pairing) returns (d: Option<Tensor>)
    ensures d.Some? <==> DotOk(l.shape, r.shape, s)
    ensures d.Some? ==> d.value == DotGeneral(l, r, s)
  {
    hide DotGeneral, Permuted, Size;
    if |s.leftContract| != |s.rightContract| || |s.leftBatch| != |s.rightBatch| {
      return None;
    }
    var leftFree := Axes(|l.shape|, s.leftContract, s.leftBatch);
    var rightFree := Axes(|r.shape|, s.rightContract, s.rightBatch);
    if leftFree.None? || rightFree.None? {
      return None;
    }
    SplitRange(|l.shape|, s.leftContract, s.leftBatch);
    SplitRange(|r.shape|, s.rightContract, s.rightBatch);
    var contracted := SameExtents(l.shape, r.shape, s.leftContract, s.rightContract);
    var batched := SameExtents(l.shape, r.shape, s.leftBatch, s.rightBatch);
    if !contracted || !batched {
      return None;
    }
    return Some(DotGeneral(l, r, s));
  }

  lemma SplitRange(n: nat, a: seq<nat>, b: seq<nat>)
    requires AxesOk(n, a + b)
    ensures InRange(n, a) && InRange(n, b)
  {
    assert forall k :: 0 <= k < |a| ==> (a + b)[k] == a[k];
    assert forall k :: 0 <= k < |b| ==> (a + b)[|a| + k] == b[k];
  }

  /** An entry of a contraction is the sum over the contracted coordinates L of the operands read through their axis orders. */
  lemma DotGeneralAt(l: Tensor, r: Tensor, s: Pairing, b: Index, i: Index, j: Index)
    requires DotOk(l.shape, r.shape, s)
    requires var x := ExtentsOf(l.shape, r.shape, s); Valid(x.batch, b) && Valid(x.left, i) && Valid(x.right, j)
    ensures At(DotGeneral(l, r, s), b + i + j)
         == SumIx(ExtentsOf(l.shape, r.shape, s).sum, (L: Index) =>
              TermAt(LeftArranged(l, r.shape, s), RightArranged(l.shape, r, s), b, i, j, L))
  {
    hide Size, MatrixProduct, At, TermAt, LeftArranged, RightArranged, DotOk, ExtentsOf, Valid, SumIx;
    var e := ExtentsOf(l.shape, r.shape, s);
    var x, y := LeftArranged(l, r.shape, s), RightArranged(l.shape, r, s);
    MatrixProductAt(x, y, e.batch, e.left, e.sum, e.right, b, i, j);
    SumIxCong(e.sum, (L: Index) => TermAt(x, y, b, i, j, L),
              (L: Index) => TermAt(LeftArranged(l, r.shape, s), RightArranged(l.shape, r, s), b, i, j, L));
  }
}
