/** Row-major index arithmetic for tensors of any rank. */
module Shapes {
  import opened Products

  type Shape = seq<nat>

  /** A coordinate vector; coordinates outside the shape are representable. */
  type Index = seq<int>

  /** Number of elements. */
  function Size(s: Shape): nat
  {
    if s == [] then 1 else Scale(s[0], Size(s[1..]))
  }

  predicate Valid(s: Shape, ix: Index)
  {
    |ix| == |s| && forall a :: 0 <= a < |s| ==> 0 <= ix[a] < s[a]
  }

  /** Row-major position of a valid index. */
  function Flat(s: Shape, ix: Index): (k: nat)
    requires Valid(s, ix)
    ensures k < Size(s)
  {
    if s == [] then 0
    else
      assert Valid(s[1..], ix[1..]);
      Carry(s[0], Size(s[1..]), ix[0], Flat(s[1..], ix[1..]));
      Scale(ix[0], Size(s[1..])) + Flat(s[1..], ix[1..])
  }

  /** Index of a row-major position. */
  function Unflat(s: Shape, k: nat): (ix: Index)
    requires k < Size(s)
    ensures Valid(s, ix)
  {
    if s == [] then []
    else
      Borrow(s[0], Size(s[1..]), k);
      [k / Size(s[1..])] + Unflat(s[1..], k % Size(s[1..]))
  }

  lemma Carry(d: nat, n: nat, i: nat, r: nat)
    requires i < d && r < n
    ensures Scale(i, n) + r < Scale(d, n)
    ensures (Scale(i, n) + r) / n == i && (Scale(i, n) + r) % n == r
  {
    MulGap(i, d, n);
    DivModUnique(n, i, r);
  }

  lemma Borrow(d: nat, n: nat, k: nat)
    requires k < Scale(d, n)
    ensures n > 0 && 0 <= k / n < d && 0 <= k % n < n
    ensures k == Scale(k / n, n) + k % n
  {
    assert n == 0 ==> d * n == 0;
    assert k == (k / n) * n + k % n;
    MulGap(d - 1, k / n, n);
    MulGap(k / n, 0, n);
    assert (d - 1) * n == d * n - n;
  }

  lemma {:induction false} UnflatFlat(s: Shape, ix: Index)
    requires Valid(s, ix)
    ensures Unflat(s, Flat(s, ix)) == ix
  {
    if s != [] {
      hide Scale;
      assert Valid(s[1..], ix[1..]);
      UnflatFlat(s[1..], ix[1..]);
      Carry(s[0], Size(s[1..]), ix[0], Flat(s[1..], ix[1..]));
      assert ix == [ix[0]] + ix[1..];
    }
  }

  lemma {:induction false} FlatUnflat(s: Shape, k: nat)
    requires k < Size(s)
    ensures Flat(s, Unflat(s, k)) == k
  {
    if s != [] {
      hide Scale;
      Borrow(s[0], Size(s[1..]), k);
      var ix := Unflat(s, k);
      FlatUnflat(s[1..], k % Size(s[1..]));
      assert ix[1..] == Unflat(s[1..], k % Size(s[1..]));
    }
  }

  lemma FlatInjective(s: Shape, a: Index, b: Index)
    requires Valid(s, a) && Valid(s, b) && Flat(s, a) == Flat(s, b)
    ensures a == b
  {
    UnflatFlat(s, a);
    UnflatFlat(s, b);
  }

  lemma {:induction false} SizeConcat(s: Shape, t: Shape)
    ensures Size(s + t) == Scale(Size(s), Size(t))
  {
    hide Scale;
    if s == [] {
      assert s + t == t;
      ScaleUnit(Size(t));
    } else {
      assert (s + t)[1..] == s[1..] + t;
      SizeConcat(s[1..], t);
      ScaleAssoc(s[0], Size(s[1..]), Size(t));
    }
  }

  /** Position in a concatenated shape, from the positions in its two parts. */
  lemma {:induction false} FlatConcat(s: Shape, t: Shape, a: Index, b: Index)
    requires Valid(s, a) && Valid(t, b)
    ensures Valid(s + t, a + b)
    ensures Flat(s + t, a + b) == Scale(Flat(s, a), Size(t)) + Flat(t, b)
  {
    hide Scale;
    if s == [] {
      assert s + t == t && a + b == b;
      ScaleUnit(Size(t));
    } else {
      assert (s + t)[1..] == s[1..] + t && (a + b)[1..] == a[1..] + b;
      FlatConcat(s[1..], t, a[1..], b);
      SizeConcat(s[1..], t);
      ScaleSplit(a[0], Size(s[1..]), Size(t), Flat(s[1..], a[1..]));
    }
  }

  lemma UnflatConcat(s: Shape, t: Shape, i: nat, j: nat)
    requires i < Size(s) && j < Size(t)
    ensures Scale(i, Size(t)) + j < Size(s + t)
    ensures Unflat(s + t, Scale(i, Size(t)) + j) == Unflat(s, i) + Unflat(t, j)
  {
    hide Scale;
    var I, J := Unflat(s, i), Unflat(t, j);
    FlatUnflat(s, i);
    FlatUnflat(t, j);
    FlatConcat(s, t, I, J);
    UnflatFlat(s + t, I + J);
  }

  lemma FlatOne(d: nat, i: int)
    requires 0 <= i < d
    ensures Valid([d], [i]) && Flat([d], [i]) == i
  {
    ScaleUnit(i);
    assert [d][1..] == [];
  }

  /** Merging a run of axes into one keeps every position. */
  lemma FlatMerge(pre: Shape, run: Shape, post: Shape, I: Index, J: Index, K: Index)
    requires Valid(pre, I) && Valid(run, J) && Valid(post, K)
    ensures Valid(pre + run + post, I + J + K)
    ensures Valid(pre + [Size(run)] + post, I + [Flat(run, J)] + K)
    ensures Flat(pre + run + post, I + J + K) == Flat(pre + [Size(run)] + post, I + [Flat(run, J)] + K)
  {
    hide Scale, Flat, Size;
    FlatConcat(pre, run, I, J);
    FlatConcat(pre + run, post, I + J, K);
    FlatOne(Size(run), Flat(run, J));
    FlatConcat(pre, [Size(run)], I, [Flat(run, J)]);
    FlatConcat(pre + [Size(run)], post, I + [Flat(run, J)], K);
    SizeOne(Size(run));
  }

  lemma SizeOne(d: nat)
    ensures Size([d]) == d
  {
    ScaleUnit(d);
    assert [d][1..] == [];
  }

  lemma SizeTwo(a: nat, b: nat)
    ensures Size([a, b]) == Scale(a, b)
  {
    hide Scale;
    SizeOne(b);
    assert [a, b][1..] == [b];
  }

  lemma FlatTwo(a: nat, b: nat, i: nat, j: nat)
    requires i < a && j < b
    ensures Valid([a, b], [i, j]) && Flat([a, b], [i, j]) == Scale(i, b) + j
  {
    hide Scale;
    FlatOne(b, j);
    SizeOne(b);
    assert [a, b][1..] == [b] && [i, j][1..] == [j];
  }

  lemma SizeMerge(pre: Shape, run: Shape, post: Shape)
    ensures Size(pre + run + post) == Size(pre + [Size(run)] + post)
  {
    hide Scale, Size;
    SizeConcat(pre, run);
    SizeConcat(pre + run, post);
    SizeOne(Size(run));
    SizeConcat(pre, [Size(run)]);
    SizeConcat(pre + [Size(run)], post);
  }
}
