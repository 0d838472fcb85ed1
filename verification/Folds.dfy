/** Inclusive folds of a sequence, and the work-efficient tree that computes all of them. */
module Folds {

  function Fold<T>(xs: seq<T>, op: (T, T) -> T): T
    requires |xs| > 0
  {
    if |xs| == 1 then xs[0] else op(Fold(xs[..|xs| - 1], op), xs[|xs| - 1])
  }

  lemma FoldStep<T>(xs: seq<T>, op: (T, T) -> T, k: nat)
    requires k < |xs|
    ensures Fold(xs[..k + 1], op) == if k == 0 then xs[0] else op(Fold(xs[..k], op), xs[k])
  {
    assert xs[..k + 1][..k] == xs[..k];
  }

  ghost predicate All<T>(P: T -> bool, xs: seq<T>)
  {
    forall k :: 0 <= k < |xs| ==> P(xs[k])
  }

  ghost predicate Associative<T(!new)>(op: (T, T) -> T, P: T -> bool)
  {
    && (forall x: T, y: T :: P(x) && P(y) ==> P(op(x, y)))
    && (forall x: T, y: T, z: T :: P(x) && P(y) && P(z) ==> op(op(x, y), z) == op(x, op(y, z)))
  }

  ghost predicate Commutative<T(!new)>(op: (T, T) -> T, P: T -> bool)
  {
    forall x: T, y: T :: P(x) && P(y) ==> op(x, y) == op(y, x)
  }

  lemma Reassociate<T(!new)>(op: (T, T) -> T, P: T -> bool, x: T, y: T, z: T)
    requires Associative(op, P) && P(x) && P(y) && P(z)
    ensures P(op(x, y)) && op(op(x, y), z) == op(x, op(y, z))
  {
  }

  lemma {:induction false} FoldIn<T(!new)>(xs: seq<T>, op: (T, T) -> T, P: T -> bool)
    requires |xs| > 0 && All(P, xs) && Associative(op, P)
    ensures P(Fold(xs, op))
  {
    hide Associative;
    if |xs| > 1 {
      FoldIn(xs[..|xs| - 1], op, P);
      Reassociate(op, P, Fold(xs[..|xs| - 1], op), xs[|xs| - 1], xs[0]);
    }
  }

  /** A fold over two runs combines the folds of the runs. */
  lemma {:induction false} FoldConcat<T(!new)>(xs: seq<T>, ys: seq<T>, op: (T, T) -> T, P: T -> bool)
    requires |xs| > 0 && |ys| > 0 && All(P, xs) && All(P, ys) && Associative(op, P)
    ensures Fold(xs + ys, op) == op(Fold(xs, op), Fold(ys, op))
  {
    hide Associative;
    var all := xs + ys;
    if |ys| == 1 {
      assert all[..|all| - 1] == xs;
    } else {
      var less := ys[..|ys| - 1];
      assert all[..|all| - 1] == xs + less;
      FoldConcat(xs, less, op, P);
      FoldIn(xs, op, P);
      FoldIn(less, op, P);
      Reassociate(op, P, Fold(xs, op), Fold(less, op), ys[|ys| - 1]);
    }
  }

  // ----- the tree -----

  function ZipWith<T>(op: (T, T) -> T, xs: seq<T>, ys: seq<T>): (r: seq<T>)
    requires |xs| == |ys|
    ensures |r| == |xs| && forall k :: 0 <= k < |r| ==> r[k] == op(xs[k], ys[k])
  {
    seq(|xs|, (k: nat) requires k < |xs| => op(xs[k], ys[k]))
  }

  function Evens<T>(xs: seq<T>): (r: seq<T>)
    ensures |r| == (|xs| + 1) / 2 && forall k :: 0 <= k < |r| ==> r[k] == xs[2 * k]
  {
    seq((|xs| + 1) / 2, (k: nat) requires k < (|xs| + 1) / 2 => xs[2 * k])
  }

  function Odds<T>(xs: seq<T>): (r: seq<T>)
    ensures |r| == |xs| / 2 && forall k :: 0 <= k < |r| ==> r[k] == xs[2 * k + 1]
  {
    seq(|xs| / 2, (k: nat) requires k < |xs| / 2 => xs[2 * k + 1])
  }

  function Alternate<T>(xs: seq<T>, ys: seq<T>): (r: seq<T>)
    requires |xs| == |ys|
    ensures |r| == 2 * |xs| && forall k :: 0 <= k < |r| ==> r[k] == if k % 2 == 0 then xs[k / 2] else ys[k / 2]
  {
    seq(2 * |xs|, (k: nat) requires k < 2 * |xs| => if k % 2 == 0 then xs[k / 2] else ys[k / 2])
  }

  /** Values of a scan and the number of element combinations spent on it. */
  datatype Scanned<T> = Scanned(values: seq<T>, combines: nat)

  function Pairs<T>(xs: seq<T>, op: (T, T) -> T): (r: seq<T>)
    ensures |r| == |xs| / 2 && forall k :: 0 <= k < |r| ==> r[k] == op(xs[2 * k], xs[2 * k + 1])
  {
    ZipWith(op, Evens(xs)[..|xs| / 2], Odds(xs))
  }

  /** Prefixes at even positions, from the prefixes at odd positions. */
  function EvenPrefixes<T>(xs: seq<T>, odd: seq<T>, op: (T, T) -> T): (r: seq<T>)
    requires |xs| > 1 && |odd| == |xs| / 2
    ensures |r| == (|xs| + 1) / 2 && r[0] == xs[0]
    ensures forall j :: 0 < j < |r| ==> r[j] == op(odd[j - 1], xs[2 * j])
  {
    var remaining := |xs| - |xs| / 2 - 1;
    [xs[0]] + ZipWith(op, odd[..remaining], Evens(xs)[1..1 + remaining])
  }

  function Spread<T>(xs: seq<T>, odd: seq<T>, op: (T, T) -> T): (r: seq<T>)
    requires |xs| > 1 && |odd| == |xs| / 2
    ensures |r| == |xs|
  {
    var pairs, even := |xs| / 2, EvenPrefixes(xs, odd, op);
    var merged := Alternate(even[..pairs], odd);
    if |xs| % 2 == 0 then merged else merged + [even[pairs]]
  }

  lemma SpreadEven<T>(xs: seq<T>, odd: seq<T>, op: (T, T) -> T, h: nat)
    requires |xs| > 1 && |odd| == |xs| / 2 && 2 * h < |xs|
    ensures Spread(xs, odd, op)[2 * h] == EvenPrefixes(xs, odd, op)[h]
  {
    hide EvenPrefixes, Alternate;
    var pairs, even := |xs| / 2, EvenPrefixes(xs, odd, op);
    if h < pairs {
      assert Alternate(even[..pairs], odd)[2 * h] == even[..pairs][h];
    } else {
      assert h == pairs;
    }
  }

  lemma SpreadOdd<T>(xs: seq<T>, odd: seq<T>, op: (T, T) -> T, h: nat)
    requires |xs| > 1 && |odd| == |xs| / 2 && 2 * h + 1 < |xs|
    ensures Spread(xs, odd, op)[2 * h + 1] == odd[h]
  {
    hide EvenPrefixes, Alternate;
    var pairs, even := |xs| / 2, EvenPrefixes(xs, odd, op);
    assert Alternate(even[..pairs], odd)[2 * h + 1] == odd[h];
  }

  lemma SpreadAt<T>(xs: seq<T>, odd: seq<T>, op: (T, T) -> T, k: nat)
    requires |xs| > 1 && |odd| == |xs| / 2 && k < |xs|
    ensures k == 0 ==> Spread(xs, odd, op)[k] == xs[0]
    ensures k % 2 == 1 ==> Spread(xs, odd, op)[k] == odd[k / 2]
    ensures k > 0 && k % 2 == 0 ==> Spread(xs, odd, op)[k] == op(odd[k / 2 - 1], xs[k])
  {
    hide EvenPrefixes, Spread;
    var h: nat := k / 2;
    if k % 2 == 1 {
      SpreadOdd(xs, odd, op, h);
    } else {
      SpreadEven(xs, odd, op, h);
    }
  }

  /** The tree scan: combine neighbours, scan the half-length sequence, then fill in the even positions. */
  function Tree<T>(xs: seq<T>, op: (T, T) -> T): (r: Scanned<T>)
    ensures |r.values| == |xs|
    decreases |xs|
  {
    if |xs| <= 1 then Scanned(xs, 0) else
      var odd := Tree(Pairs(xs, op), op);
      Scanned(Spread(xs, odd.values, op), odd.combines + |xs| / 2 + (|xs| - |xs| / 2 - 1))
  }

  /** Folding neighbouring pairs folds twice as many elements. */
  lemma {:induction false} FoldPairs<T(!new)>(xs: seq<T>, op: (T, T) -> T, P: T -> bool, k: nat)
    requires All(P, xs) && Associative(op, P) && k < |xs| / 2
    ensures Fold(Pairs(xs, op)[..k + 1], op) == Fold(xs[..2 * k + 2], op)
  {
    hide Associative;
    var p := Pairs(xs, op);
    var two := [xs[2 * k], xs[2 * k + 1]];
    assert p[..k + 1][..k] == p[..k];
    assert Fold(two, op) == op(Fold(two[..1], op), two[1]) && Fold(two[..1], op) == two[0];
    if k == 0 {
      assert xs[..2] == two;
    } else {
      FoldPairs(xs, op, P, k - 1);
      assert xs[..2 * k + 2] == xs[..2 * k] + two;
      FoldConcat(xs[..2 * k], two, op, P);
      FoldIn(xs[..2 * k], op, P);
    }
  }

  /** The tree computes every inclusive prefix fold, for every associative combination and every length. */
  lemma {:induction false} TreeFolds<T(!new)>(xs: seq<T>, op: (T, T) -> T, P: T -> bool, k: nat)
    requires All(P, xs) && Associative(op, P) && k < |xs|
    ensures Tree(xs, op).values[k] == Fold(xs[..k + 1], op)
    decreases |xs|
  {
    hide Associative, Pairs, Spread;
    if |xs| == 1 {
      assert xs[..1] == xs;
    } else {
      SpreadAt(xs, Tree(Pairs(xs, op), op).values, op, k);
      PairsIn(xs, op, P);
      if k % 2 == 1 {
        TreeFolds(Pairs(xs, op), op, P, k / 2);
        FoldPairs(xs, op, P, k / 2);
      } else if k > 0 {
        TreeFolds(Pairs(xs, op), op, P, k / 2 - 1);
        FoldPairs(xs, op, P, k / 2 - 1);
        assert xs[..k + 1][..k] == xs[..k];
      }
    }
  }

  lemma PairsIn<T(!new)>(xs: seq<T>, op: (T, T) -> T, P: T -> bool)
    requires All(P, xs) && Associative(op, P)
    ensures All(P, Pairs(xs, op))
  {
    hide Associative;
    forall k | 0 <= k < |xs| / 2 ensures P(Pairs(xs, op)[k]) {
      Reassociate(op, P, xs[2 * k], xs[2 * k + 1], xs[0]);
    }
  }

  /** Fewer than two combinations per element. */
  lemma {:induction false} TreeWork<T>(xs: seq<T>, op: (T, T) -> T)
    requires |xs| > 0
    ensures Tree(xs, op).combines < 2 * |xs|
    decreases |xs|
  {
    if |xs| > 1 {
      TreeWork(Pairs(xs, op), op);
    }
  }

  function Log2(n: nat): nat
    requires n > 0
  {
    if n == 1 then 0 else 1 + Log2(n / 2)
  }

  /** Depth of a combination of two subresults. */
  function Deeper(a: nat, b: nat): nat
  {
    1 + if a < b then b else a
  }

  /** Run on depths instead of values, the tree stays within two levels per halving. */
  lemma {:induction false} TreeDepth(xs: seq<nat>, d: nat, k: nat)
    requires (forall j :: 0 <= j < |xs| ==> xs[j] <= d) && k < |xs|
    ensures Tree(xs, Deeper).values[k] <= d + 2 * Log2(|xs|)
    decreases |xs|
  {
    if |xs| > 1 {
      var p := Pairs(xs, Deeper);
      SpreadAt(xs, Tree(p, Deeper).values, Deeper, k);
      if k % 2 == 1 {
        TreeDepth(p, d + 1, k / 2);
      } else if k > 0 {
        TreeDepth(p, d + 1, k / 2 - 1);
      }
    }
  }
}
