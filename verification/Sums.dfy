/** Finite sums of reals indexed by 0, ..., n-1, and exchange of summation order. */
module Sums {

  import opened Products

  function Sum(n: nat, f: nat -> real): real
  {
    if n == 0 then 0.0 else Sum(n - 1, f) + f(n - 1)
  }

  lemma SumCong(n: nat, f: nat -> real, g: nat -> real)
    requires forall i: nat :: i < n ==> f(i) == g(i)
    ensures Sum(n, f) == Sum(n, g)
  {
  }

  lemma SumZero(n: nat, f: nat -> real)
    requires forall i: nat :: i < n ==> f(i) == 0.0
    ensures Sum(n, f) == 0.0
  {
  }

  lemma SumAdd(n: nat, f: nat -> real, g: nat -> real, h: nat -> real)
    requires forall i: nat :: i < n ==> h(i) == f(i) + g(i)
    ensures Sum(n, h) == Sum(n, f) + Sum(n, g)
  {
  }

  lemma {:induction false} SumScale(n: nat, c: real, f: nat -> real, h: nat -> real)
    requires forall i: nat :: i < n ==> h(i) == Times(c, f(i))
    ensures Sum(n, h) == Times(c, Sum(n, f))
  {
    hide Times;
    if n == 0 {
      TimesZero(c);
    } else {
      SumScale(n - 1, c, f, h);
      TimesAdd(c, Sum(n - 1, f), f(n - 1));
    }
  }

  /** A sum with at most one nonzero term. */
  lemma {:induction false} SumDelta(n: nat, k: nat, f: nat -> real)
    requires k < n
    requires forall i: nat :: i < n && i != k ==> f(i) == 0.0
    ensures Sum(n, f) == f(k)
  {
    if k == n - 1 {
      SumZero(n - 1, f);
    } else {
      SumDelta(n - 1, k, f);
    }
  }

  /** Split a sum over 0..a+b after its first a terms. */
  lemma {:induction false} SumSplit(a: nat, b: nat, f: nat -> real, g: nat -> real)
    requires forall i: nat :: i < b ==> g(i) == f(a + i)
    ensures Sum(a + b, f) == Sum(a, f) + Sum(b, g)
  {
    if b > 0 {
      SumSplit(a, b - 1, f, g);
    }
  }

  function Row(F: (nat, nat) -> real, m: nat, i: nat): real
  {
    Sum(m, (j: nat) => F(i, j))
  }

  function Col(F: (nat, nat) -> real, n: nat, j: nat): real
  {
    Sum(n, (i: nat) => F(i, j))
  }

  lemma RowCong(F: (nat, nat) -> real, m: nat, i: nat, g: nat -> real)
    requires forall j: nat :: j < m ==> F(i, j) == g(j)
    ensures Row(F, m, i) == Sum(m, g)
  {
    SumCong(m, (j: nat) => F(i, j), g);
  }

  lemma ColCong(F: (nat, nat) -> real, n: nat, j: nat, g: nat -> real)
    requires forall i: nat :: i < n ==> F(i, j) == g(i)
    ensures Col(F, n, j) == Sum(n, g)
  {
    SumCong(n, (i: nat) => F(i, j), g);
  }

  /** Exchanging the order of a finite double sum. */
  lemma {:induction false} SumSwap(n: nat, m: nat, F: (nat, nat) -> real, rows: nat -> real, cols: nat -> real)
    requires forall i: nat :: i < n ==> rows(i) == Row(F, m, i)
    requires forall j: nat :: j < m ==> cols(j) == Col(F, n, j)
    ensures Sum(n, rows) == Sum(m, cols)
  {
    if n == 0 {
      SumZero(m, cols);
    } else {
      var less := (j: nat) => Col(F, n - 1, j);
      SumSwap(n - 1, m, F, rows, less);
      var last := (j: nat) => F(n - 1, j);
      forall j: nat | j < m
        ensures cols(j) == less(j) + last(j)
      {
        SumCong(n - 1, (i: nat) => F(i, j), (i: nat) => F(i, j));
        assert Col(F, n, j) == Sum(n, (i: nat) => F(i, j));
      }
      SumAdd(m, less, last, cols);
      RowCong(F, m, n - 1, last);
    }
  }

  /** Summing over 0..a*b is summing over quotient and remainder. */
  lemma {:induction false} SumProduct(a: nat, b: nat, f: nat -> real, rows: nat -> real, F: (nat, nat) -> real)
    requires forall i: nat, j: nat :: i < a && j < b ==> F(i, j) == f(Scale(i, b) + j)
    requires forall i: nat :: i < a ==> rows(i) == Row(F, b, i)
    ensures Sum(Scale(a, b), f) == Sum(a, rows)
  {
    hide Scale;
    if a == 0 {
      ScaleUnit(b);
    } else {
      SumProduct(a - 1, b, f, rows, F);
      ScaleStep(a - 1, b);
      var g := (j: nat) => F(a - 1, j);
      SumSplit(Scale(a - 1, b), b, f, g);
      RowCong(F, b, a - 1, g);
    }
  }
}
