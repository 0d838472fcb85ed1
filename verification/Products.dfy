/** Multiplication by name, so that proofs about index structure can hide nonlinear arithmetic. */
module Products {

  /** Product of two reals. */
  function Times(a: real, b: real): real
  {
    a * b
  }

  lemma TimesComm(a: real, b: real)
    ensures Times(a, b) == Times(b, a)
  {
  }

  lemma TimesAssoc(a: real, b: real, c: real)
    ensures Times(a, Times(b, c)) == Times(Times(a, b), c)
  {
  }

  lemma TimesAdd(a: real, b: real, c: real)
    ensures Times(a, b + c) == Times(a, b) + Times(a, c)
    ensures Times(b + c, a) == Times(b, a) + Times(c, a)
  {
  }

  lemma TimesZero(a: real)
    ensures Times(a, 0.0) == 0.0 && Times(0.0, a) == 0.0
  {
  }

  /** Product of two extents. */
  function Scale(a: nat, b: nat): nat
  {
    a * b
  }

  lemma ScaleUnit(n: nat)
    ensures Scale(1, n) == n == Scale(n, 1) && Scale(0, n) == 0 == Scale(n, 0)
  {
  }

  lemma ScaleStep(a: nat, n: nat)
    ensures Scale(a + 1, n) == Scale(a, n) + n
  {
  }

  lemma ScaleComm(a: nat, b: nat)
    ensures Scale(a, b) == Scale(b, a)
  {
  }

  lemma ScaleAssoc(a: nat, b: nat, c: nat)
    ensures Scale(a, Scale(b, c)) == Scale(Scale(a, b), c)
  {
  }

  lemma ScaleSplit(i: nat, n: nat, m: nat, f: nat)
    ensures Scale(i, Scale(n, m)) + Scale(f, m) == Scale(Scale(i, n) + f, m)
  {
  }

  /** Multiples with a common nonnegative factor keep strict order, with a gap. */
  lemma {:induction false} MulGap(a: int, b: int, n: nat)
    ensures a < b ==> a * n + n <= b * n
    decreases b - a
  {
    if a < b {
      MulGap(a + 1, b, n);
      assert (a + 1) * n == a * n + n;
    }
  }

  lemma DivModUnique(n: nat, i: int, r: nat)
    requires r < n
    ensures (i * n + r) / n == i && (i * n + r) % n == r
  {
    var k := i * n + r;
    assert k == (k / n) * n + k % n;
    MulGap(k / n, i, n);
    MulGap(i, k / n, n);
  }
}
