/** Branch-free bisection with a fixed number of rounds: exactly where it finds the insertion position. */
module SearchSorted {
  import opened Options
  import opened BitWords
  import opened KvCaches
  import opened TensorOps
  import Products

  /** Logical right shift by one of an I32 pattern. */
  function HalveUnsigned(x: int): int
  {
    (if x < 0 then x + 0x1_0000_0000 else x) / 2
  }

  /** Gather with the index clamped into the vector. */
  function Take(values: seq<int>, i: int): int
    requires |values| > 0
  {
    values[ClampTo(i, |values| - 1)]
  }

  predicate Sorted(values: seq<int>)
  {
    forall i, j :: 0 <= i < j < |values| ==> values[i] <= values[j]
  }

  /** Elements that lie before the insertion point. */
  predicate Before(value: int, needle: int, right: bool)
  {
    if right then value <= needle else value < needle
  }

  /** The number of leading elements before the insertion point. */
  function Position(values: seq<int>, needle: int, right: bool): (p: nat)
    ensures p <= |values|
    ensures forall i :: 0 <= i < p ==> Before(values[i], needle, right)
    ensures p < |values| ==> !Before(values[p], needle, right)
  {
    if values == [] || !Before(values[0], needle, right) then 0
    else
      var p := Position(values[1..], needle, right);
      assert forall i :: 1 <= i < p + 1 ==> values[i] == values[1..][i - 1];
      p + 1
  }

  /** On a sorted vector everything from the insertion point on stays after the needle. */
  lemma AfterPosition(values: seq<int>, needle: int, right: bool, i: nat)
    requires Sorted(values) && Position(values, needle, right) <= i < |values|
    ensures !Before(values[i], needle, right)
  {
    var p := Position(values, needle, right);
    assert values[p] <= values[i];
  }

  /** Whether the needle lies past the end can be seen from the last element alone. */
  lemma PastLast(values: seq<int>, needle: int, right: bool)
    requires Sorted(values) && values != []
    ensures Position(values, needle, right) < |values| <==> !Before(values[|values| - 1], needle, right)
  {
    if Position(values, needle, right) < |values| {
      AfterPosition(values, needle, right, |values| - 1);
    }
  }

  /** Bits needed to write n. */
  function BitLength(n: nat): nat
  {
    if n == 0 then 0 else 1 + BitLength(n / 2)
  }

  lemma {:induction false} BitLengthBounds(n: nat)
    ensures n < Pow2(BitLength(n))
    ensures n > 0 ==> Pow2(BitLength(n) - 1) <= n
  {
    if n > 0 {
      BitLengthBounds(n / 2);
    }
  }

  /** n halved k times. */
  function Halved(n: nat, k: nat): nat
  {
    if k == 0 then n else Halved(n, k - 1) / 2
  }

  lemma {:induction false} HalvedIs(n: nat, k: nat)
    ensures Halved(n, k) == n / Pow2(k)
  {
    if k > 0 {
      HalvedIs(n, k - 1);
      DivDiv(n, Pow2(k - 1));
    }
  }

  lemma DivDiv(n: nat, p: nat)
    requires p > 0
    ensures n / p / 2 == n / (2 * p)
  {
    var q, r := n / p, n % p;
    assert n == q * p + r;
    assert n == (q / 2) * (2 * p) + ((q % 2) * p + r) by {
      assert q == 2 * (q / 2) + q % 2;
      assert q * p == (2 * (q / 2)) * p + (q % 2) * p;
      assert (2 * (q / 2)) * p == (q / 2) * (2 * p);
    }
    assert (q % 2) * p + r < 2 * p;
    Products.DivModUnique(2 * p, q / 2, (q % 2) * p + r);
  }

  /** Whether n + 1 is a power of two. */
  predicate AllOnes(n: nat)
  {
    n + 1 == Pow2(BitLength(n))
  }

  lemma AllOnesIs(n: nat)
    ensures AllOnes(n) <==> exists r: nat :: Pow2(r) == n + 1
  {
    if r: nat :| Pow2(r) == n + 1 {
      BitsOfOnes(r);
    }
  }

  /** After all rounds the halved extent is used up; one more than it survives only when n + 1 is a power of two. */
  lemma RoundsSuffice(n: nat)
    requires n > 0
    ensures Halved(n, BitLength(n)) == 0
    ensures Halved(n + 1, BitLength(n)) == if AllOnes(n) then 1 else 0
  {
    var r := BitLength(n);
    BitLengthBounds(n);
    HalvedIs(n, r);
    HalvedIs(n + 1, r);
    Products.DivModUnique(Pow2(r), 0, n);
    if AllOnes(n) {
      Products.DivModUnique(Pow2(r), 1, 0);
    } else {
      Products.DivModUnique(Pow2(r), 0, n + 1);
    }
  }

  /** The position the loop returns for a needle whose insertion point is p. */
  function Found(n: nat, p: nat): nat
  {
    if p < n || AllOnes(n) then p else n + 1
  }

  /** The midpoint of two non-negative bounds, although their sum may not fit a signed word. */
  lemma MiddleFits(low: int, high: int)
    requires 0 <= low && 0 <= high && low + high < 0x1_0000_0000
    ensures HalveUnsigned(Wrap(low + high)) == (low + high) / 2
  {
  }

  lemma {:induction false} HalvedPower(r: nat, k: nat)
    requires k <= r
    ensures Halved(Pow2(r), k) == Pow2(r - k)
  {
    if k > 0 {
      HalvedPower(r, k - 1);
    }
  }

  lemma {:induction false} BitsOfOnes(r: nat)
    ensures BitLength(Pow2(r) - 1) == r
  {
    if r > 0 {
      BitsOfOnes(r - 1);
      assert (Pow2(r) - 1) / 2 == Pow2(r - 1) - 1;
    }
  }

  /** For the longest vector an I32 can index, no midpoint plus one leaves the I32 range. */
  lemma LongestVector(k: nat)
    requires k < BitLength(I32_MAX)
    ensures Halved(I32_MAX + 1, k) >= 2
  {
    Pow2Values();
    BitsOfOnes(31);
    HalvedPower(31, k);
    assert Pow2(31 - k) == 2 * Pow2(30 - k);
  }

  /** One needle. The result is the insertion point exactly when the last element does not lie before it, or the length
      plus one is a power of two; otherwise the insertion point is the length and the result one more. */
  method Search(values: seq<int>, needle: int, right: bool) returns (result: Option<int>)
    requires Sorted(values)
    ensures result.Some? <==> |values| <= I32_MAX
    ensures result.Some? ==>
      result.value == if |values| == 0 then 0 else Found(|values|, Position(values, needle, right))
    ensures result.Some? && |values| > 0 ==>
      (result.value == Position(values, needle, right) <==>
      (!Before(values[|values| - 1], needle, right) || exists r: nat :: Pow2(r) == |values| + 1))
  {
    hide Position, BitLength, Halved, AllOnes;
    var n := |values|;
    if n > I32_MAX {
      return None;
    }
    if n == 0 {
      return Some(0);
    }
    ghost var p := Position(values, needle, right);
    var low, high, rounds := 0, n, BitLength(n);
    HalvedStart(n);
    var k := 0;
    while k < rounds
      invariant 0 <= k <= rounds && 0 <= low <= n + 1 && 0 <= high <= n
      invariant p < n ==> low <= p <= high && high - low <= Halved(n, k)
      invariant p == n ==> high == n && n - low + 1 == Halved(n + 1, k)
    {
      HalvedStep(n, k);
      if n == I32_MAX {
        LongestVector(k);
      }
      MiddleFits(low, high);
      var middle := HalveUnsigned(Wrap(low + high));
      var value := Take(values, middle);
      var advance := if right then value <= needle else value < needle;
      if p <= ClampTo(middle, n - 1) {
        AfterPosition(values, needle, right, ClampTo(middle, n - 1));
      }
      low, high := if advance then Wrap(middle + 1) else low, if advance then high else middle;
      k := k + 1;
    }
    RoundsSuffice(n);
    PastLast(values, needle, right);
    AllOnesIs(n);
    return Some(low);
  }

  lemma HalvedStart(n: nat)
    ensures Halved(n, 0) == n && Halved(n + 1, 0) == n + 1
  {
  }

  lemma HalvedStep(n: nat, k: nat)
    ensures Halved(n, k + 1) == Halved(n, k) / 2 && Halved(n + 1, k + 1) == Halved(n + 1, k) / 2
  {
  }

  /** Searching two equal elements for a larger needle answers 3, although its insertion point is 2. */
  method PastTheEnd() returns (result: Option<int>)
    ensures result == Some(3) && Position([0, 0], 1, false) == 2
  {
    hide Position, AllOnes;
    AllBefore([0, 0], 1);
    TwoIsNotAllOnes();
    result := Search([0, 0], 1, false);
  }

  lemma {:induction false} AllBefore(values: seq<int>, needle: int)
    requires forall i :: 0 <= i < |values| ==> values[i] < needle
    ensures Position(values, needle, false) == |values|
  {
    if values != [] {
      AllBefore(values[1..], needle);
    }
  }

  lemma TwoIsNotAllOnes()
    ensures !AllOnes(2)
  {
    assert BitLength(1) == 1;
    assert BitLength(2) == 2;
    assert Pow2(2) == 4;
  }
}
