/** 32-bit words as bit patterns, least significant bit first, read as unsigned or as signed integers. */
module BitWords {
  import opened Products

  const MODULUS: nat := 0x1_0000_0000
  const HALF: nat := 0x8000_0000

  type Word = b: seq<bool> | |b| == 32 witness seq(32, i => false)

  function Pow2(k: nat): (p: nat)
    ensures p > 0
  {
    if k == 0 then 1 else 2 * Pow2(k - 1)
  }

  function Number(bits: seq<bool>): nat
  {
    if bits == [] then 0 else (if bits[0] then 1 else 0) + 2 * Number(bits[1..])
  }

  function Bits(n: nat, k: nat): (b: seq<bool>)
    ensures |b| == k
  {
    if k == 0 then [] else [n % 2 == 1] + Bits(n / 2, k - 1)
  }

  lemma {:induction false} NumberBound(bits: seq<bool>)
    ensures Number(bits) < Pow2(|bits|)
  {
    if bits != [] {
      NumberBound(bits[1..]);
    }
  }

  lemma {:induction false} NumberOfBits(n: nat, k: nat)
    requires n < Pow2(k)
    ensures Number(Bits(n, k)) == n
  {
    if k > 0 {
      NumberOfBits(n / 2, k - 1);
      assert Bits(n, k)[1..] == Bits(n / 2, k - 1);
    }
  }

  lemma {:induction false} BitsOfNumber(bits: seq<bool>)
    ensures Bits(Number(bits), |bits|) == bits
  {
    if bits != [] {
      BitsOfNumber(bits[1..]);
      assert bits == [bits[0]] + bits[1..];
    }
  }

  lemma {:induction false} Pow2Values()
    ensures Pow2(32) == MODULUS && Pow2(31) == HALF
  {
    assert Pow2(8) == 0x100;
    assert Pow2(16) == 0x1_0000;
    assert Pow2(24) == 0x100_0000;
    assert Pow2(31) == HALF;
  }

  lemma Ranged(w: Word)
    ensures Number(w) < MODULUS
  {
    NumberBound(w);
    Pow2Values();
  }

  function OfNumber(n: nat): (w: Word)
    requires n < MODULUS
    ensures Number(w) == n
  {
    Pow2Values();
    NumberOfBits(n, 32);
    Bits(n, 32)
  }

  /** Words with one number are equal. */
  lemma NumberInjective(a: Word, b: Word)
    requires Number(a) == Number(b)
    ensures a == b
  {
    BitsOfNumber(a);
    BitsOfNumber(b);
  }

  // ----- modular arithmetic -----

  /** Addition that wraps modulo 2^32. */
  function Add(a: Word, b: Word): (w: Word)
    ensures Number(w) == (Number(a) + Number(b)) % MODULUS
  {
    OfNumber((Number(a) + Number(b)) % MODULUS)
  }

  function Sub(a: Word, b: Word): (w: Word)
    ensures Number(w) == (Number(a) - Number(b)) % MODULUS
  {
    OfNumber((Number(a) - Number(b)) % MODULUS)
  }

  lemma AddSub(a: Word, b: Word)
    ensures Sub(Add(a, b), b) == a && Add(Sub(a, b), b) == a
  {
    hide Add, Sub, Number;
    Ranged(a);
    Ranged(b);
    NumberInjective(Sub(Add(a, b), b), a);
    NumberInjective(Add(Sub(a, b), b), a);
  }

  // ----- bitwise operations -----

  function Xor(a: Word, b: Word): Word
  {
    seq(32, (i: nat) requires i < 32 => a[i] != b[i])
  }

  function Or(a: Word, b: Word): Word
  {
    seq(32, (i: nat) requires i < 32 => a[i] || b[i])
  }

  lemma XorTwice(a: Word, b: Word)
    ensures Xor(Xor(a, b), b) == a
  {
  }

  function Zeros(k: nat): (z: seq<bool>)
    ensures |z| == k && forall i :: 0 <= i < k ==> !z[i]
  {
    seq(k, i => false)
  }

  function ShiftLeft(w: Word, k: nat): Word
    requires k <= 32
  {
    Zeros(k) + w[..32 - k]
  }

  /** Shift without copying the sign bit. */
  function ShiftRightLogical(w: Word, k: nat): Word
    requires k <= 32
  {
    w[k..] + Zeros(k)
  }

  function RotateLeft(w: Word, k: nat): Word
    requires 0 < k < 32
  {
    Or(ShiftLeft(w, k), ShiftRightLogical(w, 32 - k))
  }

  /** The two shifts together move the top k bits to the bottom and lose nothing. */
  lemma RotateIs(w: Word, k: nat)
    requires 0 < k < 32
    ensures RotateLeft(w, k) == w[32 - k..] + w[..32 - k]
  {
    var r, s := RotateLeft(w, k), w[32 - k..] + w[..32 - k];
    forall i: nat | i < 32 ensures r[i] == s[i] {
      assert ShiftLeft(w, k)[i] == (i >= k && w[i - k]);
    }
  }

  lemma RotateBack(w: Word, k: nat)
    requires 0 < k < 32
    ensures RotateLeft(RotateLeft(w, k), 32 - k) == w
  {
    RotateIs(w, k);
    RotateIs(RotateLeft(w, k), 32 - k);
  }

  // ----- signed reading and unsigned comparison -----

  /** Two's complement value. */
  function Signed(w: Word): int
  {
    if w[31] then Number(w) - MODULUS else Number(w)
  }

  lemma {:induction false} TopBit(bits: seq<bool>, k: nat)
    requires |bits| == k + 1
    ensures Number(bits) == Number(bits[..k]) + (if bits[k] then Pow2(k) else 0)
  {
    if k > 0 {
      TopBit(bits[1..], k - 1);
      assert bits[1..][..k - 1] == bits[..k][1..];
    }
  }

  /** The sign word: only the top bit set. */
  function SignWord(): (w: Word)
    ensures w[31] && forall i :: 0 <= i < 31 ==> !w[i]
  {
    Zeros(31) + [true]
  }

  /** Flipping the sign bit turns the unsigned order into the signed one. */
  lemma FlipSign(w: Word)
    ensures Signed(Xor(w, SignWord())) == Number(w) - HALF
  {
    var f := Xor(w, SignWord());
    TopBit(w, 31);
    TopBit(f, 31);
    assert f[..31] == w[..31];
    Pow2Values();
    NumberBound(w[..31]);
  }

  /** Unsigned less-than from a signed comparison of sign-flipped words. */
  predicate UnsignedLess(a: Word, b: Word)
  {
    !(Signed(Xor(b, SignWord())) <= Signed(Xor(a, SignWord())))
  }

  lemma UnsignedLessIs(a: Word, b: Word)
    ensures UnsignedLess(a, b) <==> Number(a) < Number(b)
  {
    FlipSign(a);
    FlipSign(b);
  }

  lemma {:induction false} ShiftNumber(bits: seq<bool>, k: nat)
    requires k <= |bits|
    ensures Number(bits[k..]) == Number(bits) / Pow2(k)
  {
    if k == 0 {
      assert bits[0..] == bits;
    } else {
      ShiftNumber(bits[1..], k - 1);
      assert bits[1..][k - 1..] == bits[k..];
      var n, p := Number(bits[1..]), Pow2(k - 1);
      HalveThenDivide(if bits[0] then 1 else 0, n, p);
    }
  }

  lemma HalveThenDivide(c: nat, n: nat, p: nat)
    requires c < 2 && p > 0
    ensures (c + 2 * n) / (2 * p) == n / p
  {
    var q, r := n / p, n % p;
    assert n == q * p + r;
    assert c + 2 * n == q * (2 * p) + (c + 2 * r);
    DivModUnique(2 * p, q, c + 2 * r);
  }
}
