/** Byte strings and the encodings cache keys are built from. */
module ByteStrings {

  type Byte = b: int | 0 <= b < 256
  type Bytes = seq<Byte>

  /** The bytes of an ASCII text. */
  function Ascii(s: string): (b: Bytes)
    ensures |b| == |s| && forall i :: 0 <= i < |s| ==> b[i] == (s[i] as int) % 256
  {
    seq(|s|, (i: nat) requires i < |s| => (s[i] as int) % 256)
  }

  function Power256(k: nat): (p: nat)
    ensures p > 0
  {
    if k == 0 then 1 else 256 * Power256(k - 1)
  }

  /** k bytes, least significant first. */
  function LittleEndian(n: nat, k: nat): (b: Bytes)
    ensures |b| == k
  {
    if k == 0 then [] else [n % 256] + LittleEndian(n / 256, k - 1)
  }

  lemma {:induction false} LittleEndianInjective(m: nat, n: nat, k: nat)
    requires m < Power256(k) && n < Power256(k) && LittleEndian(m, k) == LittleEndian(n, k)
    ensures m == n
  {
    if k > 0 {
      assert LittleEndian(m, k)[0] == LittleEndian(n, k)[0];
      assert LittleEndian(m, k)[1..] == LittleEndian(m / 256, k - 1);
      assert LittleEndian(n, k)[1..] == LittleEndian(n / 256, k - 1);
      LittleEndianInjective(m / 256, n / 256, k - 1);
    }
  }

  /** A length field of eight bytes. */
  function LengthField(b: Bytes): (f: Bytes)
    ensures |f| == 8
  {
    LittleEndian(|b|, 8)
  }

  /** Byte strings whose length an eight-byte field can hold. */
  predicate Addressable(b: Bytes)
  {
    |b| < Power256(8)
  }

  lemma LengthFieldInjective(a: Bytes, b: Bytes)
    requires Addressable(a) && Addressable(b) && LengthField(a) == LengthField(b)
    ensures |a| == |b|
  {
    LittleEndianInjective(|a|, |b|, 8);
  }

  /** A length-prefixed part can be told apart from what follows it. */
  lemma FramedInjective(a: Bytes, b: Bytes, x: Bytes, y: Bytes)
    requires Addressable(a) && Addressable(b)
    requires LengthField(a) + a + x == LengthField(b) + b + y
    ensures a == b && x == y
  {
    hide LengthField, Addressable;
    var u, v := LengthField(a) + a + x, LengthField(b) + b + y;
    assert u[..8] == LengthField(a) && v[..8] == LengthField(b);
    LengthFieldInjective(a, b);
    assert u[8..8 + |a|] == a && v[8..8 + |a|] == b;
    assert u[8 + |a|..] == x && v[8 + |a|..] == y;
  }

  /** A common prefix can be cancelled. */
  lemma PrefixCancel(p: Bytes, x: Bytes, y: Bytes)
    requires p + x == p + y
    ensures x == y
  {
    assert (p + x)[|p|..] == x && (p + y)[|p|..] == y;
  }
}
