/** Threefry2x32-20: the block function is a permutation of counters; 64-bit counters built from two words; the blocks of
    one draw. */
module Threefry {
  import opened Options
  import opened BitWords

  datatype Words = Words(lo: Word, hi: Word)

  // ----- one round and one key injection -----

  const ROTATIONS: seq<nat> := [13, 15, 26, 6, 17, 29, 16, 24]

  function Rotation(round: nat): (r: nat)
    ensures 0 < r < 32
  {
    ROTATIONS[round % 8]
  }

  function Mix(w: Words, round: nat): Words
  {
    var a := Add(w.lo, w.hi);
    Words(a, Xor(RotateLeft(w.hi, Rotation(round)), a))
  }

  function Unmix(w: Words, round: nat): Words
  {
    var b := RotateLeft(Xor(w.hi, w.lo), 32 - Rotation(round));
    Words(Sub(w.lo, b), b)
  }

  lemma MixInverse(w: Words, round: nat)
    ensures Unmix(Mix(w, round), round) == w && Mix(Unmix(w, round), round) == w
  {
    hide RotateLeft, Add, Sub, Xor, Rotation;
    var r := Rotation(round);
    XorTwice(RotateLeft(w.hi, r), Add(w.lo, w.hi));
    RotateBack(w.hi, r);
    AddSub(w.lo, w.hi);
    var x := Xor(w.hi, w.lo);
    RotateBack(x, 32 - r);
    AddSub(w.lo, RotateLeft(x, 32 - r));
    XorTwice(w.hi, w.lo);
  }

  function Parity(): Word
  {
    OfNumber(0x1bd1_1bda)
  }

  /** The two key words and their parity word. */
  function KeyWords(key: Words): (k: seq<Word>)
    ensures |k| == 3
  {
    [key.lo, key.hi, Xor(Xor(key.lo, key.hi), Parity())]
  }

  function Inject(w: Words, key: Words, n: nat): Words
    requires n < 8
  {
    var keys := KeyWords(key);
    Words(Add(w.lo, keys[n % 3]), Add(Add(w.hi, keys[(n + 1) % 3]), OfNumber(n)))
  }

  function Uninject(w: Words, key: Words, n: nat): Words
    requires n < 8
  {
    var keys := KeyWords(key);
    Words(Sub(w.lo, keys[n % 3]), Sub(Sub(w.hi, OfNumber(n)), keys[(n + 1) % 3]))
  }

  lemma InjectInverse(w: Words, key: Words, n: nat)
    requires n < 8
    ensures Uninject(Inject(w, key, n), key, n) == w && Inject(Uninject(w, key, n), key, n) == w
  {
    hide Add, Sub, KeyWords, OfNumber;
    var k, l, m := KeyWords(key)[n % 3], KeyWords(key)[(n + 1) % 3], OfNumber(n);
    AddSub(w.lo, k);
    AddSub(w.hi, l);
    AddSub(Add(w.hi, l), m);
    AddSub(Sub(w.hi, m), l);
    AddSub(w.hi, m);
  }

  // ----- twenty rounds -----

  /** The state after n rounds, with the key injected after every fourth. */
  function Rounds(w: Words, key: Words, n: nat): Words
    requires n <= 20
  {
    if n == 0 then w else
      var mixed := Mix(Rounds(w, key, n - 1), n - 1);
      if n % 4 == 0 then Inject(mixed, key, n / 4) else mixed
  }

  /** Undo the last n rounds. */
  function Unrounds(w: Words, key: Words, n: nat): Words
    requires n <= 20
    decreases n
  {
    if n == 0 then w else
      var mixed := if n % 4 == 0 then Uninject(w, key, n / 4) else w;
      Unrounds(Unmix(mixed, n - 1), key, n - 1)
  }

  lemma {:induction false} RoundsInverse(w: Words, key: Words, n: nat)
    requires n <= 20
    ensures Unrounds(Rounds(w, key, n), key, n) == w
  {
    hide Mix, Unmix, Inject, Uninject;
    if n > 0 {
      var mixed := Mix(Rounds(w, key, n - 1), n - 1);
      if n % 4 == 0 {
        InjectInverse(mixed, key, n / 4);
      }
      MixInverse(Rounds(w, key, n - 1), n - 1);
      RoundsInverse(w, key, n - 1);
    }
  }

  lemma {:induction false} UnroundsInverse(w: Words, key: Words, n: nat)
    requires n <= 20
    ensures Rounds(Unrounds(w, key, n), key, n) == w
    decreases n
  {
    hide Mix, Unmix, Inject, Uninject;
    if n > 0 {
      var mixed := if n % 4 == 0 then Uninject(w, key, n / 4) else w;
      if n % 4 == 0 {
        InjectInverse(w, key, n / 4);
      }
      MixInverse(mixed, n - 1);
      UnroundsInverse(Unmix(mixed, n - 1), key, n - 1);
    }
  }

  function Encrypt(key: Words, counter: Words): Words
  {
    Rounds(Words(Add(counter.lo, key.lo), Add(counter.hi, key.hi)), key, 20)
  }

  function Decrypt(key: Words, block: Words): Words
  {
    var w := Unrounds(block, key, 20);
    Words(Sub(w.lo, key.lo), Sub(w.hi, key.hi))
  }

  /** For every key the block function is a permutation of the counters. */
  lemma EncryptPermutes(key: Words, w: Words)
    ensures Decrypt(key, Encrypt(key, w)) == w && Encrypt(key, Decrypt(key, w)) == w
  {
    hide Rounds, Unrounds, Add, Sub;
    RoundsInverse(Words(Add(w.lo, key.lo), Add(w.hi, key.hi)), key, 20);
    UnroundsInverse(w, key, 20);
    AddSub(w.lo, key.lo);
    AddSub(w.hi, key.hi);
    AddSub(Unrounds(w, key, 20).lo, key.lo);
    AddSub(Unrounds(w, key, 20).hi, key.hi);
  }

  /** Distinct counters give distinct blocks. */
  lemma EncryptInjective(key: Words, c: Words, d: Words)
    requires Encrypt(key, c) == Encrypt(key, d)
    ensures c == d
  {
    hide Encrypt, Decrypt;
    EncryptPermutes(key, c);
    EncryptPermutes(key, d);
  }

  /** The block loop: two words updated through twenty rounds. */
  method Block(key: Words, counter: Words) returns (block: Words)
    ensures block == Encrypt(key, counter)
  {
    hide RotateLeft, Rotation, Add, Xor, OfNumber, KeyWords;
    var keys := KeyWords(key);
    var a, b := Add(counter.lo, key.lo), Add(counter.hi, key.hi);
    ghost var start := Words(a, b);
    var round := 0;
    while round < 20
      invariant 0 <= round <= 20 && Words(a, b) == Rounds(start, key, round)
    {
      a := Add(a, b);
      b := Xor(RotateLeft(b, Rotation(round)), a);
      if (round + 1) % 4 == 0 {
        var injection := (round + 1) / 4;
        a := Add(a, keys[injection % 3]);
        b := Add(Add(b, keys[(injection + 1) % 3]), OfNumber(injection));
      }
      round := round + 1;
    }
    return Words(a, b);
  }

  // ----- counters -----

  const PERIOD: nat := MODULUS * MODULUS

  /** The 64-bit counter in two words, low word first. */
  function Counter(w: Words): nat
  {
    Number(w.lo) + MODULUS * Number(w.hi)
  }

  function One(): Word
  {
    OfNumber(1)
  }

  /** The low word plus the increment, with the carry found by unsigned comparison. */
  function Advance(w: Words, increment: Word): Words
  {
    var lo := Add(w.lo, increment);
    Words(lo, if UnsignedLess(lo, w.lo) then Add(w.hi, One()) else w.hi)
  }

  /** The mask reported with the advanced counter. */
  predicate Wrapped(w: Words, increment: Word)
  {
    UnsignedLess(Advance(w, increment).hi, w.hi)
  }

  /** Advancing adds modulo 2^64, and the reported wrap is exact. */
  lemma AdvanceIs(w: Words, increment: Word)
    ensures Counter(Advance(w, increment)) == (Counter(w) + Number(increment)) % PERIOD
    ensures Wrapped(w, increment) <==> Counter(w) + Number(increment) >= PERIOD
  {
    hide UnsignedLess, Number, OfNumber, Add, Xor;
    Ranged(w.lo);
    Ranged(w.hi);
    Ranged(increment);
    UnsignedLessIs(Add(w.lo, increment), w.lo);
    UnsignedLessIs(Advance(w, increment).hi, w.hi);
  }

  // ----- one draw -----

  const MAX_BLOCKS: nat := 0x7fff_ffff

  datatype Draw = Draw(blocks: seq<Words>, next: Words, wrapped: bool)

  /** One block per element, element i from counter + i, and the counter after all of them. */
  function Blocks(key: Words, counter: Words, count: nat): Option<Draw>
  {
    if count > MAX_BLOCKS then None
    else Some(Draw(seq(count, (i: nat) requires i < count => Encrypt(key, Advance(counter, OfNumber(i)))),
                   Advance(counter, OfNumber(count)), Wrapped(counter, OfNumber(count))))
  }

  /** All blocks of one draw are distinct, even across a wrap. */
  lemma DrawDistinct(key: Words, counter: Words, count: nat, i: nat, j: nat)
    requires count <= MAX_BLOCKS && i < j < count
    ensures Blocks(key, counter, count).value.blocks[i] != Blocks(key, counter, count).value.blocks[j]
  {
    hide Encrypt, Advance, Wrapped, Counter, Number, OfNumber;
    var c, d := Advance(counter, OfNumber(i)), Advance(counter, OfNumber(j));
    if Encrypt(key, c) == Encrypt(key, d) {
      EncryptInjective(key, c, d);
      AdvanceIs(counter, OfNumber(i));
      AdvanceIs(counter, OfNumber(j));
      CounterBound(counter);
      ModuloApart(Counter(counter), i, j);
    }
  }

  lemma CounterBound(w: Words)
    ensures Counter(w) < PERIOD
  {
    hide Number;
    Ranged(w.lo);
    Ranged(w.hi);
  }

  lemma ModuloApart(c: nat, i: nat, j: nat)
    requires c < PERIOD && i < j < MODULUS
    ensures (c + i) % PERIOD != (c + j) % PERIOD
  {
  }
}
