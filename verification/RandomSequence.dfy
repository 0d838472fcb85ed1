/** A proposed sequence of draws against shared counter state: chained reservations, and a commit that is all or nothing. */
module RandomSequence {
  import opened Options
  import opened BitWords
  import opened Threefry

  // ----- chained reservations -----

  predicate CountsOk(counts: seq<nat>)
  {
    forall k :: 0 <= k < |counts| ==> counts[k] <= MAX_BLOCKS
  }

  function Total(counts: seq<nat>): nat
  {
    if counts == [] then 0 else Total(counts[..|counts| - 1]) + counts[|counts| - 1]
  }

  /** The counter after reserving the blocks of each draw in turn. */
  function Chain(start: Words, counts: seq<nat>): Words
    requires CountsOk(counts)
  {
    if counts == [] then start
    else Advance(Chain(start, counts[..|counts| - 1]), OfNumber(counts[|counts| - 1]))
  }

  /** No reservation crossed the 64-bit boundary. */
  predicate NoWrap(start: Words, counts: seq<nat>)
    requires CountsOk(counts)
  {
    counts == [] ||
    (NoWrap(start, counts[..|counts| - 1]) && !Wrapped(Chain(start, counts[..|counts| - 1]), OfNumber(counts[|counts| - 1])))
  }

  lemma {:induction false} ChainCounts(start: Words, counts: seq<nat>)
    requires CountsOk(counts) && NoWrap(start, counts)
    ensures Counter(Chain(start, counts)) == Counter(start) + Total(counts)
    ensures Counter(start) + Total(counts) < PERIOD
  {
    hide Counter, Advance, Wrapped, Number, OfNumber;
    CounterBound(start);
    if counts != [] {
      var n := |counts| - 1;
      ChainCounts(start, counts[..n]);
      AdvanceIs(Chain(start, counts[..n]), OfNumber(counts[n]));
    }
  }

  lemma {:induction false} NoWrapPrefix(start: Words, counts: seq<nat>, k: nat)
    requires CountsOk(counts) && NoWrap(start, counts) && k <= |counts|
    ensures CountsOk(counts[..k]) && NoWrap(start, counts[..k])
    ensures k < |counts| ==> !Wrapped(Chain(start, counts[..k]), OfNumber(counts[k]))
    decreases |counts|
  {
    hide Wrapped, Advance, OfNumber;
    var n := |counts| - 1;
    if k < n {
      NoWrapPrefix(start, counts[..n], k);
      assert counts[..n][..k] == counts[..k];
    } else if k == |counts| {
      assert counts[..k] == counts;
    }
  }

  /** The counter of element i of draw k. */
  function ElementCounter(start: Words, counts: seq<nat>, k: nat, i: nat): Words
    requires CountsOk(counts) && k < |counts| && i < counts[k]
  {
    Advance(Chain(start, counts[..k]), OfNumber(i))
  }

  lemma ElementAt(start: Words, counts: seq<nat>, k: nat, i: nat)
    requires CountsOk(counts) && NoWrap(start, counts) && k < |counts| && i < counts[k]
    ensures Counter(ElementCounter(start, counts, k, i)) == Counter(start) + Total(counts[..k]) + i
  {
    hide Counter, Advance, Wrapped, Number, OfNumber;
    NoWrapPrefix(start, counts, k);
    ChainCounts(start, counts[..k]);
    AdvanceIs(Chain(start, counts[..k]), OfNumber(counts[k]));
    AdvanceIs(Chain(start, counts[..k]), OfNumber(i));
  }

  lemma {:induction false} TotalGrows(counts: seq<nat>, k: nat, l: nat)
    requires k < l <= |counts|
    ensures Total(counts[..k]) + counts[k] <= Total(counts[..l])
    decreases l
  {
    assert counts[..l][..l - 1] == counts[..l - 1];
    if k < l - 1 {
      TotalGrows(counts, k, l - 1);
    } else {
      assert counts[..k] == counts[..l - 1];
    }
  }

  /** Until the counter wraps, no two elements of any chained draws share a counter, so all their blocks differ. */
  lemma ReservationsDisjoint(key: Words, start: Words, counts: seq<nat>, k: nat, i: nat, l: nat, j: nat)
    requires CountsOk(counts) && NoWrap(start, counts)
    requires k < |counts| && i < counts[k] && l < |counts| && j < counts[l] && (k, i) != (l, j)
    ensures ElementCounter(start, counts, k, i) != ElementCounter(start, counts, l, j)
    ensures Encrypt(key, ElementCounter(start, counts, k, i)) != Encrypt(key, ElementCounter(start, counts, l, j))
  {
    hide Counter, Advance, Encrypt, NoWrap, Total, ElementCounter, OfNumber, Chain;
    ElementAt(start, counts, k, i);
    ElementAt(start, counts, l, j);
    if k < l {
      TotalGrows(counts, k, l);
    } else if l < k {
      TotalGrows(counts, l, k);
    }
    var c, d := ElementCounter(start, counts, k, i), ElementCounter(start, counts, l, j);
    if Encrypt(key, c) == Encrypt(key, d) {
      EncryptInjective(key, c, d);
    }
  }

  // ----- state and sequence -----

  /** Shared key and counter; every write to them makes a new version. */
  class State {
    var key: Words
    var counter: Words
    var version: nat

    constructor (key: Words, counter: Words)
      ensures this.key == key && this.counter == counter && version == 0
    {
      this.key, this.counter, version := key, counter, 0;
    }

    /** Replace the key and restart the counter when the condition is nonzero. Either way the state is written. */
    method ResetKeyIf(key: Words, condition: real)
      modifies this
      ensures this.key == if condition != 0.0 then key else old(this.key)
      ensures Counter(this.counter) == if condition != 0.0 then 0 else Counter(old(this.counter))
      ensures version == old(version) + 1
    {
      ZeroCounter();
      this.key := if condition != 0.0 then key else this.key;
      this.counter := if condition != 0.0 then Words(OfNumber(0), OfNumber(0)) else this.counter;
      version := version + 1;
    }
  }

  class Sequence {
    const state: State
    const key: Words
    const original: Words
    const version: nat
    var next: Words
    var available: real
    ghost var counts: seq<nat>

    /** The cursor is the chain of all reservations, and availability says that none of them wrapped. */
    ghost predicate Valid()
      reads this
    {
      && CountsOk(counts) && next == Chain(original, counts)
      && available == if NoWrap(original, counts) then 1.0 else 0.0
    }

    constructor (state: State)
      ensures Valid() && this.state == state && key == state.key && original == state.counter && version == state.version
      ensures counts == []
    {
      this.state, key, original, version := state, state.key, state.counter, state.version;
      next, available, counts := state.counter, 1.0, [];
    }

    /** Reserve one block per element. A draw too large to build leaves the cursor where it was. */
    method Reserve(count: nat) returns (blocks: Option<seq<Words>>)
      requires Valid()
      modifies this
      ensures Valid()
      ensures blocks.Some? <==> count <= MAX_BLOCKS
      ensures blocks.None? ==> counts == old(counts) && next == old(next) && available == old(available)
      ensures blocks.Some? ==>
        && counts == old(counts) + [count] && |blocks.value| == count
        && forall i: nat :: i < count ==> blocks.value[i] == Encrypt(key, ElementCounter(original, counts, |counts| - 1, i))
    {
      hide Encrypt, Advance, Wrapped, OfNumber;
      var draw := Blocks(key, next, count);
      if draw.None? {
        return None;
      }
      ghost var before := counts;
      available := available * (1.0 - if draw.value.wrapped then 1.0 else 0.0);
      next := draw.value.next;
      counts := counts + [count];
      assert counts[..|counts| - 1] == before;
      return Some(draw.value.blocks);
    }

    /** Commit every reservation or none. A state changed since the sequence began is rejected untouched; a wrap or a zero
        condition rejects the advance. */
    method CommitIf(condition: real) returns (accepted: Option<real>)
      requires Valid()
      modifies state
      ensures accepted.None? <==> old(state.version) != version
      ensures accepted.None? ==> state.counter == old(state.counter) && state.key == old(state.key) && state.version == old(state.version)
      ensures accepted.Some? ==> state.key == old(state.key) && state.version == old(state.version) + 1
      ensures accepted.Some? ==> accepted.value == if condition != 0.0 && NoWrap(original, counts) then 1.0 else 0.0
      ensures accepted.Some? && accepted.value == 0.0 ==> state.counter == old(state.counter)
      ensures accepted.Some? && accepted.value != 0.0 ==>
        Counter(state.counter) == Counter(original) + Total(counts) < PERIOD
    {
      if state.version != version {
        return None;
      }
      var mask := if condition != 0.0 then available else 0.0;
      if NoWrap(original, counts) {
        ChainCounts(original, counts);
      }
      state.counter := if mask != 0.0 then next else state.counter;
      state.version := state.version + 1;
      return Some(mask);
    }
  }

  lemma ZeroCounter()
    ensures Counter(Words(OfNumber(0), OfNumber(0))) == 0
  {
    Pow2Values();
  }

  /** A sequence begun before a reset is stale: committing it is refused and leaves what the reset wrote. */
  method ResetMakesStale(state: State, key: Words, reset: real, count: nat, condition: real) returns (accepted: Option<real>)
    modifies state
    ensures accepted.None?
    ensures state.key == if reset != 0.0 then key else old(state.key)
    ensures Counter(state.counter) == if reset != 0.0 then 0 else Counter(old(state.counter))
  {
    var sequence := new Sequence(state);
    var blocks := sequence.Reserve(count);
    state.ResetKeyIf(key, reset);
    accepted := sequence.CommitIf(condition);
  }

  /** One draw wraps exactly when its counters leave the period. */
  lemma SingleDraw(start: Words, count: nat)
    requires count <= MAX_BLOCKS
    ensures CountsOk([count]) && Total([count]) == count
    ensures NoWrap(start, [count]) <==> Counter(start) + count < PERIOD
    ensures NoWrap(start, [count]) ==> forall i: nat :: i < count ==> Counter(ElementCounter(start, [count], 0, i)) == Counter(start) + i
  {
    hide Counter, Advance, Wrapped, Number, OfNumber, ElementCounter;
    assert [count][..0] == [];
    Pow2Values();
    AdvanceIs(start, OfNumber(count));
    if NoWrap(start, [count]) {
      forall i: nat | i < count ensures Counter(ElementCounter(start, [count], 0, i)) == Counter(start) + i {
        ElementAt(start, [count], 0, i);
      }
    }
  }

  lemma ContinueApart(key: Words, start: Words, next: Words, first: nat, second: nat, i: nat, j: nat)
    requires first <= MAX_BLOCKS && second <= MAX_BLOCKS && i < first && j < second
    requires Counter(next) == Counter(start) + first && Counter(start) + first + second < PERIOD
    ensures CountsOk([first]) && CountsOk([second])
    ensures Encrypt(key, ElementCounter(start, [first], 0, i)) != Encrypt(key, ElementCounter(next, [second], 0, j))
  {
    hide Counter, Encrypt, NoWrap, ElementCounter;
    SingleDraw(start, first);
    SingleDraw(next, second);
    var c, d := ElementCounter(start, [first], 0, i), ElementCounter(next, [second], 0, j);
    if Encrypt(key, c) == Encrypt(key, d) {
      EncryptInjective(key, c, d);
    }
  }

  /** After a commit the next sequence continues where the last one stopped: across the two no block is drawn twice. */
  method CommitThenContinue(state: State, first: nat, second: nat) returns (a: Option<seq<Words>>, b: Option<seq<Words>>, accepted: real)
    requires first <= MAX_BLOCKS && second <= MAX_BLOCKS
    modifies state
    ensures a.Some? && b.Some? && |a.value| == first && |b.value| == second
    ensures accepted == if Counter(old(state.counter)) + first < PERIOD then 1.0 else 0.0
    ensures accepted == 1.0 && Counter(old(state.counter)) + first + second < PERIOD ==>
      forall i, j :: 0 <= i < first && 0 <= j < second ==> a.value[i] != b.value[j]
  {
    hide *;
    ghost var key, start := state.key, state.counter;
    SingleDraw(start, first);
    var one := new Sequence(state);
    a := one.Reserve(first);
    assert one.counts == [first];
    var answer := one.CommitIf(1.0);
    accepted := answer.value;
    ghost var next := state.counter;
    var two := new Sequence(state);
    b := two.Reserve(second);
    assert two.counts == [second];
    if accepted == 1.0 && Counter(start) + first + second < PERIOD {
      forall i, j | 0 <= i < first && 0 <= j < second ensures a.value[i] != b.value[j] {
        ContinueApart(key, start, next, first, second, i, j);
      }
    }
  }
}
