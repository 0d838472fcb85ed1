/** Attention in fixed-size chunks against a resident cache, and its agreement with full-history causal attention. */
module Chunked {
  import opened Options
  import opened Products
  import opened Sums
  import opened Shapes
  import opened Tensors
  import opened TensorOps
  import opened Program
  import opened Rules
  import opened Attention
  import opened Slabs
  import opened KvCaches

  // ----- causal attention over matrices -----

  function PastWeight(e: RawEnv, q: Tensor, k: Tensor, scale: real, t: int, j: int): real
  {
    e.fn(Exp, Score(q, k, scale, [t], j))
  }

  function PastMass(e: RawEnv, q: Tensor, k: Tensor, scale: real, t: int, n: nat): real
  {
    Sum(n, (j: nat) => PastWeight(e, q, k, scale, t, j))
  }

  function PastShare(e: RawEnv, q: Tensor, k: Tensor, v: Tensor, scale: real, t: int, n: nat, d: int, j: int): real
  {
    Times(Quot(PastWeight(e, q, k, scale, t, j), PastMass(e, q, k, scale, t, n)), At(v, [j, d]))
  }

  /** Row t of q attending to the first n rows of k and v. */
  function PastAttention(e: RawEnv, q: Tensor, k: Tensor, v: Tensor, scale: real, t: int, n: nat, d: int): real
  {
    Sum(n, (j: nat) => PastShare(e, q, k, v, scale, t, n, d, j))
  }

  /** Key positions visible to each query position, as a mask factor: 1 where key <= query, compared as signed I32. */
  function CausalMask(queries: seq<int>, keys: seq<int>): (f: Tensor)
    ensures f.shape == [|queries|, |keys|]
  {
    Build([|queries|, |keys|], (I: Index) =>
      if |I| == 2 && 0 <= I[0] < |queries| && 0 <= I[1] < |keys| then LeMask(keys[I[1]], queries[I[0]]) else 0.0)
  }

  /** I32 coordinates 0, ..., n - 1. */
  function Iota(n: nat): (r: seq<int>)
    ensures |r| == n && forall i :: 0 <= i < n ==> r[i] == i
  {
    seq(n, (i: nat) => i)
  }

  lemma WeightOpen(e: RawEnv, q: Tensor, k: Tensor, f: Tensor, scale: real, t: int, m: nat, j: nat)
    requires At(f, [t, j]) == if j < m then 1.0 else 0.0
    ensures Weight(e, q, k, f, scale, [t], j) == if j < m then PastWeight(e, q, k, scale, t, j) else 0.0
  {
    hide At, Size, Times, Score;
    assert [t] + [j] == [t, j];
    TimesUnit(e.fn(Exp, Score(q, k, scale, [t], j)));
  }

  lemma MassOpen(e: RawEnv, q: Tensor, k: Tensor, f: Tensor, scale: real, t: int, m: nat, n: nat)
    requires m <= n && forall j: nat :: j < n ==> At(f, [t, j]) == if j < m then 1.0 else 0.0
    ensures Mass(e, q, k, f, scale, [t], n) == PastMass(e, q, k, scale, t, m)
  {
    hide At, Size, Times, Score, Weight, PastWeight;
    var w, p := (j: nat) => Weight(e, q, k, f, scale, [t], j), (j: nat) => PastWeight(e, q, k, scale, t, j);
    forall j: nat | j < n ensures w(j) == if j < m then p(j) else 0.0 {
      WeightOpen(e, q, k, f, scale, t, m, j);
    }
    var tail := (j: nat) => w(m + j);
    SumSplit(m, n - m, w, tail);
    SumZero(n - m, tail);
    SumCong(m, w, p);
  }

  /** A mask that opens exactly the first m keys reduces attention to those keys. */
  lemma MaskedIsPast(e: RawEnv, q: Tensor, k: Tensor, v: Tensor, f: Tensor, scale: real, t: int, m: nat, n: nat, d: int)
    requires m <= n && forall j: nat :: j < n ==> At(f, [t, j]) == if j < m then 1.0 else 0.0
    ensures Attend(e, q, k, v, f, scale, [t], n, d) == PastAttention(e, q, k, v, scale, t, m, d)
  {
    hide At, Size, Times, Weight, PastWeight, Mass, PastMass;
    MassOpen(e, q, k, f, scale, t, m, n);
    var s, r := (j: nat) => Share(e, q, k, v, f, scale, [t], n, d, j), (j: nat) => PastShare(e, q, k, v, scale, t, m, d, j);
    forall j: nat | j < n ensures s(j) == if j < m then r(j) else 0.0 {
      WeightOpen(e, q, k, f, scale, t, m, j);
      assert Key([t], j, d) == [j, d];
      TimesZero(At(v, [j, d]));
      QuotZero(Mass(e, q, k, f, scale, [t], n));
    }
    var tail := (j: nat) => s(m + j);
    SumSplit(m, n - m, s, tail);
    SumZero(n - m, tail);
    SumCong(m, s, r);
  }

  lemma TimesUnit(a: real)
    ensures Times(1.0, a) == a && Times(0.0, a) == 0.0
  {
  }

  lemma QuotZero(b: real)
    ensures Quot(0.0, b) == 0.0
  {
  }

  lemma MatrixOk(rows: nat, keys: nat, width: nat)
    ensures MaskedOk([rows, width], [keys, width], [keys, width], [rows, keys])
    ensures [rows, width][..1] + [width] == [rows, width]
  {
    assert [rows, width][..0] == [] && [keys, width][..0] == [];
    assert [rows, width][..1] == [rows];
  }

  /** Full-history causal attention. */
  function FullCausal(e: RawEnv, q: Tensor, k: Tensor, v: Tensor, scale: real, rows: nat, width: nat): (r: Tensor)
    requires q.shape == k.shape == v.shape == [rows, width]
    ensures r.shape == [rows, width]
  {
    hide Size, MaskedAttention, CausalMask;
    MatrixOk(rows, rows, width);
    MaskedAttention(e, q, k, v, CausalMask(Iota(rows), Iota(rows)), scale)
  }

  lemma FullCausalAt(e: RawEnv, q: Tensor, k: Tensor, v: Tensor, scale: real, rows: nat, width: nat, t: nat, d: nat)
    requires q.shape == k.shape == v.shape == [rows, width] && t < rows && d < width
    ensures At(FullCausal(e, q, k, v, scale, rows, width), [t, d]) == PastAttention(e, q, k, v, scale, t, t + 1, d)
  {
    hide At, Size, Times, MaskedAttention, Attend, PastAttention;
    var f := CausalMask(Iota(rows), Iota(rows));
    assert [t] + [d] == [t, d];
    AttentionAt(e, q, k, v, f, scale, [t], d);
    forall j: nat | j < rows ensures At(f, [t, j]) == if j < t + 1 then 1.0 else 0.0 {
      assert Valid([rows, rows], [t, j]);
    }
    MaskedIsPast(e, q, k, v, f, scale, t, t + 1, rows, d);
  }

  /** Attention over the past depends only on the query row and the first n key and value rows. */
  lemma PastCong(e: RawEnv, q: Tensor, k: Tensor, v: Tensor, t: int, q': Tensor, k': Tensor, v': Tensor, t': int, scale: real, n: nat, width: nat, d: nat)
    requires |q.shape| == 2 == |q'.shape| && q.shape[1] == q'.shape[1] == width && d < width
    requires forall x: nat :: x < width ==> At(q, [t, x]) == At(q', [t', x])
    requires forall j: nat, x: nat :: j < n && x < width ==> At(k, [j, x]) == At(k', [j, x]) && At(v, [j, x]) == At(v', [j, x])
    ensures PastAttention(e, q, k, v, scale, t, n, d) == PastAttention(e, q', k', v', scale, t', n, d)
  {
    hide At, Size, Times;
    forall j: nat | j < n ensures PastWeight(e, q, k, scale, t, j) == PastWeight(e, q', k', scale, t', j) {
      forall x: nat | x < width ensures ProductAt(q, k, [t], j, x) == ProductAt(q', k', [t'], j, x) {
        assert [t] + [x] == [t, x] && [t'] + [x] == [t', x];
        assert Key([t], j, x) == [j, x] == Key([t'], j, x);
      }
      SumCong(width, (x: nat) => ProductAt(q, k, [t], j, x), (x: nat) => ProductAt(q', k', [t'], j, x));
    }
    SumCong(n, (j: nat) => PastWeight(e, q, k, scale, t, j), (j: nat) => PastWeight(e, q', k', scale, t', j));
    SumCong(n, (j: nat) => PastShare(e, q, k, v, scale, t, n, d, j), (j: nat) => PastShare(e, q', k', v', scale, t', n, d, j));
  }

  // ----- rows of successive chunks -----

  predicate Matrix(t: Tensor, rows: nat, width: nat)
  {
    t.shape == [rows, width]
  }

  function Below(a: Tensor, b: Tensor, rows: nat, more: nat, width: nat): (r: Tensor)
    requires Matrix(a, rows, width) && Matrix(b, more, width)
    ensures Matrix(r, rows + more, width)
  {
    hide Size, Join;
    assert Joinable(a, b, 0) && a.shape[0 := rows + more] == [rows + more, width];
    Join(a, b, 0)
  }

  lemma BelowAt(a: Tensor, b: Tensor, rows: nat, more: nat, width: nat, t: nat, x: nat)
    requires Matrix(a, rows, width) && Matrix(b, more, width) && t < rows + more && x < width
    ensures At(Below(a, b, rows, more, width), [t, x]) == if t < rows then At(a, [t, x]) else At(b, [t - rows, x])
  {
    hide Size, At, Join;
    assert Joinable(a, b, 0);
    assert Without(a.shape, 0) == [width];
    assert Valid([width], [x]);
    JoinAt(a, b, 0, [x], t);
    assert Insert([x], 0, t) == [t, x] && Insert([x], 0, t - rows) == [t - rows, x];
  }

  predicate Chunks(ts: seq<Tensor>, chunk: nat, width: nat)
  {
    forall n :: 0 <= n < |ts| ==> Matrix(ts[n], chunk, width)
  }

  /** The rows of the first n chunks. */
  function Rows(ts: seq<Tensor>, n: nat, chunk: nat, width: nat): (r: Tensor)
    requires Chunks(ts, chunk, width) && n <= |ts|
    ensures Matrix(r, Scale(n, chunk), width)
  {
    hide Scale, Size, Below;
    if n == 0 then ScaleUnit(chunk); Fill([0, width], 0.0)
    else ScaleStep(n - 1, chunk); Below(Rows(ts, n - 1, chunk, width), ts[n - 1], Scale(n - 1, chunk), chunk, width)
  }

  lemma {:induction false} ScaleMono(a: nat, b: nat, c: nat)
    requires a <= b
    ensures Scale(a, c) <= Scale(b, c)
    decreases b
  {
    hide Scale;
    if a < b {
      ScaleMono(a, b - 1, c);
      ScaleStep(b - 1, c);
    }
  }

  /** Later chunks leave earlier rows alone. */
  lemma {:induction false} RowsPrefix(ts: seq<Tensor>, m: nat, n: nat, chunk: nat, width: nat, t: nat, x: nat)
    requires Chunks(ts, chunk, width) && m <= n <= |ts| && t < Scale(m, chunk) && x < width
    ensures At(Rows(ts, n, chunk, width), [t, x]) == At(Rows(ts, m, chunk, width), [t, x])
  {
    hide Scale, Size, At, Below;
    if m < n {
      RowsPrefix(ts, m, n - 1, chunk, width, t, x);
      ScaleStep(n - 1, chunk);
      ScaleMono(m, n - 1, chunk);
      BelowAt(Rows(ts, n - 1, chunk, width), ts[n - 1], Scale(n - 1, chunk), chunk, width, t, x);
    }
  }

  // ----- the resident session -----

  /** What graph construction demands of the extents. */
  predicate ProgramOk(chunk: nat, capacity: nat, width: nat)
  {
    && chunk <= capacity && 0 < capacity <= I32_MAX + 1 && chunk <= I32_MAX && width > 0
  }

  /** Row positions of a chunk, in wrapping I32 arithmetic. */
  function Positions(position: int, chunk: nat): (r: seq<int>)
    ensures |r| == chunk && forall i :: 0 <= i < chunk ==> r[i] == Wrap(i + position)
  {
    seq(chunk, (i: nat) => Wrap(i + position))
  }

  /** The cache agrees with the accepted rows. */
  ghost predicate Holds(cache: Tensor, past: Tensor, rows: nat, width: nat)
  {
    forall t: nat, x: nat :: t < rows && x < width ==> At(cache, [t, x]) == At(past, [t, x])
  }

  lemma PairValid(m: nat, n: nat, a: int, b: int)
    ensures Valid([m, n], [a, b]) <==> 0 <= a < m && 0 <= b < n
  {
    var s: Shape, I: Index := [m, n], [a, b];
    assert s[0] == m && s[1] == n && I[0] == a && I[1] == b;
  }

  lemma UpdateHolds(cache: Tensor, past: Tensor, u: Tensor, rows: nat, chunk: nat, capacity: nat, width: nat)
    requires Matrix(cache, capacity, width) && Matrix(past, rows, width) && Matrix(u, chunk, width)
    requires rows + chunk <= capacity && Holds(cache, past, rows, width)
    ensures Holds(TensorOps.DynamicUpdateSlice(cache, u, [rows, 0]), Below(past, u, rows, chunk, width), rows + chunk, width)
  {
    hide Size, At, Below, TensorOps.DynamicUpdateSlice;
    var starts := [rows, 0];
    forall t: nat, x: nat | t < rows + chunk && x < width
      ensures At(TensorOps.DynamicUpdateSlice(cache, u, starts), [t, x]) == At(Below(past, u, rows, chunk, width), [t, x])
    {
      assert Valid(cache.shape, [t, x]);
      UpdateLands(cache, u, starts, [t, x]);
      assert ShiftIx([t, x], starts) == [t - rows, x];
      PairValid(chunk, width, t - rows, x);
      assert t < rows ==> At(cache, [t, x]) == At(past, [t, x]);
      BelowAt(past, u, rows, chunk, width, t, x);
    }
  }

  lemma HoldsAt(a: Tensor, b: Tensor, c: Tensor, d: Tensor, rows: nat, width: nat, n: nat)
    requires Holds(a, b, rows, width) && Holds(c, d, rows, width) && n <= rows
    ensures forall j: nat, x: nat :: j < n && x < width ==> At(a, [j, x]) == At(b, [j, x]) && At(c, [j, x]) == At(d, [j, x])
  {
    hide At;
  }

  /** No query position of an accepted chunk wraps, so row i sees exactly the keys up to its own position. */
  lemma ChunkMask(rows: nat, chunk: nat, capacity: nat, i: nat, j: nat)
    requires rows + chunk <= capacity <= I32_MAX + 1 && i < chunk && j < capacity
    ensures At(CausalMask(Positions(rows, chunk), Iota(capacity)), [i, j]) == if j < rows + i + 1 then 1.0 else 0.0
  {
    hide Size, At;
    PairValid(chunk, capacity, i, j);
    assert Positions(rows, chunk)[i] == Wrap(i + rows) == i + rows;
  }

  /** With the chunk written into the cache, the masked attention over the whole cache is attention over the past rows. */
  lemma ChunkRow(e: RawEnv, q: Tensor, keys: Tensor, values: Tensor, pastQ: Tensor, pastK: Tensor, pastV: Tensor, scale: real,
      rows: nat, chunk: nat, capacity: nat, width: nat, i: nat, d: nat)
    requires ProgramOk(chunk, capacity, width) && rows + chunk <= capacity && i < chunk && d < width
    requires Matrix(q, chunk, width) && Matrix(keys, capacity, width) && Matrix(values, capacity, width)
    requires Matrix(pastQ, rows, width) && Matrix(pastK, rows + chunk, width) && Matrix(pastV, rows + chunk, width)
    requires Holds(keys, pastK, rows + chunk, width) && Holds(values, pastV, rows + chunk, width)
    ensures MaskedOk([chunk, width], [capacity, width], [capacity, width], [chunk, capacity])
    ensures At(MaskedAttention(e, q, keys, values, CausalMask(Positions(rows, chunk), Iota(capacity)), scale), [i, d])
         == PastAttention(e, Below(pastQ, q, rows, chunk, width), pastK, pastV, scale, rows + i, rows + i + 1, d)
  {
    hide At, Size, Times, MaskedAttention, Attend, PastAttention, Below, CausalMask, Positions, Iota, Holds, MaskedOk;
    MatrixOk(chunk, capacity, width);
    var f := CausalMask(Positions(rows, chunk), Iota(capacity));
    assert [i] + [d] == [i, d];
    AttentionAt(e, q, keys, values, f, scale, [i], d);
    forall j: nat | j < capacity ensures At(f, [i, j]) == if j < rows + i + 1 then 1.0 else 0.0 {
      ChunkMask(rows, chunk, capacity, i, j);
    }
    MaskedIsPast(e, q, keys, values, f, scale, i, rows + i + 1, capacity, d);
    var all := Below(pastQ, q, rows, chunk, width);
    forall x: nat | x < width ensures At(q, [i, x]) == At(all, [rows + i, x]) {
      BelowAt(pastQ, q, rows, chunk, width, rows + i, x);
    }
    HoldsAt(keys, pastK, values, pastV, rows + chunk, width, rows + i + 1);
    PastCong(e, q, keys, values, i, all, pastK, pastV, rows + i, scale, rows + i + 1, width, d);
  }

  lemma ChunkRows(e: RawEnv, q: Tensor, keys: Tensor, values: Tensor, oldQ: Tensor, pastQ: Tensor, pastK: Tensor, pastV: Tensor,
      scale: real, rows: nat, chunk: nat, capacity: nat, width: nat, output: Tensor)
    requires ProgramOk(chunk, capacity, width) && rows + chunk <= capacity
    requires Matrix(q, chunk, width) && Matrix(keys, capacity, width) && Matrix(values, capacity, width)
    requires Matrix(oldQ, rows, width) && Matrix(pastK, rows + chunk, width) && Matrix(pastV, rows + chunk, width)
    requires Holds(keys, pastK, rows + chunk, width) && Holds(values, pastV, rows + chunk, width)
    requires pastQ == Below(oldQ, q, rows, chunk, width)
    requires MaskedOk([chunk, width], [capacity, width], [capacity, width], [chunk, capacity])
    requires output == MaskedAttention(e, q, keys, values, CausalMask(Positions(rows, chunk), Iota(capacity)), scale)
    ensures forall i: nat, d: nat :: i < chunk && d < width ==>
      At(output, [i, d]) == PastAttention(e, pastQ, pastK, pastV, scale, rows + i, rows + i + 1, d)
  {
    hide *;
    forall i: nat, d: nat | i < chunk && d < width
      ensures At(output, [i, d]) == PastAttention(e, pastQ, pastK, pastV, scale, rows + i, rows + i + 1, d)
    {
      ChunkRow(e, q, keys, values, oldQ, pastK, pastV, scale, rows, chunk, capacity, width, i, d);
    }
  }

  class Session {
    const chunk: nat
    const capacity: nat
    const width: nat
    const scale: real
    const cache: KvCache
    var position: int
    ghost var taken: nat
    ghost var pastQ: Tensor
    ghost var pastK: Tensor
    ghost var pastV: Tensor

    /** The cache holds the accepted rows and the position counts them. */
    ghost predicate Valid()
      reads this, cache
    {
      var rows := Scale(taken, chunk);
      && ProgramOk(chunk, capacity, width) && rows <= capacity && position == Wrap(rows)
      && Matrix(cache.keys, capacity, width) && Matrix(cache.values, capacity, width)
      && Matrix(pastQ, rows, width) && Matrix(pastK, rows, width) && Matrix(pastV, rows, width)
      && Holds(cache.keys, pastK, rows, width) && Holds(cache.values, pastV, rows, width)
    }

    constructor (chunk: nat, capacity: nat, width: nat, scale: real)
      requires ProgramOk(chunk, capacity, width)
      ensures Valid() && fresh(cache) && taken == 0
      ensures this.chunk == chunk && this.capacity == capacity && this.width == width && this.scale == scale
      ensures pastQ == pastK == pastV == Fill([0, width], 0.0)
    {
      hide Size;
      this.chunk, this.capacity, this.width, this.scale := chunk, capacity, width, scale;
      cache := new KvCache(Fill([capacity, width], 0.0), Fill([capacity, width], 0.0));
      position, taken := 0, 0;
      pastQ, pastK, pastV := Fill([0, width], 0.0), Fill([0, width], 0.0), Fill([0, width], 0.0);
    }

    /** One call. A chunk that still fits is appended and its rows attend causally over everything accepted so far;
        any later chunk is answered with zeros and changes nothing. */
    method Run(e: RawEnv, q: Tensor, k: Tensor, v: Tensor) returns (output: Tensor, accepted: bool)
      requires Valid() && Matrix(q, chunk, width) && Matrix(k, chunk, width) && Matrix(v, chunk, width)
      modifies this, cache
      ensures Valid() && Matrix(output, chunk, width)
      ensures accepted <==> Scale(old(taken), chunk) + chunk <= capacity
      ensures !accepted ==>
        && output == Fill([chunk, width], 0.0)
        && cache.keys == old(cache.keys) && cache.values == old(cache.values) && position == old(position)
        && taken == old(taken) && pastQ == old(pastQ) && pastK == old(pastK) && pastV == old(pastV)
      ensures accepted ==>
        var rows := Scale(old(taken), chunk);
        && taken == old(taken) + 1
        && pastQ == Below(old(pastQ), q, rows, chunk, width)
        && pastK == Below(old(pastK), k, rows, chunk, width)
        && pastV == Below(old(pastV), v, rows, chunk, width)
        && (forall i: nat, d: nat :: i < chunk && d < width ==>
          At(output, [i, d]) == PastAttention(e, pastQ, pastK, pastV, scale, rows + i, rows + i + 1, d))
    {
      hide At, Size, Scale, MaskedAttention, PastAttention, CausalMask, Positions, Iota, Below, Holds,
        TensorOps.DynamicUpdateSlice, Fill, Choose;
      ghost var rows := Scale(taken, chunk);
      ghost var fits := rows + chunk <= capacity;
      ScaleStep(taken, chunk);
      FullPosition(taken, chunk, capacity);
      var start := position;
      var update := cache.UpdateAtChecked(k, v, [start, 0]);
      var mask := update.value;
      position := if mask != 0.0 then Wrap(start + chunk) else start;
      MatrixOk(chunk, capacity, width);
      var attention := MaskedAttention(e, q, cache.keys, cache.values, CausalMask(Positions(start, chunk), Iota(capacity)), scale);
      ChooseConstant(mask, attention, Fill([chunk, width], 0.0));
      output := Choose(Fill([chunk, width], mask), attention, Fill([chunk, width], 0.0));
      accepted := mask != 0.0;
      if accepted {
        UpdateHolds(old(cache.keys), pastK, k, rows, chunk, capacity, width);
        UpdateHolds(old(cache.values), pastV, v, rows, chunk, capacity, width);
        ghost var oldQ := pastQ;
        pastQ, pastK, pastV := Below(pastQ, q, rows, chunk, width), Below(pastK, k, rows, chunk, width), Below(pastV, v, rows, chunk, width);
        taken := taken + 1;
        ChunkRows(e, q, cache.keys, cache.values, oldQ, pastQ, pastK, pastV, scale, rows, chunk, capacity, width, output);
      }
    }
  }

  /** A position register that has wrapped belongs to a full cache, where nothing fits any more. */
  lemma FullPosition(taken: nat, chunk: nat, capacity: nat)
    requires capacity <= I32_MAX + 1 && Scale(taken, chunk) <= capacity
    ensures var rows := Scale(taken, chunk);
      rows <= I32_MAX || (rows == capacity && chunk > 0 && Wrap(rows) < 0)
  {
    if chunk == 0 {
      ScaleComm(taken, 0);
      ScaleUnit(taken);
    }
  }

  // ----- whole runs -----

  /** Row t attends to the same rows, whether or not later chunks are known. */
  lemma PastPrefix(e: RawEnv, qs: seq<Tensor>, ks: seq<Tensor>, vs: seq<Tensor>, m: nat, chunk: nat, width: nat, scale: real, t: nat, d: nat)
    requires Chunks(qs, chunk, width) && Chunks(ks, chunk, width) && Chunks(vs, chunk, width)
    requires m <= |qs| == |ks| == |vs| && t < Scale(m, chunk) && d < width
    ensures PastAttention(e, Rows(qs, m, chunk, width), Rows(ks, m, chunk, width), Rows(vs, m, chunk, width), scale, t, t + 1, d)
         == PastAttention(e, Rows(qs, |qs|, chunk, width), Rows(ks, |qs|, chunk, width), Rows(vs, |qs|, chunk, width), scale, t, t + 1, d)
  {
    hide At, Size, Scale, Rows, PastAttention;
    var n := |qs|;
    forall j: nat, x: nat | j < t + 1 && x < width
      ensures At(Rows(ks, n, chunk, width), [j, x]) == At(Rows(ks, m, chunk, width), [j, x])
      ensures At(Rows(vs, n, chunk, width), [j, x]) == At(Rows(vs, m, chunk, width), [j, x])
    {
      RowsPrefix(ks, m, n, chunk, width, j, x);
      RowsPrefix(vs, m, n, chunk, width, j, x);
    }
    forall x: nat | x < width ensures At(Rows(qs, n, chunk, width), [t, x]) == At(Rows(qs, m, chunk, width), [t, x]) {
      RowsPrefix(qs, m, n, chunk, width, t, x);
    }
    PastCong(e, Rows(qs, m, chunk, width), Rows(ks, m, chunk, width), Rows(vs, m, chunk, width), t,
             Rows(qs, n, chunk, width), Rows(ks, n, chunk, width), Rows(vs, n, chunk, width), t, scale, t + 1, width, d);
  }

  /** What call n must return: causal attention of its rows over the whole history, or zeros once the cache is full. */
  ghost predicate Answers(e: RawEnv, qs: seq<Tensor>, ks: seq<Tensor>, vs: seq<Tensor>, chunk: nat, capacity: nat, width: nat,
      scale: real, n: nat, output: Tensor, accepted: bool)
    requires Chunks(qs, chunk, width) && Chunks(ks, chunk, width) && Chunks(vs, chunk, width) && n < |qs| == |ks| == |vs|
  {
    var rows := Scale(|qs|, chunk);
    && Matrix(output, chunk, width)
    && (accepted <==> Scale(n + 1, chunk) <= capacity)
    && (!accepted ==> output == Fill([chunk, width], 0.0))
    && (accepted ==> forall i: nat, d: nat :: i < chunk && d < width ==>
      At(output, [i, d]) == At(FullCausal(e, Rows(qs, |qs|, chunk, width), Rows(ks, |qs|, chunk, width), Rows(vs, |qs|, chunk, width),
                                          scale, rows, width), [Scale(n, chunk) + i, d]))
  }

  lemma AcceptedAnswers(e: RawEnv, qs: seq<Tensor>, ks: seq<Tensor>, vs: seq<Tensor>, chunk: nat, capacity: nat, width: nat,
      scale: real, n: nat, output: Tensor)
    requires Chunks(qs, chunk, width) && Chunks(ks, chunk, width) && Chunks(vs, chunk, width) && n < |qs| == |ks| == |vs|
    requires Matrix(output, chunk, width) && Scale(n + 1, chunk) <= capacity
    requires forall i: nat, d: nat :: i < chunk && d < width ==>
      At(output, [i, d]) == PastAttention(e, Rows(qs, n + 1, chunk, width), Rows(ks, n + 1, chunk, width), Rows(vs, n + 1, chunk, width),
                                          scale, Scale(n, chunk) + i, Scale(n, chunk) + i + 1, d)
    ensures Answers(e, qs, ks, vs, chunk, capacity, width, scale, n, output, true)
  {
    hide At, Size, Scale, Rows, PastAttention, FullCausal;
    ScaleStep(n, chunk);
    ScaleMono(n + 1, |qs|, chunk);
    forall i: nat, d: nat | i < chunk && d < width
      ensures At(output, [i, d]) == At(FullCausal(e, Rows(qs, |qs|, chunk, width), Rows(ks, |qs|, chunk, width),
                                       Rows(vs, |qs|, chunk, width), scale, Scale(|qs|, chunk), width), [Scale(n, chunk) + i, d])
    {
      PastPrefix(e, qs, ks, vs, n + 1, chunk, width, scale, Scale(n, chunk) + i, d);
      FullCausalAt(e, Rows(qs, |qs|, chunk, width), Rows(ks, |qs|, chunk, width), Rows(vs, |qs|, chunk, width), scale,
                   Scale(|qs|, chunk), width, Scale(n, chunk) + i, d);
    }
  }

  lemma RowsEnds(qs: seq<Tensor>, ks: seq<Tensor>, vs: seq<Tensor>, n: nat, chunk: nat, width: nat)
    requires Chunks(qs, chunk, width) && Chunks(ks, chunk, width) && Chunks(vs, chunk, width) && n <= |qs| == |ks| == |vs|
    ensures Rows(qs, 0, chunk, width) == Rows(ks, 0, chunk, width) == Rows(vs, 0, chunk, width) == Fill([0, width], 0.0)
    ensures n < |qs| ==>
      && Rows(qs, n + 1, chunk, width) == Below(Rows(qs, n, chunk, width), qs[n], Scale(n, chunk), chunk, width)
      && Rows(ks, n + 1, chunk, width) == Below(Rows(ks, n, chunk, width), ks[n], Scale(n, chunk), chunk, width)
      && Rows(vs, n + 1, chunk, width) == Below(Rows(vs, n, chunk, width), vs[n], Scale(n, chunk), chunk, width)
  {
    hide Size, Scale, Below;
  }

  /** Any number of calls: call n is accepted exactly when (n + 1) chunk <= capacity, and every accepted row equals
      full-history causal attention. */
  method Serve(e: RawEnv, qs: seq<Tensor>, ks: seq<Tensor>, vs: seq<Tensor>, chunk: nat, capacity: nat, width: nat, scale: real)
    returns (outputs: seq<Tensor>, accepted: seq<bool>)
    requires ProgramOk(chunk, capacity, width) && |qs| == |ks| == |vs|
    requires Chunks(qs, chunk, width) && Chunks(ks, chunk, width) && Chunks(vs, chunk, width)
    ensures |outputs| == |accepted| == |qs|
    ensures forall n :: 0 <= n < |qs| ==> Answers(e, qs, ks, vs, chunk, capacity, width, scale, n, outputs[n], accepted[n])
  {
    hide At, Size, Scale, Below, PastAttention, Answers, Fill, Rows, Holds, ProgramOk;
    RowsEnds(qs, ks, vs, 0, chunk, width);
    var session := new Session(chunk, capacity, width, scale);
    outputs, accepted := [], [];
    var n := 0;
    while n < |qs|
      invariant 0 <= n <= |qs| && |outputs| == |accepted| == n
      invariant session.Valid() && fresh(session) && fresh(session.cache)
      invariant session.chunk == chunk && session.capacity == capacity && session.width == width && session.scale == scale
      invariant session.taken <= n && (session.taken < n ==> Scale(session.taken + 1, chunk) > capacity)
      invariant session.pastQ == Rows(qs, session.taken, chunk, width)
      invariant session.pastK == Rows(ks, session.taken, chunk, width)
      invariant session.pastV == Rows(vs, session.taken, chunk, width)
      invariant forall m :: 0 <= m < n ==> Answers(e, qs, ks, vs, chunk, capacity, width, scale, m, outputs[m], accepted[m])
    {
      ghost var taken := session.taken;
      var output, ok := session.Run(e, qs[n], ks[n], vs[n]);
      ScaleStep(taken, chunk);
      ScaleMono(taken + 1, n + 1, chunk);
      RowsEnds(qs, ks, vs, taken, chunk, width);
      if ok {
        AcceptedAnswers(e, qs, ks, vs, chunk, capacity, width, scale, n, output);
      } else {
        RejectedAnswers(e, qs, ks, vs, chunk, capacity, width, scale, n, output);
      }
      outputs, accepted := outputs + [output], accepted + [ok];
      n := n + 1;
    }
  }

  lemma RejectedAnswers(e: RawEnv, qs: seq<Tensor>, ks: seq<Tensor>, vs: seq<Tensor>, chunk: nat, capacity: nat, width: nat,
      scale: real, n: nat, output: Tensor)
    requires Chunks(qs, chunk, width) && Chunks(ks, chunk, width) && Chunks(vs, chunk, width) && n < |qs| == |ks| == |vs|
    requires output == Fill([chunk, width], 0.0) && Scale(n + 1, chunk) > capacity
    ensures Answers(e, qs, ks, vs, chunk, capacity, width, scale, n, output, false)
  {
    hide At, Size, Scale, Rows, FullCausal;
  }
}
