/** Two-operand einsum by labels: lowering to diagonals, reductions and one contraction, and what each step reads. */
module Einsum {
  import opened Lists
  import opened Options
  import opened Products
  import opened Sums
  import opened Shapes
  import opened IndexSums
  import opened Tensors
  import opened TensorOps
  import opened Adjoints
  import opened Diagonals
  import opened Contractions
  import opened Labels

  // ----- merging a repeated label -----

  /** Labels after the diagonal of axes a and b has been appended as the last axis. */
  function Merged(ls: Labels, a: nat, b: nat): Labels
    requires a < b < |ls|
  {
    ls[..a] + ls[a + 1..b] + ls[b + 1..] + [ls[a]]
  }

  lemma PermutedNone<T>(xs: seq<T>)
    ensures Permuted(xs, []) == []
  {
  }

  lemma PermutedSnoc<T>(xs: seq<T>, p: seq<nat>, k: nat)
    requires InRange(|xs|, p) && k < |xs|
    ensures InRange(|xs|, p + [k]) && Permuted(xs, p + [k]) == Permuted(xs, p) + [xs[k]]
  {
  }

  lemma {:induction false} OthersLow<T>(xs: seq<T>, n: nat, a: nat, b: nat)
    requires n <= a < b < |xs|
    ensures Permuted(xs, Others(n, a, b)) == xs[..n]
  {
    hide Permuted;
    if n == 0 {
      PermutedNone(xs);
    } else {
      OthersLow(xs, n - 1, a, b);
      PermutedSnoc(xs, Others(n - 1, a, b), n - 1);
      assert xs[..n] == xs[..n - 1] + [xs[n - 1]];
    }
  }

  lemma {:induction false} OthersMiddle<T>(xs: seq<T>, n: nat, a: nat, b: nat)
    requires a < n <= b < |xs|
    ensures Permuted(xs, Others(n, a, b)) == xs[..a] + xs[a + 1..n]
  {
    hide Permuted;
    if n == a + 1 {
      OthersLow(xs, a, a, b);
      assert xs[..a] + xs[a + 1..n] == xs[..a];
    } else {
      OthersMiddle(xs, n - 1, a, b);
      PermutedSnoc(xs, Others(n - 1, a, b), n - 1);
      assert xs[..a] + xs[a + 1..n] == xs[..a] + xs[a + 1..n - 1] + [xs[n - 1]];
    }
  }

  /** The other axes are what is left after removing the two. */
  lemma {:induction false} OthersSlices<T>(xs: seq<T>, n: nat, a: nat, b: nat)
    requires a < b < n <= |xs|
    ensures Permuted(xs, Others(n, a, b)) == xs[..a] + xs[a + 1..b] + xs[b + 1..n]
  {
    hide Permuted;
    if n == b + 1 {
      OthersMiddle(xs, b, a, b);
      assert xs[..a] + xs[a + 1..b] + xs[b + 1..n] == xs[..a] + xs[a + 1..b];
    } else {
      OthersSlices(xs, n - 1, a, b);
      PermutedSnoc(xs, Others(n - 1, a, b), n - 1);
      assert xs[..a] + xs[a + 1..b] + xs[b + 1..n] == xs[..a] + xs[a + 1..b] + xs[b + 1..n - 1] + [xs[n - 1]];
    }
  }

  /** Every label is inside its extent. */
  predicate Inside(ls: Labels, ext: Extents, w: Assignment)
  {
    forall i :: 0 <= i < |ls| ==> ls[i] in ext && 0 <= Get(w, ls[i]) < ext[ls[i]]
  }

  lemma InsideValid(t: Tensor, ls: Labels, ext: Extents, w: Assignment)
    requires Labelled(t, ls, ext)
    ensures Valid(t.shape, Coords(ls, w)) <==> Inside(ls, ext, w)
  {
    hide Size;
    if Inside(ls, ext, w) {
      forall i: nat | i < |ls| ensures 0 <= Coords(ls, w)[i] < t.shape[i] {
        assert ls[i] in ext;
      }
    }
    if Valid(t.shape, Coords(ls, w)) {
      forall i: nat | i < |ls| ensures ls[i] in ext && 0 <= Get(w, ls[i]) < ext[ls[i]] {
        assert 0 <= Coords(ls, w)[i] < t.shape[i];
      }
    }
  }

  lemma MergedLabels(ls: Labels, a: nat, b: nat, ext: Extents, w: Assignment)
    requires a < b < |ls| && ls[a] == ls[b]
    ensures forall c :: c in Merged(ls, a, b) <==> c in ls
    ensures Inside(Merged(ls, a, b), ext, w) <==> Inside(ls, ext, w)
  {
    var m := Merged(ls, a, b);
    forall i: nat | i < |ls| ensures ls[i] in m {
      if i < a {
        assert m[i] == ls[i];
      } else if i == a || i == b {
        assert m[|m| - 1] == ls[a];
      } else if i < b {
        assert m[i - 1] == ls[i];
      } else {
        assert m[i - 2] == ls[i];
      }
    }
    InsideSame(m, ls, ext, w);
  }

  lemma InsideSame(u: Labels, v: Labels, ext: Extents, w: Assignment)
    requires forall c :: c in u <==> c in v
    ensures Inside(u, ext, w) <==> Inside(v, ext, w)
  {
    if Inside(v, ext, w) {
      forall i: nat | i < |u| ensures u[i] in ext && 0 <= Get(w, u[i]) < ext[u[i]] {
        assert u[i] in v;
        var j :| 0 <= j < |v| && v[j] == u[i];
      }
    }
    if Inside(u, ext, w) {
      forall i: nat | i < |v| ensures v[i] in ext && 0 <= Get(w, v[i]) < ext[v[i]] {
        assert v[i] in u;
        var j :| 0 <= j < |u| && u[j] == v[i];
      }
    }
  }

  lemma MergedLabelled(t: Tensor, ls: Labels, ext: Extents, a: nat, b: nat)
    requires Labelled(t, ls, ext) && a < b < |ls| && ls[a] == ls[b]
    ensures DiagonalOk(t.shape, a, b) && Labelled(Diagonal(t, 0, a, b), Merged(ls, a, b), ext)
    ensures DiagOf(t.shape[a], t.shape[b], 0) == Diag(0, 0, t.shape[a])
  {
    hide Size, Diagonal;
    OthersSlices(t.shape, |t.shape|, a, b);
    var m, d := Merged(ls, a, b), Diagonal(t, 0, a, b);
    assert Sizes(m, ext) == t.shape[..a] + t.shape[a + 1..b] + t.shape[b + 1..] + [t.shape[a]];
    forall i: nat | i < |m| ensures m[i] in ext {
      if i == |m| - 1 {
        assert m[i] == ls[a];
      } else {
        assert m[i] == ls[if i < a then i else if i < b - 1 then i + 1 else i + 2];
      }
    }
  }

  lemma CoordsSlice(ls: Labels, i: nat, j: nat, w: Assignment)
    requires i <= j <= |ls|
    ensures Coords(ls[i..j], w) == Coords(ls, w)[i..j]
  {
  }

  lemma CoordsConcat(u: Labels, v: Labels, w: Assignment)
    ensures Coords(u + v, w) == Coords(u, w) + Coords(v, w)
  {
  }

  lemma CoordsMerged(ls: Labels, a: nat, b: nat, w: Assignment)
    requires a < b < |ls|
    ensures var J := Coords(ls, w); Coords(Merged(ls, a, b), w) == Rest(J, a, b) + [J[a]]
  {
    hide Others, Permuted;
    var J := Coords(ls, w);
    OthersSlices(J, |J|, a, b);
    CoordsSlice(ls, 0, a, w);
    CoordsSlice(ls, a + 1, b, w);
    CoordsSlice(ls, b + 1, |ls|, w);
    CoordsConcat(ls[..a], ls[a + 1..b], w);
    CoordsConcat(ls[..a] + ls[a + 1..b], ls[b + 1..], w);
    CoordsConcat(ls[..a] + ls[a + 1..b] + ls[b + 1..], [ls[a]], w);
    assert Coords([ls[a]], w) == [J[a]];
    assert ls[b + 1..|ls|] == ls[b + 1..] && ls[0..a] == ls[..a];
  }

  /** Taking a diagonal reads the same element at every assignment. */
  lemma DiagonalReads(t: Tensor, ls: Labels, ext: Extents, a: nat, b: nat, w: Assignment)
    requires Labelled(t, ls, ext) && a < b < |ls| && ls[a] == ls[b]
    ensures DiagonalOk(t.shape, a, b) && Read(Diagonal(t, 0, a, b), Merged(ls, a, b), w) == Read(t, ls, w)
  {
    hide Size, Diagonal, At, Valid, Labelled, Inside, Merged, Rest, DiagOf;
    MergedLabelled(t, ls, ext, a, b);
    var d, m, J := Diagonal(t, 0, a, b), Merged(ls, a, b), Coords(ls, w);
    InsideValid(t, ls, ext, w);
    InsideValid(d, m, ext, w);
    MergedLabels(ls, a, b, ext, w);
    if Inside(ls, ext, w) {
      CoordsMerged(ls, a, b, w);
      DiagonalIndex(t.shape, J, a, b);
      var i: nat := J[a];
      DiagonalAt(t, 0, a, b, J, i);
    } else {
      OutsideZero(t, J);
      OutsideZero(d, Coords(m, w));
    }
  }

  lemma OutsideZero(t: Tensor, J: Index)
    requires !Valid(t.shape, J)
    ensures At(t, J) == 0.0
  {
  }

  // ----- lowering one operand -----

  /** The first label that occurs again, with its next occurrence. */
  function FindPair(ls: Labels, i: nat): (r: Option<(nat, nat)>)
    requires i <= |ls|
    ensures r.Some? ==> r.value.0 < r.value.1 < |ls| && ls[r.value.0] == ls[r.value.1]
    ensures r.None? ==> forall k, l :: i <= k < l < |ls| ==> ls[k] != ls[l]
    decreases |ls| - i
  {
    if i == |ls| then None else
      var j := PosIn(ls[i + 1..], ls[i]);
      if j < |ls| - i - 1 then Some((i, i + 1 + j))
      else
        assert forall l :: i < l < |ls| ==> ls[l] == ls[i + 1..][l - i - 1];
        FindPair(ls, i + 1)
  }

  /** Axes whose label neither the other operand nor the output mentions. */
  function Reduced(ls: Labels, other: Labels, output: Labels): (r: seq<bool>)
    ensures |r| == |ls|
  {
    seq(|ls|, (i: nat) requires i < |ls| => ls[i] !in other && ls[i] !in output)
  }

  lemma KeepMembers(ls: Labels, mask: seq<bool>, c: char)
    requires |mask| == |ls|
    ensures c in Drop(ls, mask) <==> exists i :: 0 <= i < |ls| && ls[i] == c && !mask[i]
  {
    if c in Drop(ls, mask) {
      var k: nat :| k < |Drop(ls, mask)| && Drop(ls, mask)[k] == c;
      var i := DropFrom(ls, mask, k);
    }
    if i: nat :| i < |ls| && ls[i] == c && !mask[i] {
      DropAt(ls, mask, i);
    }
  }

  lemma ReducedMembers(ls: Labels, other: Labels, output: Labels)
    ensures forall c :: c in Drop(ls, Reduced(ls, other, output)) <==> c in ls && (c in other || c in output)
    ensures forall c :: c in Keep(ls, Reduced(ls, other, output)) <==> c in ls && c !in other && c !in output
  {
    var mask := Reduced(ls, other, output);
    forall c ensures (c in Drop(ls, mask) <==> c in ls && (c in other || c in output))
      && (c in Keep(ls, mask) <==> c in ls && c !in other && c !in output)
    {
      KeepMembers(ls, mask, c);
      KeepMembers(ls, Complement(mask), c);
      if c in ls {
        var i :| 0 <= i < |ls| && ls[i] == c;
        assert mask[i] == (c !in other && c !in output) && Complement(mask)[i] == !mask[i];
      }
    }
  }

  /** Reducing sums over every setting of the reduced labels, also where the read is out of range. */
  lemma ReduceReadsAll(t: Tensor, ls: Labels, ext: Extents, mask: seq<bool>, w: Assignment)
    requires Labelled(t, ls, ext) && Distinct(ls) && |mask| == |ls|
    ensures Read(ReduceSum(t, mask), Drop(ls, mask), w) == SumOver(Keep(ls, mask), ext, Reader(t, ls), w)
  {
    hide Size, Flat, SumIx, Assign, Distinct, Keep, Drop, Valid, ReduceSum;
    DropSizes(ls, mask, ext);
    if Valid(Sizes(Drop(ls, mask), ext), Coords(Drop(ls, mask), w)) {
      ReduceReads(t, ls, ext, mask, w);
    } else {
      OutsideZero(ReduceSum(t, mask), Coords(Drop(ls, mask), w));
      var R := Keep(ls, mask);
      var f := (K: Index) => SumTerm(w, R, Reader(t, ls), K);
      forall K | Valid(Sizes(R, ext), K) ensures f(K) == 0.0 {
        ValidLen(Sizes(R, ext), K);
        var J := Coords(ls, Assign(w, R, K));
        AssignSplits(ls, mask, w, K);
        if Valid(t.shape, J) {
          DropValid(t.shape, mask, J);
        } else {
          OutsideZero(t, J);
        }
      }
      SumIxZero(Sizes(R, ext), f);
    }
  }

  /** The lowered operand, its distinct labels and the labels summed away. */
  datatype Lowered = Lowered(value: Tensor, labels: Labels, summed: Labels)

  /** At every assignment the lowered operand is the original summed over the removed labels. */
  ghost predicate Lowers(r: Lowered, t: Tensor, labels: Labels, ext: Extents, other: Labels, output: Labels)
  {
    && Labelled(r.value, r.labels, ext) && Distinct(r.labels) && Distinct(r.summed)
    && (forall c :: c in r.labels <==> c in labels && (c in other || c in output))
    && (forall c :: c in r.summed <==> c in labels && c !in other && c !in output)
    && (forall w: Assignment :: Read(r.value, r.labels, w) == SumOver(r.summed, ext, Reader(t, labels), w))
  }

  /** Merge repeated labels into diagonals, then sum the labels nobody else needs. */
  method Operand(t: Tensor, labels: Labels, ghost ext: Extents, other: Labels, output: Labels) returns (r: Lowered)
    requires Labelled(t, labels, ext)
    ensures Lowers(r, t, labels, ext, other, output)
  {
    hide Size, At, Diagonal, Distinct, Labelled, Merged, ReduceSum, SumOver, Drop, Keep, Reduced;
    var value, kept := t, labels;
    while true
      invariant Labelled(value, kept, ext) && forall c :: c in kept <==> c in labels
      invariant forall w: Assignment :: Read(value, kept, w) == Read(t, labels, w)
      decreases |kept|
    {
      var pair := FindPair(kept, 0);
      if pair.None? {
        break;
      }
      var (a, b) := pair.value;
      MergedLabelled(value, kept, ext, a, b);
      ghost var before, names := value, kept;
      forall w: Assignment ensures Read(Diagonal(value, 0, a, b), Merged(kept, a, b), w) == Read(t, labels, w) {
        DiagonalReads(before, names, ext, a, b, w);
        MergedLabels(names, a, b, ext, w);
      }
      MergedLabels(kept, a, b, ext, map[]);
      MergedLength(kept, a, b);
      value, kept := Diagonal(value, 0, a, b), Merged(kept, a, b);
    }
    assert Distinct(kept) by { DistinctOf(kept); }
    var mask := Reduced(kept, other, output);
    ReducedMembers(kept, other, output);
    if !(true in mask) {
      NothingReduced(kept, other, output);
      forall w: Assignment ensures Read(value, kept, w) == SumOver([], ext, Reader(t, labels), w) {
        SumOverNone(ext, Reader(t, labels), w);
      }
      assert Distinct<char>([]) by { DistinctOf([]); }
      return Lowered(value, kept, []);
    }
    ReducedLabelled(value, kept, ext, mask);
    forall w: Assignment
      ensures Read(ReduceSum(value, mask), Drop(kept, mask), w) == SumOver(Keep(kept, mask), ext, Reader(t, labels), w)
    {
      ReduceReadsAll(value, kept, ext, mask, w);
      SumSame(Keep(kept, mask), ext, Reader(value, kept), Reader(t, labels), w);
    }
    r := Lowered(ReduceSum(value, mask), Drop(kept, mask), Keep(kept, mask));
  }

  lemma NothingReduced(ls: Labels, other: Labels, output: Labels)
    requires !(true in Reduced(ls, other, output))
    ensures forall c :: c in ls ==> c in other || c in output
  {
    forall c | c in ls ensures c in other || c in output {
      var i :| 0 <= i < |ls| && ls[i] == c;
      assert Reduced(ls, other, output)[i] in Reduced(ls, other, output);
    }
  }

  lemma SumOverNone(ext: Extents, f: Assignment -> real, w: Assignment)
    ensures SumOver([], ext, f, w) == f(w)
  {
    hide Size, Flat;
    var g := (K: Index) => SumTerm(w, [], f, K);
    assert Sizes([], ext) == [];
    assert Valid([], []);
    SumIxDelta([], [], g);
    assert Assign(w, [], []) == w;
  }

  lemma SumSame(S: Labels, ext: Extents, f: Assignment -> real, g: Assignment -> real, w: Assignment)
    requires forall a: Assignment :: f(a) == g(a)
    ensures SumOver(S, ext, f, w) == SumOver(S, ext, g, w)
  {
    hide SumIx, Assign, Valid;
    forall K | Valid(Sizes(S, ext), K) ensures |K| == |S| {
      ValidLen(Sizes(S, ext), K);
    }
    SumOverCong(S, ext, f, g, w);
  }

  lemma MergedLength(ls: Labels, a: nat, b: nat)
    requires a < b < |ls|
    ensures |Merged(ls, a, b)| == |ls| - 1
  {
  }

  lemma DistinctOf(ls: Labels)
    requires FindPair(ls, 0).None?
    ensures Distinct(ls)
  {
  }

  lemma ReducedLabelled(t: Tensor, ls: Labels, ext: Extents, mask: seq<bool>)
    requires Labelled(t, ls, ext) && Distinct(ls) && |mask| == |ls|
    ensures Labelled(ReduceSum(t, mask), Drop(ls, mask), ext)
    ensures Distinct(Drop(ls, mask)) && Distinct(Keep(ls, mask))
  {
    hide Size, ReduceSum;
    DropSizes(ls, mask, ext);
    DropDistinct(ls, mask);
    DropDistinct(ls, Complement(mask));
    forall i: nat | i < |Drop(ls, mask)| ensures Drop(ls, mask)[i] in ext {
      var j := DropFrom(ls, mask, i);
    }
  }

  // ----- contracting two labelled operands -----

  /** The axis pairing by label: labels shared with the output are batch axes, other shared labels are contracted. */
  ghost predicate PairsBy(s: Pairing, ll: Labels, rl: Labels, output: Labels)
  {
    && InRange(|ll|, s.leftContract) && InRange(|ll|, s.leftBatch) && InRange(|rl|, s.rightContract) && InRange(|rl|, s.rightBatch)
    && Distinct(s.leftContract + s.leftBatch)
    && Permuted(ll, s.leftContract) == Permuted(rl, s.rightContract)
    && Permuted(ll, s.leftBatch) == Permuted(rl, s.rightBatch)
    && (forall i :: i in s.leftBatch <==> 0 <= i < |ll| && ll[i] in rl && ll[i] in output)
    && (forall i :: i in s.leftContract <==> 0 <= i < |ll| && ll[i] in rl && ll[i] !in output)
  }

  lemma PermutedSizes(ls: Labels, ext: Extents, p: seq<nat>)
    requires InRange(|ls|, p)
    ensures Permuted(Sizes(ls, ext), p) == Sizes(Permuted(ls, p), ext)
  {
  }

  lemma PermutedCoords(ls: Labels, w: Assignment, p: seq<nat>)
    requires InRange(|ls|, p)
    ensures Permuted(Coords(ls, w), p) == Coords(Permuted(ls, p), w)
  {
  }

  /** Distinct labels read at distinct positions on one side stay at distinct positions on the other. */
  lemma RightDistinct(s: Pairing, ll: Labels, rl: Labels, output: Labels)
    requires PairsBy(s, ll, rl, output) && Distinct(ll)
    ensures AxesOk(|ll|, s.leftContract + s.leftBatch) && AxesOk(|rl|, s.rightContract + s.rightBatch)
    ensures |s.leftContract| == |s.rightContract| && |s.leftBatch| == |s.rightBatch|
  {
    assert |Permuted(ll, s.leftContract)| == |Permuted(rl, s.rightContract)|;
    assert |Permuted(ll, s.leftBatch)| == |Permuted(rl, s.rightBatch)|;
    var u, v := s.leftContract + s.leftBatch, s.rightContract + s.rightBatch;
    PermutedConcat(ll, s.leftContract, s.leftBatch);
    PermutedConcat(rl, s.rightContract, s.rightBatch);
    assert Permuted(ll, u) == Permuted(rl, v);
    forall k, l | 0 <= k < l < |v| ensures v[k] != v[l] {
      assert Permuted(ll, u)[k] == ll[u[k]] && Permuted(ll, u)[l] == ll[u[l]];
      assert Permuted(rl, v)[k] == rl[v[k]] && Permuted(rl, v)[l] == rl[v[l]];
      assert u[k] != u[l];
    }
  }

  lemma PairingDotOk(s: Pairing, l: Tensor, ll: Labels, r: Tensor, rl: Labels, ext: Extents, output: Labels)
    requires PairsBy(s, ll, rl, output) && Distinct(ll) && Labelled(l, ll, ext) && Labelled(r, rl, ext)
    ensures DotOk(l.shape, r.shape, s)
  {
    hide Size, Distinct;
    RightDistinct(s, ll, rl, output);
    PermutedSizes(ll, ext, s.leftContract);
    PermutedSizes(ll, ext, s.leftBatch);
    PermutedSizes(rl, ext, s.rightContract);
    PermutedSizes(rl, ext, s.rightBatch);
  }

  /** Labels of a contraction's batch, left free, right free and contracted axes. */
  datatype Grouping = Grouping(batch: Labels, left: Labels, right: Labels, sum: Labels)

  function GroupingOf(s: Pairing, ll: Labels, rl: Labels): Grouping
  {
    if !InRange(|ll|, s.leftContract) || !InRange(|ll|, s.leftBatch) then Grouping([], [], [], []) else
    var lf, rf := Free(|ll|, s.leftContract + s.leftBatch), Free(|rl|, s.rightContract + s.rightBatch);
    Grouping(Permuted(ll, s.leftBatch), Permuted(ll, lf), Permuted(rl, rf), Permuted(ll, s.leftContract))
  }

  function Joint(l: Tensor, ll: Labels, r: Tensor, rl: Labels): Assignment -> real
  {
    (a: Assignment) => Times(Read(l, ll, a), Read(r, rl, a))
  }

  lemma PermutedMembers(ls: Labels, p: seq<nat>, c: char)
    requires InRange(|ls|, p)
    ensures c in Permuted(ls, p) <==> exists k :: 0 <= k < |p| && ls[p[k]] == c
  {
    if c in Permuted(ls, p) {
      var k :| 0 <= k < |p| && Permuted(ls, p)[k] == c;
    }
    if k: nat :| k < |p| && ls[p[k]] == c {
      assert Permuted(ls, p)[k] == c;
    }
  }

  lemma PairedMembers(s: Pairing, ll: Labels, rl: Labels, output: Labels, c: char)
    requires PairsBy(s, ll, rl, output)
    ensures c in GroupingOf(s, ll, rl).batch <==> c in ll && c in rl && c in output
    ensures c in GroupingOf(s, ll, rl).sum <==> c in ll && c in rl && c !in output
  {
    hide Distinct;
    PermutedMembers(ll, s.leftBatch, c);
    PermutedMembers(ll, s.leftContract, c);
    if c in ll && c in rl {
      var i: nat :| i < |ll| && ll[i] == c;
      if c in output {
        assert i in s.leftBatch;
      } else {
        assert i in s.leftContract;
      }
    }
    forall k: nat | k < |s.leftBatch| ensures ll[s.leftBatch[k]] in ll && ll[s.leftBatch[k]] in rl && ll[s.leftBatch[k]] in output {
      assert s.leftBatch[k] in s.leftBatch;
    }
    forall k: nat | k < |s.leftContract|
      ensures ll[s.leftContract[k]] in ll && ll[s.leftContract[k]] in rl && ll[s.leftContract[k]] !in output
    {
      assert s.leftContract[k] in s.leftContract;
    }
  }

  lemma LeftMembers(s: Pairing, ll: Labels, rl: Labels, output: Labels, c: char)
    requires PairsBy(s, ll, rl, output) && Distinct(ll)
    ensures c in GroupingOf(s, ll, rl).left <==> c in ll && c !in rl
  {
    var used := s.leftContract + s.leftBatch;
    var f := Free(|ll|, used);
    PermutedMembers(ll, f, c);
    if c in ll {
      var i: nat :| i < |ll| && ll[i] == c;
      assert i in used <==> c in rl;
      if c !in rl {
        assert i in f;
      }
      if k: nat :| k < |f| && ll[f[k]] == c {
        assert f[k] == i;
      }
    }
  }

  lemma RightMembers(s: Pairing, ll: Labels, rl: Labels, output: Labels, c: char)
    requires PairsBy(s, ll, rl, output) && Distinct(rl)
    ensures c in GroupingOf(s, ll, rl).right <==> c in rl && c !in ll
  {
    var used := s.rightContract + s.rightBatch;
    var f := Free(|rl|, used);
    PermutedMembers(rl, f, c);
    if c in rl {
      var j: nat :| j < |rl| && rl[j] == c;
      UsedRight(s, ll, rl, output, j);
      if c !in ll {
        assert j in f;
      }
      if k: nat :| k < |f| && rl[f[k]] == c {
        assert f[k] == j;
      }
    }
  }

  /** A right axis is paired exactly when the left operand has its label. */
  lemma UsedRight(s: Pairing, ll: Labels, rl: Labels, output: Labels, j: nat)
    requires PairsBy(s, ll, rl, output) && Distinct(rl) && j < |rl|
    ensures j in s.rightContract + s.rightBatch <==> rl[j] in ll
  {
    var c := rl[j];
    PermutedMembers(rl, s.rightBatch, c);
    PermutedMembers(rl, s.rightContract, c);
    PairedMembers(s, ll, rl, output, c);
    if c in ll {
      if c in output {
        var k: nat :| k < |s.rightBatch| && rl[s.rightBatch[k]] == c;
        assert s.rightBatch[k] == j;
      } else {
        var k: nat :| k < |s.rightContract| && rl[s.rightContract[k]] == c;
        assert s.rightContract[k] == j;
      }
    }
    if j in s.rightBatch {
      var k: nat :| k < |s.rightBatch| && s.rightBatch[k] == j;
      assert rl[s.rightBatch[k]] == c;
    } else if j in s.rightContract {
      var k: nat :| k < |s.rightContract| && s.rightContract[k] == j;
      assert rl[s.rightContract[k]] == c;
    }
  }

  lemma PermutedDistinct(ls: Labels, p: seq<nat>)
    requires InRange(|ls|, p) && Distinct(ls) && Distinct(p)
    ensures Distinct(Permuted(ls, p))
  {
  }

  lemma DistinctParts(u: seq<nat>, v: seq<nat>)
    requires Distinct(u + v)
    ensures Distinct(u) && Distinct(v)
  {
    assert forall i :: 0 <= i < |u| ==> (u + v)[i] == u[i];
    assert forall i :: 0 <= i < |v| ==> (u + v)[|u| + i] == v[i];
  }

  lemma DistinctJoin(u: Labels, v: Labels)
    requires Distinct(u) && Distinct(v) && forall c :: c in u ==> c !in v
    ensures Distinct(u + v)
  {
    forall k, l | 0 <= k < l < |u + v| ensures (u + v)[k] != (u + v)[l] {
      if k < |u| <= l {
        assert (u + v)[k] in u && (u + v)[l] in v;
      }
    }
  }

  /** The four groups are disjoint and repetition-free, and say exactly where each label comes from. */
  lemma Groups(s: Pairing, ll: Labels, rl: Labels, output: Labels)
    requires PairsBy(s, ll, rl, output) && Distinct(ll) && Distinct(rl)
    ensures var g := GroupingOf(s, ll, rl);
      && Distinct(g.batch) && Distinct(g.left) && Distinct(g.right) && Distinct(g.sum)
      && (forall c :: c in g.batch <==> c in ll && c in rl && c in output)
      && (forall c :: c in g.sum <==> c in ll && c in rl && c !in output)
      && (forall c :: c in g.left <==> c in ll && c !in rl)
      && (forall c :: c in g.right <==> c in rl && c !in ll)
  {
    var g := GroupingOf(s, ll, rl);
    hide PairsBy, GroupingOf;
    forall c
      ensures (c in g.batch <==> c in ll && c in rl && c in output) && (c in g.sum <==> c in ll && c in rl && c !in output)
      ensures (c in g.left <==> c in ll && c !in rl) && (c in g.right <==> c in rl && c !in ll)
    {
      PairedMembers(s, ll, rl, output, c);
      LeftMembers(s, ll, rl, output, c);
      RightMembers(s, ll, rl, output, c);
    }
    GroupsDistinct(s, ll, rl, output);
  }

  lemma GroupsDistinct(s: Pairing, ll: Labels, rl: Labels, output: Labels)
    requires PairsBy(s, ll, rl, output) && Distinct(ll) && Distinct(rl)
    ensures var g := GroupingOf(s, ll, rl); Distinct(g.batch) && Distinct(g.left) && Distinct(g.right) && Distinct(g.sum)
  {
    DistinctParts(s.leftContract, s.leftBatch);
    PermutedDistinct(ll, s.leftBatch);
    PermutedDistinct(ll, s.leftContract);
    PermutedDistinct(ll, Free(|ll|, s.leftContract + s.leftBatch));
    PermutedDistinct(rl, Free(|rl|, s.rightContract + s.rightBatch));
  }

  lemma GroupSizes(s: Pairing, l: Tensor, ll: Labels, r: Tensor, rl: Labels, ext: Extents, output: Labels)
    requires PairsBy(s, ll, rl, output) && Distinct(ll) && Labelled(l, ll, ext) && Labelled(r, rl, ext)
    ensures DotOk(l.shape, r.shape, s)
    ensures var x, g := ExtentsOf(l.shape, r.shape, s), GroupingOf(s, ll, rl);
      && x.batch == Sizes(g.batch, ext) && x.left == Sizes(g.left, ext)
      && x.right == Sizes(g.right, ext) && x.sum == Sizes(g.sum, ext)
  {
    hide Size, Distinct, Permuted, Free;
    PairingDotOk(s, l, ll, r, rl, ext, output);
    PermutedSizes(ll, ext, s.leftBatch);
    PermutedSizes(ll, ext, s.leftContract);
    PermutedSizes(ll, ext, LeftFree(l.shape, s));
    PermutedSizes(rl, ext, RightFree(r.shape, s));
  }

  lemma InsideSizes(ls: Labels, ext: Extents, w: Assignment)
    requires Inside(ls, ext, w)
    ensures Valid(Sizes(ls, ext), Coords(ls, w))
  {
    forall i: nat | i < |ls| ensures 0 <= Coords(ls, w)[i] < Sizes(ls, ext)[i] {
      assert ls[i] in ext;
    }
  }

  /** The arranged left operand read at the coordinates of its label groups is the operand read at the assignment. */
  lemma LeftReads(s: Pairing, l: Tensor, ll: Labels, r: Shape, rl: Labels, ext: Extents, a: Assignment)
    requires DotOk(l.shape, r, s) && Labelled(l, ll, ext) && Inside(ll, ext, a)
    ensures var g := GroupingOf(s, ll, rl);
      At(LeftArranged(l, r, s), Coords(g.batch, a) + Coords(g.left, a) + Coords(g.sum, a)) == Read(l, ll, a)
  {
    hide Size, At, Distinct, Permuted, Free, IsPerm, Inside, Valid;
    var order, J := LeftOrder(l.shape, s), Coords(ll, a);
    OrdersOk(l.shape, r, s);
    InsideValid(l, ll, ext, a);
    TransposeReads(l, order, J);
    PermutedCoords(ll, a, order);
    PermutedConcat(ll, s.leftBatch, LeftFree(l.shape, s));
    PermutedConcat(ll, s.leftBatch + LeftFree(l.shape, s), s.leftContract);
    var g := GroupingOf(s, ll, rl);
    CoordsConcat(g.batch, g.left, a);
    CoordsConcat(g.batch + g.left, g.sum, a);
  }

  lemma RightReads(s: Pairing, l: Shape, ll: Labels, r: Tensor, rl: Labels, ext: Extents, output: Labels, a: Assignment)
    requires DotOk(l, r.shape, s) && PairsBy(s, ll, rl, output) && Labelled(r, rl, ext) && Inside(rl, ext, a)
    ensures var g := GroupingOf(s, ll, rl);
      At(RightArranged(l, r, s), Coords(g.batch, a) + Coords(g.sum, a) + Coords(g.right, a)) == Read(r, rl, a)
  {
    hide Size, At, Distinct, Permuted, Free, IsPerm, Inside, Valid;
    var order, J := RightOrder(r.shape, s), Coords(rl, a);
    OrdersOk(l, r.shape, s);
    InsideValid(r, rl, ext, a);
    TransposeReads(r, order, J);
    PermutedCoords(rl, a, order);
    PermutedConcat(rl, s.rightBatch, s.rightContract);
    PermutedConcat(rl, s.rightBatch + s.rightContract, RightFree(r.shape, s));
    var g := GroupingOf(s, ll, rl);
    CoordsConcat(g.batch, g.sum, a);
    CoordsConcat(g.batch + g.sum, g.right, a);
  }

  lemma InsideAssign(ls: Labels, S: Labels, ext: Extents, w: Assignment, K: Index)
    requires |K| == |S| && Distinct(S) && Valid(Sizes(S, ext), K) && forall i :: 0 <= i < |S| ==> S[i] in ext
    requires forall i :: 0 <= i < |ls| && ls[i] !in S ==> ls[i] in ext && 0 <= Get(w, ls[i]) < ext[ls[i]]
    ensures Inside(ls, ext, Assign(w, S, K))
  {
    hide Assign;
    forall i: nat | i < |ls| ensures ls[i] in ext && 0 <= Get(Assign(w, S, K), ls[i]) < ext[ls[i]] {
      AssignGet(w, S, K, ls[i]);
      if ls[i] in S {
        var k := PosIn(S, ls[i]);
        assert S[k] == ls[i] && 0 <= K[k] < Sizes(S, ext)[k];
      }
    }
  }

  /** One term of the contraction, in labels. */
  lemma DotTerm(s: Pairing, l: Tensor, ll: Labels, r: Tensor, rl: Labels, ext: Extents, output: Labels, w: Assignment, K: Index)
    requires PairsBy(s, ll, rl, output) && Distinct(ll) && Distinct(rl) && Labelled(l, ll, ext) && Labelled(r, rl, ext)
    requires DotOk(l.shape, r.shape, s)
    requires var g := GroupingOf(s, ll, rl);
      Inside(g.batch, ext, w) && Inside(g.left, ext, w) && Inside(g.right, ext, w) && Valid(Sizes(g.sum, ext), K)
    ensures var g := GroupingOf(s, ll, rl);
      && |K| == |g.sum|
      && TermAt(LeftArranged(l, r.shape, s), RightArranged(l.shape, r, s), Coords(g.batch, w), Coords(g.left, w), Coords(g.right, w), K)
        == Joint(l, ll, r, rl)(Assign(w, g.sum, K))
  {
    var g := GroupingOf(s, ll, rl);
    hide Size, At, Distinct, Assign, Valid, PairsBy, GroupingOf, Labelled, Read, Times, Joint, Inside, LeftArranged, RightArranged, DotOk, Sizes, Coords;
    ValidLen(Sizes(g.sum, ext), K);
    Groups(s, ll, rl, output);
    var a := Assign(w, g.sum, K);
    TermInside(s, l, ll, r, rl, ext, output, w, K);
    LeftReads(s, l, ll, r.shape, rl, ext, a);
    RightReads(s, l.shape, ll, r, rl, ext, output, a);
    Untouched(w, g.sum, K, g.batch);
    Untouched(w, g.sum, K, g.left);
    Untouched(w, g.sum, K, g.right);
    assert K == Coords(g.sum, a);
    JointIs(l, ll, r, rl, a);
  }

  lemma JointIs(l: Tensor, ll: Labels, r: Tensor, rl: Labels, a: Assignment)
    ensures Joint(l, ll, r, rl)(a) == Times(Read(l, ll, a), Read(r, rl, a))
  {
  }

  lemma Untouched(w: Assignment, S: Labels, K: Index, ls: Labels)
    requires |S| == |K| && Distinct(S) && forall c :: c in ls ==> c !in S
    ensures Coords(S, Assign(w, S, K)) == K && Coords(ls, Assign(w, S, K)) == Coords(ls, w)
  {
    CoordsAssign(w, S, K, ls);
  }

  lemma TermInside(s: Pairing, l: Tensor, ll: Labels, r: Tensor, rl: Labels, ext: Extents, output: Labels, w: Assignment, K: Index)
    requires PairsBy(s, ll, rl, output) && Distinct(ll) && Distinct(rl) && Labelled(l, ll, ext) && Labelled(r, rl, ext)
    requires var g := GroupingOf(s, ll, rl);
      Inside(g.batch, ext, w) && Inside(g.left, ext, w) && Inside(g.right, ext, w) && Valid(Sizes(g.sum, ext), K) && |K| == |g.sum|
    ensures var a := Assign(w, GroupingOf(s, ll, rl).sum, K); Inside(ll, ext, a) && Inside(rl, ext, a)
  {
    var g := GroupingOf(s, ll, rl);
    hide Size, Distinct, Assign, Valid, PairsBy, GroupingOf;
    Groups(s, ll, rl, output);
    forall i: nat | i < |g.sum| ensures g.sum[i] in ext {
      assert g.sum[i] in ll;
    }
    forall i: nat | i < |ll| && ll[i] !in g.sum ensures ll[i] in ext && 0 <= Get(w, ll[i]) < ext[ll[i]] {
      assert ll[i] in ll;
      assert ll[i] in g.batch || ll[i] in g.left;
    }
    forall i: nat | i < |rl| && rl[i] !in g.sum ensures rl[i] in ext && 0 <= Get(w, rl[i]) < ext[rl[i]] {
      assert rl[i] in rl;
      assert rl[i] in g.batch || rl[i] in g.right;
    }
    InsideAssign(ll, g.sum, ext, w, K);
    InsideAssign(rl, g.sum, ext, w, K);
  }

  lemma DotTerms(s: Pairing, l: Tensor, ll: Labels, r: Tensor, rl: Labels, ext: Extents, output: Labels, w: Assignment)
    requires PairsBy(s, ll, rl, output) && Distinct(ll) && Distinct(rl) && Labelled(l, ll, ext) && Labelled(r, rl, ext)
    requires DotOk(l.shape, r.shape, s)
    requires var g := GroupingOf(s, ll, rl); Inside(g.batch, ext, w) && Inside(g.left, ext, w) && Inside(g.right, ext, w)
    ensures var g := GroupingOf(s, ll, rl);
      SumIx(Sizes(g.sum, ext), (K: Index) =>
        TermAt(LeftArranged(l, r.shape, s), RightArranged(l.shape, r, s), Coords(g.batch, w), Coords(g.left, w), Coords(g.right, w), K))
        == SumOver(g.sum, ext, Joint(l, ll, r, rl), w)
  {
    hide Size, At, Distinct, Assign, PairsBy, GroupingOf, Labelled, SumIx, DotOk, ExtentsOf, LeftArranged, RightArranged, TermAt,
      Joint, Inside, Valid, Sizes, Coords;
    var g := GroupingOf(s, ll, rl);
    var x, y := LeftArranged(l, r.shape, s), RightArranged(l.shape, r, s);
    var f := (K: Index) =>
      TermAt(LeftArranged(l, r.shape, s), RightArranged(l.shape, r, s), Coords(g.batch, w), Coords(g.left, w), Coords(g.right, w), K);
    var h := (K: Index) => SumTerm(w, g.sum, Joint(l, ll, r, rl), K);
    forall K | Valid(Sizes(g.sum, ext), K) ensures f(K) == h(K) {
      DotTerm(s, l, ll, r, rl, ext, output, w, K);
    }
    SumIxCong(Sizes(g.sum, ext), f, h);
  }

  /** The contraction of two labelled operands sums their product over the contracted labels. */
  lemma DotReads(s: Pairing, l: Tensor, ll: Labels, r: Tensor, rl: Labels, ext: Extents, output: Labels, w: Assignment)
    requires PairsBy(s, ll, rl, output) && Distinct(ll) && Distinct(rl) && Labelled(l, ll, ext) && Labelled(r, rl, ext)
    requires DotOk(l.shape, r.shape, s)
    requires var g := GroupingOf(s, ll, rl); Inside(g.batch, ext, w) && Inside(g.left, ext, w) && Inside(g.right, ext, w)
    ensures var g := GroupingOf(s, ll, rl);
      Read(DotGeneral(l, r, s), g.batch + g.left + g.right, w) == SumOver(g.sum, ext, Joint(l, ll, r, rl), w)
  {
    hide *;
    var g := GroupingOf(s, ll, rl);
    GroupSizes(s, l, ll, r, rl, ext, output);
    DotTerms(s, l, ll, r, rl, ext, output, w);
    DotEntry(s, l, ll, r, rl, ext, w);
  }

  lemma DotEntry(s: Pairing, l: Tensor, ll: Labels, r: Tensor, rl: Labels, ext: Extents, w: Assignment)
    requires DotOk(l.shape, r.shape, s)
    requires var x, g := ExtentsOf(l.shape, r.shape, s), GroupingOf(s, ll, rl);
      && x.batch == Sizes(g.batch, ext) && x.left == Sizes(g.left, ext)
      && x.right == Sizes(g.right, ext) && x.sum == Sizes(g.sum, ext)
    requires var g := GroupingOf(s, ll, rl); Inside(g.batch, ext, w) && Inside(g.left, ext, w) && Inside(g.right, ext, w)
    ensures var g := GroupingOf(s, ll, rl);
      Read(DotGeneral(l, r, s), g.batch + g.left + g.right, w)
        == SumIx(Sizes(g.sum, ext), (K: Index) =>
             TermAt(LeftArranged(l, r.shape, s), RightArranged(l.shape, r, s), Coords(g.batch, w), Coords(g.left, w), Coords(g.right, w), K))
  {
    hide Size, At, DotOk, ExtentsOf, LeftArranged, RightArranged, TermAt, Inside, Valid, Sizes, Coords, SumIx, GroupingOf, DotGeneral;
    var g := GroupingOf(s, ll, rl);
    CoordsConcat(g.batch, g.left, w);
    CoordsConcat(g.batch + g.left, g.right, w);
    InsideSizes(g.batch, ext, w);
    InsideSizes(g.left, ext, w);
    InsideSizes(g.right, ext, w);
    DotGeneralAt(l, r, s, Coords(g.batch, w), Coords(g.left, w), Coords(g.right, w));
  }

  // ----- sums nested in sums -----

  lemma ReadUntouched(t: Tensor, ls: Labels, w: Assignment, S: Labels, K: Index)
    requires |S| == |K| && Distinct(S) && forall c :: c in ls ==> c !in S
    ensures Read(t, ls, Assign(w, S, K)) == Read(t, ls, w)
  {
    hide Assign;
    CoordsAssign(w, S, K, ls);
  }

  lemma ReadLater(t: Tensor, ls: Labels, w: Assignment, S: Labels, K: Index, T: Labels, L: Index)
    requires |S| == |K| && |T| == |L| && forall c :: c in ls ==> c !in S
    ensures Read(t, ls, Assign(Assign(w, S, K), T, L)) == Read(t, ls, Assign(w, T, L))
  {
    hide Assign;
    var a, b := Assign(Assign(w, S, K), T, L), Assign(w, T, L);
    forall i: nat | i < |ls| ensures Get(a, ls[i]) == Get(b, ls[i]) {
      assert ls[i] in ls;
      AssignGet(Assign(w, S, K), T, L, ls[i]);
      AssignGet(w, T, L, ls[i]);
      AssignGet(w, S, K, ls[i]);
    }
    ReadCong(t, ls, a, b);
  }

  /** Summing the right operand's private labels does not see the left's. */
  lemma InnerSum(l: Tensor, ll: Labels, r: Tensor, rl: Labels, R1: Labels, R2: Labels, ext: Extents, a: Assignment, K: Index)
    requires |K| == |R1| && Distinct(R2)
    requires (forall c :: c in rl ==> c !in R1) && (forall c :: c in ll ==> c !in R2)
    ensures SumOver(R2, ext, Joint(l, ll, r, rl), Assign(a, R1, K))
         == Times(SumOver(R2, ext, Reader(r, rl), a), Read(l, ll, Assign(a, R1, K)))
  {
    hide Assign, Read, SumIx, Times, Valid, Distinct;
    var b := Assign(a, R1, K);
    var c := Read(l, ll, b);
    forall L | Valid(Sizes(R2, ext), L)
      ensures |L| == |R2| && Joint(l, ll, r, rl)(Assign(b, R2, L)) == Times(c, Reader(r, rl)(Assign(b, R2, L)))
    {
      ValidLen(Sizes(R2, ext), L);
      ReadUntouched(l, ll, b, R2, L);
    }
    SumOverScale(R2, ext, c, Reader(r, rl), Joint(l, ll, r, rl), b);
    var f, g := (L: Index) => SumTerm(b, R2, Reader(r, rl), L), (L: Index) => SumTerm(a, R2, Reader(r, rl), L);
    forall L | Valid(Sizes(R2, ext), L) ensures f(L) == g(L) {
      ValidLen(Sizes(R2, ext), L);
      ReadLater(r, rl, a, R1, K, R2, L);
    }
    SumIxCong(Sizes(R2, ext), f, g);
    TimesComm(c, SumOver(R2, ext, Reader(r, rl), a));
  }

  /** The product of two private sums is the sum of products over both. */
  lemma ProductOfSums(l: Tensor, ll: Labels, r: Tensor, rl: Labels, R1: Labels, R2: Labels, ext: Extents, a: Assignment)
    requires Distinct(R1 + R2) && Distinct(R2)
    requires (forall c :: c in rl ==> c !in R1) && (forall c :: c in ll ==> c !in R2)
    ensures Times(SumOver(R1, ext, Reader(l, ll), a), SumOver(R2, ext, Reader(r, rl), a))
         == SumOver(R1 + R2, ext, Joint(l, ll, r, rl), a)
  {
    hide Assign, Read, SumOver, Times, Valid, Distinct, Joint;
    SumOverConcat(R1, R2, ext, Joint(l, ll, r, rl), a);
    var y := SumOver(R2, ext, Reader(r, rl), a);
    var outer := (b: Assignment) => SumOver(R2, ext, Joint(l, ll, r, rl), b);
    forall K | Valid(Sizes(R1, ext), K)
      ensures |K| == |R1| && outer(Assign(a, R1, K)) == Times(y, Reader(l, ll)(Assign(a, R1, K)))
    {
      ValidLen(Sizes(R1, ext), K);
      InnerSum(l, ll, r, rl, R1, R2, ext, a, K);
    }
    SumOverScale(R1, ext, y, Reader(l, ll), outer, a);
    TimesComm(y, SumOver(R1, ext, Reader(l, ll), a));
  }

  /** Contracting lowered operands sums the original product over the contracted and the removed labels. */
  lemma SumOfLowered(x: Lowered, y: Lowered, l: Tensor, ll: Labels, r: Tensor, rl: Labels, C: Labels, ext: Extents, w: Assignment)
    requires forall a: Assignment :: Read(x.value, x.labels, a) == SumOver(x.summed, ext, Reader(l, ll), a)
    requires forall a: Assignment :: Read(y.value, y.labels, a) == SumOver(y.summed, ext, Reader(r, rl), a)
    requires Distinct(C + (x.summed + y.summed)) && Distinct(x.summed + y.summed) && Distinct(y.summed)
    requires (forall c :: c in rl ==> c !in x.summed) && (forall c :: c in ll ==> c !in y.summed)
    ensures SumOver(C, ext, Joint(x.value, x.labels, y.value, y.labels), w)
         == SumOver(C + (x.summed + y.summed), ext, Joint(l, ll, r, rl), w)
  {
    hide Assign, SumOver, Times, Valid, Distinct, Read;
    var R := x.summed + y.summed;
    SumOverConcat(C, R, ext, Joint(l, ll, r, rl), w);
    var outer := (a: Assignment) => SumOver(R, ext, Joint(l, ll, r, rl), a);
    forall a: Assignment ensures Joint(x.value, x.labels, y.value, y.labels)(a) == outer(a) {
      ProductOfSums(l, ll, r, rl, x.summed, y.summed, ext, a);
    }
    SumSame(C, ext, Joint(x.value, x.labels, y.value, y.labels), outer, w);
  }

  // ----- output order -----

  lemma OutputPerm(res: Labels, output: Labels)
    requires SameLabels(res, output)
    ensures |res| == |output|
    ensures var perm := seq(|output|, (k: nat) requires k < |output| => PosIn(res, output[k]));
      IsPerm(perm, |res|) && Permuted(res, perm) == output
  {
    SameCount(res, output);
    var perm := seq(|output|, (k: nat) requires k < |output| => PosIn(res, output[k]));
    forall k: nat | k < |output| ensures perm[k] < |res| && res[perm[k]] == output[k] {
      assert output[k] in res;
    }
    forall p: nat | p < |res| ensures p in perm {
      assert res[p] in output;
      var k: nat :| k < |output| && output[k] == res[p];
      PosOf(res, p);
      assert perm[k] == p;
    }
  }

  lemma {:induction false} SameCount(u: Labels, v: Labels)
    requires SameLabels(u, v)
    ensures |u| == |v|
  {
    SetSize(u);
    SetSize(v);
    assert (set c | c in u) == (set c | c in v);
  }

  lemma {:induction false} SetSize(u: Labels)
    requires Distinct(u)
    ensures |set c | c in u| == |u|
  {
    if u != [] {
      var n := |u| - 1;
      SetSize(u[..n]);
      assert u[n] !in u[..n];
      assert (set c | c in u) == (set c | c in u[..n]) + {u[n]};
    }
  }

  /** Transposing the result into the output's label order. */
  lemma OutputReads(t: Tensor, res: Labels, output: Labels, perm: seq<nat>, ext: Extents, w: Assignment)
    requires Labelled(t, res, ext) && IsPerm(perm, |res|) && Permuted(res, perm) == output && Inside(res, ext, w)
    ensures Labelled(Transpose(t, perm), output, ext)
    ensures Read(Transpose(t, perm), output, w) == Read(t, res, w)
  {
    hide Size, At, Transpose;
    PermutedSizes(res, ext, perm);
    InsideValid(t, res, ext, w);
    TransposeReads(t, perm, Coords(res, w));
    PermutedCoords(res, w, perm);
    forall k: nat | k < |output| ensures output[k] in ext {
      assert output[k] == res[perm[k]];
    }
  }
}
