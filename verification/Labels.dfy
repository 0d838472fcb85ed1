/** Tensors whose axes carry labels, assignments of coordinates to labels, and sums over assignments. */
module Labels {
  import opened Lists
  import opened Products
  import opened Sums
  import opened Shapes
  import opened IndexSums
  import opened Tensors
  import opened TensorOps
  import opened Adjoints
  import opened Contractions

  type Labels = seq<char>
  type Assignment = map<char, int>
  type Extents = map<char, nat>

  function Get(w: Assignment, c: char): int
  {
    if c in w then w[c] else 0
  }

  /** w with the labels S set to the coordinates K. */
  function Assign(w: Assignment, S: Labels, K: Index): (a: Assignment)
    requires |S| == |K|
  {
    w + map c | c in S :: K[PosIn(S, c)]
  }

  function Coords(ls: Labels, w: Assignment): (r: Index)
    ensures |r| == |ls| && forall i :: 0 <= i < |ls| ==> r[i] == Get(w, ls[i])
  {
    seq(|ls|, (i: nat) requires i < |ls| => Get(w, ls[i]))
  }

  /** Read a labelled tensor at an assignment. */
  function Read(t: Tensor, ls: Labels, w: Assignment): real
  {
    At(t, Coords(ls, w))
  }

  function Sizes(ls: Labels, ext: Extents): (r: Shape)
    ensures |r| == |ls| && forall i :: 0 <= i < |ls| && ls[i] in ext ==> r[i] == ext[ls[i]]
  {
    seq(|ls|, (i: nat) requires i < |ls| => if ls[i] in ext then ext[ls[i]] else 0)
  }

  /** The axes of t have the extents of their labels. */
  predicate Labelled(t: Tensor, ls: Labels, ext: Extents)
  {
    t.shape == Sizes(ls, ext) && forall i :: 0 <= i < |ls| ==> ls[i] in ext
  }

  predicate AgreeOn(a: Assignment, b: Assignment, ls: Labels)
  {
    forall i :: 0 <= i < |ls| ==> Get(a, ls[i]) == Get(b, ls[i])
  }

  lemma ReadCong(t: Tensor, ls: Labels, a: Assignment, b: Assignment)
    requires AgreeOn(a, b, ls)
    ensures Coords(ls, a) == Coords(ls, b) && Read(t, ls, a) == Read(t, ls, b)
  {
    assert Coords(ls, a) == Coords(ls, b);
  }

  lemma AssignGet(w: Assignment, S: Labels, K: Index, c: char)
    requires |S| == |K|
    ensures c in S ==> PosIn(S, c) < |S| && Get(Assign(w, S, K), c) == K[PosIn(S, c)]
    ensures c !in S ==> Get(Assign(w, S, K), c) == Get(w, c)
  {
  }

  lemma PosOf(S: Labels, i: nat)
    requires Distinct(S) && i < |S|
    ensures PosIn(S, S[i]) == i
  {
  }

  lemma CoordsAssign(w: Assignment, S: Labels, K: Index, ls: Labels)
    requires |S| == |K| && Distinct(S)
    ensures Coords(S, Assign(w, S, K)) == K
    ensures (forall i :: 0 <= i < |ls| ==> ls[i] !in S) ==> Coords(ls, Assign(w, S, K)) == Coords(ls, w)
  {
    forall i: nat | i < |S| ensures Get(Assign(w, S, K), S[i]) == K[i] {
      AssignGet(w, S, K, S[i]);
      PosOf(S, i);
    }
    forall i: nat | i < |ls| && ls[i] !in S ensures Get(Assign(w, S, K), ls[i]) == Get(w, ls[i]) {
      AssignGet(w, S, K, ls[i]);
    }
  }

  // ----- sums over assignments -----

  function SumTerm(w: Assignment, S: Labels, f: Assignment -> real, K: Index): real
  {
    if |K| == |S| then f(Assign(w, S, K)) else 0.0
  }

  /** The sum of f over every setting of the labels S, the other labels as in w. */
  function SumOver(S: Labels, ext: Extents, f: Assignment -> real, w: Assignment): real
  {
    SumIx(Sizes(S, ext), (K: Index) => SumTerm(w, S, f, K))
  }

  lemma SumOverCong(S: Labels, ext: Extents, f: Assignment -> real, g: Assignment -> real, w: Assignment)
    requires forall K :: Valid(Sizes(S, ext), K) ==> |K| == |S| && f(Assign(w, S, K)) == g(Assign(w, S, K))
    ensures SumOver(S, ext, f, w) == SumOver(S, ext, g, w)
  {
    SumIxCong(Sizes(S, ext), (K: Index) => SumTerm(w, S, f, K), (K: Index) => SumTerm(w, S, g, K));
  }

  lemma SumOverScale(S: Labels, ext: Extents, c: real, f: Assignment -> real, g: Assignment -> real, w: Assignment)
    requires forall K :: Valid(Sizes(S, ext), K) ==> |K| == |S| && g(Assign(w, S, K)) == Times(c, f(Assign(w, S, K)))
    ensures SumOver(S, ext, g, w) == Times(c, SumOver(S, ext, f, w))
  {
    hide Times;
    SumIxScale(Sizes(S, ext), c, (K: Index) => SumTerm(w, S, f, K), (K: Index) => SumTerm(w, S, g, K));
  }

  lemma AssignAt(w: Assignment, S: Labels, K: Index, c: char)
    requires |S| == |K|
    ensures c in Assign(w, S, K) <==> c in w || c in S
    ensures c in S ==> PosIn(S, c) < |S| && Assign(w, S, K)[c] == K[PosIn(S, c)]
    ensures c !in S && c in w ==> Assign(w, S, K)[c] == w[c]
  {
  }

  lemma AssignTwice(w: Assignment, S: Labels, T: Labels, I: Index, J: Index)
    requires Distinct(S + T) && |I| == |S| && |J| == |T|
    ensures Assign(Assign(w, S, I), T, J) == Assign(w, S + T, I + J)
  {
    hide PosIn, Distinct, Assign;
    var a, b := Assign(Assign(w, S, I), T, J), Assign(w, S + T, I + J);
    forall c ensures (c in a <==> c in b) && (c in a ==> a[c] == b[c]) {
      AssignAt(w, S, I, c);
      AssignAt(Assign(w, S, I), T, J, c);
      AssignAt(w, S + T, I + J, c);
      ConcatPos(S, T, c);
    }
    assert a == b;
  }

  lemma ConcatPos(S: Labels, T: Labels, c: char)
    requires Distinct(S + T)
    ensures c in S + T <==> c in S || c in T
    ensures c in S ==> c !in T && PosIn(S + T, c) == PosIn(S, c)
    ensures c in T ==> PosIn(S + T, c) == |S| + PosIn(T, c)
  {
    if c in S {
      var i: nat :| i < |S| && S[i] == c;
      assert (S + T)[i] == c;
      PosOf(S + T, i);
      PosOf2(S, T, i);
    }
    if c in T {
      var j: nat :| j < |T| && T[j] == c;
      assert (S + T)[|S| + j] == c;
      PosOf(S + T, |S| + j);
      PosOf2(S, T, |S| + j);
    }
  }

  lemma PosOf2(S: Labels, T: Labels, k: nat)
    requires Distinct(S + T) && k < |S| + |T|
    ensures k < |S| ==> S[k] !in T && PosIn(S, S[k]) == k
    ensures k >= |S| ==> T[k - |S|] !in S && PosIn(T, T[k - |S|]) == k - |S|
  {
    var u := S + T;
    assert forall i :: 0 <= i < |S| ==> u[i] == S[i];
    assert forall j :: 0 <= j < |T| ==> u[|S| + j] == T[j];
  }

  lemma SizesConcat(S: Labels, T: Labels, ext: Extents)
    ensures Sizes(S + T, ext) == Sizes(S, ext) + Sizes(T, ext)
  {
  }

  /** Summing over two disjoint label lists, one after the other. */
  lemma SumOverConcat(S: Labels, T: Labels, ext: Extents, f: Assignment -> real, w: Assignment)
    requires Distinct(S + T)
    ensures SumOver(S + T, ext, f, w) == SumOver(S, ext, (a: Assignment) => SumOver(T, ext, f, a), w)
  {
    hide SumIx, Assign, Distinct, Valid;
    SizesConcat(S, T, ext);
    var s, t := Sizes(S, ext), Sizes(T, ext);
    var F := (K: Index) => SumTerm(w, S + T, f, K);
    var outer := (a: Assignment) => SumOver(T, ext, f, a);
    var rows := (I: Index) => SumTerm(w, S, outer, I);
    forall I | Valid(s, I) ensures rows(I) == SumIx(t, (J: Index) => F(I + J)) {
      ValidLen(s, I);
      var a := Assign(w, S, I);
      forall J | Valid(t, J) ensures SumTerm(a, T, f, J) == F(I + J) {
        ValidLen(t, J);
        AssignTwice(w, S, T, I, J);
      }
      SumIxCong(t, (J: Index) => SumTerm(a, T, f, J), (J: Index) => F(I + J));
    }
    SumIxConcat(s, t, F, rows);
  }

  lemma ValidLen(s: Shape, I: Index)
    requires Valid(s, I)
    ensures |I| == |s|
  {
  }

  /** Coordinates for the labels T read off coordinates for the labels S. */
  function Relabel(S: Labels, T: Labels, K: Index): (r: Index)
    ensures |r| == |T|
  {
    seq(|T|, (j: nat) requires j < |T| => if PosIn(S, T[j]) < |K| then K[PosIn(S, T[j])] else 0)
  }

  predicate SameLabels(S: Labels, T: Labels)
  {
    Distinct(S) && Distinct(T) && forall c :: c in S <==> c in T
  }

  lemma RelabelBack(S: Labels, T: Labels, K: Index)
    requires SameLabels(S, T) && |K| == |S|
    ensures Relabel(T, S, Relabel(S, T, K)) == K
  {
    forall i: nat | i < |S| ensures Relabel(T, S, Relabel(S, T, K))[i] == K[i] {
      PosOf(S, i);
      assert S[i] in T && T[PosIn(T, S[i])] == S[i];
    }
  }

  lemma RelabelValid(S: Labels, T: Labels, ext: Extents, K: Index)
    requires SameLabels(S, T) && Valid(Sizes(S, ext), K)
    ensures Valid(Sizes(T, ext), Relabel(S, T, K))
  {
    forall j: nat | j < |T| ensures 0 <= Relabel(S, T, K)[j] < Sizes(T, ext)[j] {
      var i := PosIn(S, T[j]);
      assert T[j] in S && S[i] == T[j];
      assert 0 <= K[i] < Sizes(S, ext)[i];
    }
  }

  lemma RelabelAssign(S: Labels, T: Labels, w: Assignment, K: Index)
    requires SameLabels(S, T) && |K| == |S|
    ensures Assign(w, T, Relabel(S, T, K)) == Assign(w, S, K)
  {
    hide Assign;
    var L := Relabel(S, T, K);
    var a, b := Assign(w, T, L), Assign(w, S, K);
    forall c ensures (c in a <==> c in b) && (c in a ==> a[c] == b[c]) {
      AssignAt(w, T, L, c);
      AssignAt(w, S, K, c);
      if c in S {
        assert T[PosIn(T, c)] == c;
      }
    }
    assert a == b;
  }

  /** The order in which labels are summed does not matter. */
  lemma SumOverPerm(S: Labels, T: Labels, ext: Extents, f: Assignment -> real, w: Assignment)
    requires SameLabels(S, T)
    ensures SumOver(S, ext, f, w) == SumOver(T, ext, f, w)
  {
    hide SumIx, Assign, SameLabels, Valid, Relabel;
    var g, h := (K: Index) => SumTerm(w, S, f, K), (K: Index) => SumTerm(w, T, f, K);
    var there, back := (K: Index) => Relabel(S, T, K), (K: Index) => Relabel(T, S, K);
    forall K | Valid(Sizes(S, ext), K) ensures Valid(Sizes(T, ext), there(K)) && h(there(K)) == g(K) && back(there(K)) == K {
      ValidLen(Sizes(S, ext), K);
      RelabelValid(S, T, ext, K);
      RelabelAssign(S, T, w, K);
      RelabelBack(S, T, K);
    }
    assert SameLabels(T, S) by { SameSym(S, T); }
    forall K | Valid(Sizes(T, ext), K) ensures Valid(Sizes(S, ext), back(K)) && g(back(K)) == h(K) && there(back(K)) == K {
      ValidLen(Sizes(T, ext), K);
      RelabelValid(T, S, ext, K);
      RelabelAssign(T, S, w, K);
      RelabelBack(T, S, K);
    }
    SumIxTransfer(Sizes(S, ext), Sizes(T, ext), g, h, there, back);
  }

  lemma SameSym(S: Labels, T: Labels)
    requires SameLabels(S, T)
    ensures SameLabels(T, S)
  {
  }

  // ----- summing labelled axes of a tensor -----

  function Complement(mask: seq<bool>): (r: seq<bool>)
    ensures |r| == |mask|
  {
    seq(|mask|, (a: nat) requires a < |mask| => !mask[a])
  }

  /** Keep the masked positions. */
  function Keep<T>(xs: seq<T>, mask: seq<bool>): seq<T>
  {
    Drop(xs, Complement(mask))
  }

  /** Number of unmasked positions before i. */
  function Before(mask: seq<bool>, i: nat): nat
    requires i <= |mask|
  {
    if i == 0 then 0 else Before(mask[1..], i - 1) + (if mask[0] then 0 else 1)
  }

  /** An unmasked position moves to the number of unmasked positions before it. */
  lemma {:induction false} DropAt<T>(xs: seq<T>, mask: seq<bool>, i: nat)
    requires |xs| == |mask| && i < |mask| && !mask[i]
    ensures Before(mask, i) < |Drop(xs, mask)| && Drop(xs, mask)[Before(mask, i)] == xs[i]
  {
    if i > 0 {
      DropAt(xs[1..], mask[1..], i - 1);
    }
  }

  /** Every position of the result comes from an unmasked position. */
  lemma {:induction false} DropFrom<T>(xs: seq<T>, mask: seq<bool>, k: nat) returns (i: nat)
    requires |xs| == |mask| && k < |Drop(xs, mask)|
    ensures i < |xs| && !mask[i] && Before(mask, i) == k && Drop(xs, mask)[k] == xs[i]
  {
    if mask[0] {
      i := DropFrom(xs[1..], mask[1..], k);
      i := i + 1;
    } else if k == 0 {
      i := 0;
    } else {
      i := DropFrom(xs[1..], mask[1..], k - 1);
      i := i + 1;
    }
  }

  lemma {:induction false} DropLength<T, U>(xs: seq<T>, ys: seq<U>, mask: seq<bool>)
    requires |xs| == |ys| == |mask|
    ensures |Drop(xs, mask)| == |Drop(ys, mask)|
  {
    if xs != [] {
      DropLength(xs[1..], ys[1..], mask[1..]);
    }
  }

  lemma DropDistinct(ls: Labels, mask: seq<bool>)
    requires |ls| == |mask| && Distinct(ls)
    ensures Distinct(Drop(ls, mask))
  {
    var d := Drop(ls, mask);
    forall k, l | 0 <= k < l < |d| ensures d[k] != d[l] {
      var i := DropFrom(ls, mask, k);
      var j := DropFrom(ls, mask, l);
    }
  }

  lemma DropSizes(ls: Labels, mask: seq<bool>, ext: Extents)
    requires |ls| == |mask|
    ensures Drop(Sizes(ls, ext), mask) == Sizes(Drop(ls, mask), ext)
  {
    DropLength(ls, Sizes(ls, ext), mask);
    var a, b := Drop(Sizes(ls, ext), mask), Sizes(Drop(ls, mask), ext);
    forall k: nat | k < |a| ensures a[k] == b[k] {
      var i := DropFrom(ls, mask, k);
      DropAt(Sizes(ls, ext), mask, i);
    }
  }

  /** An unmasked label is not among the kept ones, and a masked one sits where its rank says. */
  lemma MaskedLabel(ls: Labels, mask: seq<bool>, i: nat)
    requires |ls| == |mask| && Distinct(ls) && i < |ls|
    ensures !mask[i] ==> ls[i] !in Keep(ls, mask)
    ensures mask[i] ==> var k := Before(Complement(mask), i); k < |Keep(ls, mask)| && PosIn(Keep(ls, mask), ls[i]) == k
  {
    var c := Complement(mask);
    if mask[i] {
      DropAt(ls, c, i);
      DropDistinct(ls, c);
      PosOf(Keep(ls, mask), Before(c, i));
    } else if ls[i] in Keep(ls, mask) {
      var k: nat :| k < |Keep(ls, mask)| && Keep(ls, mask)[k] == ls[i];
      var j := DropFrom(ls, c, k);
    }
  }

  /** Splitting a coordinate by a mask and assigning the masked part puts it back together. */
  lemma KeepRestores(ls: Labels, mask: seq<bool>, w: Assignment, I: Index)
    requires |ls| == |mask| == |I| && Distinct(ls) && Drop(I, mask) == Coords(Drop(ls, mask), w)
    ensures |Keep(I, mask)| == |Keep(ls, mask)|
    ensures Coords(ls, Assign(w, Keep(ls, mask), Keep(I, mask))) == I
  {
    hide Distinct;
    var c := Complement(mask);
    DropLength(ls, I, c);
    var R := Keep(ls, mask);
    forall i: nat | i < |ls| ensures Get(Assign(w, R, Keep(I, mask)), ls[i]) == I[i] {
      MaskedLabel(ls, mask, i);
      AssignGet(w, R, Keep(I, mask), ls[i]);
      if mask[i] {
        DropAt(I, c, i);
        DropAt(ls, c, i);
      } else {
        DropAt(I, mask, i);
        DropAt(ls, mask, i);
      }
    }
  }

  lemma AssignSplits(ls: Labels, mask: seq<bool>, w: Assignment, K: Index)
    requires |ls| == |mask| && Distinct(ls) && |K| == |Keep(ls, mask)|
    ensures var J := Coords(ls, Assign(w, Keep(ls, mask), K));
      Drop(J, mask) == Coords(Drop(ls, mask), w) && Keep(J, mask) == K
  {
    hide Distinct, Assign;
    var c, R := Complement(mask), Keep(ls, mask);
    var J := Coords(ls, Assign(w, R, K));
    DropLength(ls, J, mask);
    DropLength(ls, J, c);
    forall k: nat | k < |Drop(J, mask)| ensures Drop(J, mask)[k] == Coords(Drop(ls, mask), w)[k] {
      var i := DropFrom(ls, mask, k);
      DropAt(J, mask, i);
      MaskedLabel(ls, mask, i);
      AssignGet(w, R, K, ls[i]);
    }
    forall k: nat | k < |K| ensures Keep(J, mask)[k] == K[k] {
      var i := DropFrom(ls, c, k);
      DropAt(J, c, i);
      MaskedLabel(ls, mask, i);
      AssignGet(w, R, K, ls[i]);
    }
  }

  function Reader(t: Tensor, ls: Labels): Assignment -> real
  {
    (a: Assignment) => Read(t, ls, a)
  }

  /** Reducing masked axes sums the tensor over every setting of their labels. */
  lemma ReduceReads(t: Tensor, ls: Labels, ext: Extents, mask: seq<bool>, w: Assignment)
    requires Labelled(t, ls, ext) && Distinct(ls) && |mask| == |ls|
    requires Valid(Sizes(Drop(ls, mask), ext), Coords(Drop(ls, mask), w))
    ensures Read(ReduceSum(t, mask), Drop(ls, mask), w) == SumOver(Keep(ls, mask), ext, Reader(t, ls), w)
  {
    hide SumIx, Size, Flat, Assign, Distinct, Keep, Drop, Complement;
    var R, P := Keep(ls, mask), Coords(Drop(ls, mask), w);
    DropSizes(ls, mask, ext);
    var f := (I: Index) => FiberAt(t, (J: Index) => Drop(J, mask), P, I);
    var g := (K: Index) => SumTerm(w, R, Reader(t, ls), K);
    var there := (I: Index) => Keep(I, mask);
    var back := (K: Index) => if |K| == |R| then Coords(ls, Assign(w, R, K)) else [];
    forall I | Valid(t.shape, I) && f(I) != 0.0
      ensures Valid(Sizes(R, ext), there(I)) && g(there(I)) == f(I) && back(there(I)) == I
    {
      ReduceThere(t, ls, ext, mask, w, I);
    }
    forall K | Valid(Sizes(R, ext), K) && g(K) != 0.0
      ensures Valid(t.shape, back(K)) && f(back(K)) == g(K) && there(back(K)) == K
    {
      ValidLen(Sizes(R, ext), K);
      AssignSplits(ls, mask, w, K);
    }
    SumIxTransfer(t.shape, Sizes(R, ext), f, g, there, back);
    assert At(ReduceSum(t, mask), P) == SumIx(t.shape, f);
  }

  lemma ReduceThere(t: Tensor, ls: Labels, ext: Extents, mask: seq<bool>, w: Assignment, I: Index)
    requires Labelled(t, ls, ext) && Distinct(ls) && |mask| == |ls| && Valid(t.shape, I)
    requires Drop(I, mask) == Coords(Drop(ls, mask), w)
    ensures Valid(Sizes(Keep(ls, mask), ext), Keep(I, mask)) && |Keep(I, mask)| == |Keep(ls, mask)|
    ensures Coords(ls, Assign(w, Keep(ls, mask), Keep(I, mask))) == I
  {
    hide Size, Assign;
    KeepRestores(ls, mask, w, I);
    DropValid(t.shape, Complement(mask), I);
    DropSizes(ls, Complement(mask), ext);
  }
}
