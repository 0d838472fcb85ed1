/** The einsum operation: equation syntax, validation, lowering loops and the meaning of the result. */
module EinsumProgram {
  import opened Lists
  import opened Options
  import opened Products
  import opened Sums
  import opened Shapes
  import opened IndexSums
  import opened Tensors
  import opened TensorOps
  import opened Contractions
  import opened Labels
  import opened Einsum

  // ----- syntax -----

  predicate Whitespace(c: char)
  {
    c == ' ' || c == '\t' || c == '\n' || c == '\r' || c == '\U{000C}'
  }

  predicate Letter(c: char)
  {
    'a' <= c <= 'z' || 'A' <= c <= 'Z'
  }

  predicate Letters(s: string)
  {
    forall i :: 0 <= i < |s| ==> Letter(s[i])
  }

  function Strip(s: string): string
  {
    if s == "" then "" else if Whitespace(s[0]) then Strip(s[1..]) else [s[0]] + Strip(s[1..])
  }

  /** Split at the first occurrence of a separator. */
  function SplitOnce(s: string, sep: string): (r: Option<(string, string)>)
    requires sep != ""
    ensures r.Some? ==> s == r.value.0 + sep + r.value.1
    decreases |s|
  {
    if |s| < |sep| then None
    else if s[..|sep|] == sep then Some(("", s[|sep|..]))
    else
      match SplitOnce(s[1..], sep)
      case None => None
      case Some((a, b)) => Some(([s[0]] + a, b))
  }

  datatype Equation = Equation(left: Labels, right: Labels, output: Labels)

  function Parse(text: string): Option<Equation>
  {
    match SplitOnce(Strip(text), "->")
    case None => None
    case Some((inputs, output)) =>
      match SplitOnce(inputs, ",")
      case None => None
      case Some((left, right)) =>
        if Letters(left) && Letters(right) && Letters(output) then Some(Equation(left, right, output)) else None
  }

  function Written(eq: Equation): string
  {
    eq.left + "," + eq.right + "->" + eq.output
  }

  lemma {:induction false} StripClean(s: string)
    requires forall i :: 0 <= i < |s| ==> !Whitespace(s[i])
    ensures Strip(s) == s
  {
    if s != "" {
      StripClean(s[1..]);
    }
  }

  lemma {:induction false} StripConcat(s: string, t: string)
    ensures Strip(s + t) == Strip(s) + Strip(t)
  {
    if s == "" {
      assert s + t == t;
    } else {
      assert (s + t)[1..] == s[1..] + t;
      StripConcat(s[1..], t);
    }
  }

  /** A separator that starts nowhere earlier is split at. */
  lemma {:induction false} SplitAt(a: string, sep: string, b: string)
    requires sep != "" && forall i :: 0 <= i < |a| ==> a[i] != sep[0]
    ensures SplitOnce(a + sep + b, sep) == Some((a, b))
  {
    var s := a + sep + b;
    if a == "" {
      assert s[..|sep|] == sep && s[|sep|..] == b;
    } else {
      assert s[0] == a[0] && s[..|sep|][0] == a[0];
      assert s[1..] == a[1..] + sep + b;
      SplitAt(a[1..], sep, b);
      assert [s[0]] + a[1..] == a;
    }
  }

  /** Every equation over ASCII letters parses back from its text, whatever whitespace is inserted. */
  lemma ParseWritten(eq: Equation, text: string)
    requires Letters(eq.left) && Letters(eq.right) && Letters(eq.output) && Strip(text) == Written(eq)
    ensures Parse(text) == Some(eq)
  {
    var inputs := eq.left + "," + eq.right;
    assert Written(eq) == inputs + "->" + eq.output;
    SplitAt(inputs, "->", eq.output);
    SplitAt(eq.left, ",", eq.right);
  }

  /** Only written equations parse. */
  lemma ParseSound(text: string)
    ensures Parse(text).Some? ==>
      var eq := Parse(text).value; Strip(text) == Written(eq) && Letters(eq.left) && Letters(eq.right) && Letters(eq.output)
  {
  }

  // ----- validation -----

  /** Equal labels have equal extents. */
  predicate Consistent(labels: Labels, shape: Shape)
    requires |labels| == |shape|
  {
    forall i, j :: 0 <= i < |labels| && 0 <= j < |labels| && labels[i] == labels[j] ==> shape[i] == shape[j]
  }

  function ExtentMap(labels: Labels, shape: Shape): Extents
    requires |labels| == |shape|
  {
    map c | c in labels :: shape[PosIn(labels, c)]
  }

  predicate EinsumOk(eq: Equation, l: Shape, r: Shape)
  {
    && |eq.left| == |l| && |eq.right| == |r|
    && Consistent(eq.left + eq.right, l + r)
    && Distinct(eq.output) && forall c :: c in eq.output ==> c in eq.left + eq.right
  }

  /** The extent of every label, or nothing when two axes of one label differ. */
  method Dimensions(labels: Labels, shape: Shape) returns (dims: Option<Extents>)
    requires |labels| == |shape|
    ensures dims.Some? <==> Consistent(labels, shape)
    ensures dims.Some? ==> dims.value == ExtentMap(labels, shape)
  {
    var found: Extents, i := map[], 0;
    while i < |labels|
      invariant 0 <= i <= |labels|
      invariant forall c :: c in found <==> c in labels[..i]
      invariant forall j :: 0 <= j < i ==> labels[j] in found && found[labels[j]] == shape[j]
    {
      if labels[i] in found && found[labels[i]] != shape[i] {
        var j: nat :| j < i && labels[..i][j] == labels[i];
        assert labels[j] == labels[i] && shape[j] != shape[i];
        return None;
      }
      assert labels[..i + 1] == labels[..i] + [labels[i]];
      found := found[labels[i] := shape[i]];
      i := i + 1;
    }
    assert labels[..i] == labels;
    ExtentsAgree(labels, shape, found);
    return Some(found);
  }

  lemma ExtentsAgree(labels: Labels, shape: Shape, found: Extents)
    requires |labels| == |shape| && forall c :: c in found <==> c in labels
    requires forall j :: 0 <= j < |labels| ==> labels[j] in found && found[labels[j]] == shape[j]
    ensures Consistent(labels, shape) && found == ExtentMap(labels, shape)
  {
    forall c | c in found ensures found[c] == ExtentMap(labels, shape)[c] {
      assert labels[PosIn(labels, c)] == c;
    }
  }

  /** Output labels must be unique and known. */
  method OutputOk(output: Labels, dims: Extents) returns (ok: bool)
    ensures ok <==> Distinct(output) && forall c :: c in output ==> c in dims
  {
    var seen: set<char>, i := {}, 0;
    while i < |output|
      invariant 0 <= i <= |output| && seen == set c | c in output[..i]
      invariant Distinct(output[..i]) && forall c :: c in output[..i] ==> c in dims
    {
      if output[i] !in dims || output[i] in seen {
        if output[i] in dims {
          var j: nat :| j < i && output[..i][j] == output[i];
          assert output[j] == output[i];
        }
        return false;
      }
      assert output[..i + 1] == output[..i] + [output[i]];
      seen := seen + {output[i]};
      i := i + 1;
    }
    assert output[..i] == output;
    return true;
  }

  // ----- meaning -----

  /** A listing of the labels the output leaves out. */
  ghost predicate Omitted(S: Labels, eq: Equation)
  {
    Distinct(S) && forall c :: c in S <==> (c in eq.left || c in eq.right) && c !in eq.output
  }

  /** Every output entry is the sum, over all assignments of the omitted labels in any order, of the operands' product. */
  ghost predicate Means(eq: Equation, l: Tensor, r: Tensor, out: Tensor)
    requires |eq.left| == |l.shape| && |eq.right| == |r.shape|
  {
    var ext := ExtentMap(eq.left + eq.right, l.shape + r.shape);
    && out.shape == Sizes(eq.output, ext)
    && forall o, S {:trigger Assign(map[], eq.output, o), Omitted(S, eq)} ::
      Valid(out.shape, o) && |o| == |eq.output| && Omitted(S, eq) ==>
        At(out, o) == SumOver(S, ext, Joint(l, eq.left, r, eq.right), Assign(map[], eq.output, o))
  }

  /** An omitted label of extent zero leaves no assignments. */
  lemma EmptySum(S: Labels, ext: Extents, f: Assignment -> real, w: Assignment, c: char)
    requires c in S && c in ext && ext[c] == 0
    ensures SumOver(S, ext, f, w) == 0.0
  {
    hide Size, Assign;
    var i: nat :| i < |S| && S[i] == c;
    var s := Sizes(S, ext);
    assert s[i] == 0;
    forall K ensures !Valid(s, K) { NoIndex(s, K); }
    SumIxZero(s, (K: Index) => SumTerm(w, S, f, K));
  }

  // ----- pairing axes by label -----

  /** The labels of u that v does not have, in order. */
  function Without(u: Labels, v: Labels): Labels
  {
    if u == [] then [] else
      var n := |u| - 1;
      Without(u[..n], v) + if u[n] in v then [] else [u[n]]
  }

  lemma {:induction false} FreeWithout(ls: Labels, used: seq<nat>, v: Labels, n: nat)
    requires n <= |ls| && forall i :: 0 <= i < |ls| ==> (i in used <==> ls[i] in v)
    ensures Permuted(ls, Free(n, used)) == Without(ls[..n], v)
  {
    if n > 0 {
      FreeWithout(ls, used, v, n - 1);
      assert ls[..n][..n - 1] == ls[..n - 1];
    }
  }

  /** Pair the axes of two operands with distinct labels, and list the labels of the contraction's result. */
  method Pair(ll: Labels, rl: Labels, output: Labels) returns (s: Pairing, result: Labels)
    requires Distinct(ll) && Distinct(rl)
    ensures PairsBy(s, ll, rl, output)
    ensures var g := GroupingOf(s, ll, rl); result == g.batch + g.left + g.right
  {
    hide Distinct;
    var lc: seq<nat>, rc: seq<nat>, lb: seq<nat>, rb: seq<nat> := [], [], [], [];
    result := [];
    var i := 0;
    while i < |ll|
      invariant 0 <= i <= |ll|
      invariant InRange(|ll|, lc) && InRange(|ll|, lb) && InRange(|rl|, rc) && InRange(|rl|, rb)
      invariant Permuted(ll, lc) == Permuted(rl, rc) && Permuted(ll, lb) == Permuted(rl, rb) == result
      invariant forall x :: x in lb <==> 0 <= x < i && ll[x] in rl && ll[x] in output
      invariant forall x :: x in lc <==> 0 <= x < i && ll[x] in rl && ll[x] !in output
      invariant Ascending(lc) && Ascending(lb)
    {
      var j := PosIn(rl, ll[i]);
      if j < |rl| {
        if ll[i] in output {
          PermutedConcat(ll, lb, [i]);
          PermutedConcat(rl, rb, [j]);
          assert Permuted(ll, [i]) == [ll[i]] == Permuted(rl, [j]);
          AscendingSnoc(lb, i);
          lb, rb, result := lb + [i], rb + [j], result + [ll[i]];
        } else {
          PermutedConcat(ll, lc, [i]);
          PermutedConcat(rl, rc, [j]);
          assert Permuted(ll, [i]) == [ll[i]] == Permuted(rl, [j]);
          AscendingSnoc(lc, i);
          lc, rc := lc + [i], rc + [j];
        }
      }
      i := i + 1;
    }
    s := Pairing(lc, rc, lb, rb);
    AscendingDistinct(lc, lb);
    assert PairsBy(s, ll, rl, output);
    ResultLabels(s, ll, rl, output);
    result := result + Without(ll, rl) + Without(rl, ll);
  }

  predicate Ascending(xs: seq<nat>)
  {
    forall k, l :: 0 <= k < l < |xs| ==> xs[k] < xs[l]
  }

  lemma AscendingSnoc(xs: seq<nat>, i: nat)
    requires Ascending(xs) && forall x :: x in xs ==> x < i
    ensures Ascending(xs + [i])
  {
    forall k, l | 0 <= k < l < |xs + [i]| ensures (xs + [i])[k] < (xs + [i])[l] {
      if l == |xs| {
        assert xs[k] in xs;
      }
    }
  }

  lemma AscendingDistinct(u: seq<nat>, v: seq<nat>)
    requires Ascending(u) && Ascending(v) && forall x :: x in u ==> x !in v
    ensures Distinct(u + v)
  {
    forall k, l | 0 <= k < l < |u + v| ensures (u + v)[k] != (u + v)[l] {
      if k < |u| <= l {
        assert (u + v)[k] in u && (u + v)[l] in v;
      }
    }
  }

  lemma ResultLabels(s: Pairing, ll: Labels, rl: Labels, output: Labels)
    requires PairsBy(s, ll, rl, output) && Distinct(ll) && Distinct(rl)
    ensures var g := GroupingOf(s, ll, rl); g.left == Without(ll, rl) && g.right == Without(rl, ll)
  {
    forall i | 0 <= i < |ll| ensures i in s.leftContract + s.leftBatch <==> ll[i] in rl {
    }
    FreeWithout(ll, s.leftContract + s.leftBatch, rl, |ll|);
    assert ll[..|ll|] == ll;
    forall j | 0 <= j < |rl| ensures j in s.rightContract + s.rightBatch <==> rl[j] in ll {
      UsedRight(s, ll, rl, output, j);
    }
    FreeWithout(rl, s.rightContract + s.rightBatch, ll, |rl|);
    assert rl[..|rl|] == rl;
  }

  // ----- what the lowering computes -----

  /** A lowering of both operands and the axis pairing of the lowered operands. */
  ghost predicate Lowering(eq: Equation, l: Tensor, r: Tensor, ext: Extents, x: Lowered, y: Lowered, s: Pairing)
  {
    && Lowers(x, l, eq.left, ext, eq.right, eq.output)
    && Lowers(y, r, eq.right, ext, x.labels, eq.output)
    && PairsBy(s, x.labels, y.labels, eq.output)
    && (forall c :: c in eq.output ==> c in eq.left || c in eq.right)
    && Distinct(eq.output)
  }

  /** The result carries exactly the output's labels, so none is lost; the contracted and removed labels are the omitted ones. */
  lemma LabelSets(eq: Equation, l: Tensor, r: Tensor, ext: Extents, x: Lowered, y: Lowered, s: Pairing)
    requires Lowering(eq, l, r, ext, x, y, s)
    ensures var g := GroupingOf(s, x.labels, y.labels);
      && SameLabels(g.batch + g.left + g.right, eq.output)
      && Omitted(g.sum + (x.summed + y.summed), eq)
      && Distinct(x.summed + y.summed) && Distinct(y.summed)
      && (forall c :: c in eq.right ==> c !in x.summed) && (forall c :: c in eq.left ==> c !in y.summed)
  {
    hide Distinct, Labelled, SumOver, Read;
    var g := GroupingOf(s, x.labels, y.labels);
    Groups(s, x.labels, y.labels, eq.output);
    hide PairsBy, GroupingOf;
    DistinctJoin(g.batch, g.left);
    DistinctJoin(g.batch + g.left, g.right);
    DistinctJoin(x.summed, y.summed);
    DistinctJoin(g.sum, x.summed + y.summed);
  }

  /** The contraction of the lowered operands has these labels. */
  ghost predicate Contracted(ext: Extents, x: Lowered, y: Lowered, s: Pairing, res: Labels)
  {
    DotOk(x.value.shape, y.value.shape, s) && Labelled(DotGeneral(x.value, y.value, s), res, ext)
  }

  lemma LoweredDotOk(eq: Equation, l: Tensor, r: Tensor, ext: Extents, x: Lowered, y: Lowered, s: Pairing)
    requires Lowering(eq, l, r, ext, x, y, s)
    ensures var g := GroupingOf(s, x.labels, y.labels); Contracted(ext, x, y, s, g.batch + g.left + g.right)
  {
    hide Size, SumOver, Read, DotGeneral;
    PairingDotOk(s, x.value, x.labels, y.value, y.labels, ext, eq.output);
    GroupSizes(s, x.value, x.labels, y.value, y.labels, ext, eq.output);
    Groups(s, x.labels, y.labels, eq.output);
    var g := GroupingOf(s, x.labels, y.labels);
    hide PairsBy, GroupingOf, DotOk, ExtentsOf, Distinct;
    SizesConcat(g.batch, g.left, ext);
    SizesConcat(g.batch + g.left, g.right, ext);
    var all := g.batch + g.left + g.right;
    forall i: nat | i < |all| ensures all[i] in ext {
      assert all[i] in g.batch || all[i] in g.left || all[i] in g.right;
      assert all[i] in x.labels || all[i] in y.labels;
    }
  }

  /** The contraction of the lowered operands, transposed into output order. */
  function Combined(x: Lowered, y: Lowered, s: Pairing, perm: seq<nat>): Tensor
  {
    if DotOk(x.value.shape, y.value.shape, s) && InRange(|DotGeneral(x.value, y.value, s).shape|, perm) then
      Transpose(DotGeneral(x.value, y.value, s), perm)
    else Fill([], 0.0)
  }

  /** The permutation takes the contraction's labels to the output's. */
  ghost predicate Arranged(output: Labels, ext: Extents, x: Lowered, y: Lowered, s: Pairing, perm: seq<nat>)
  {
    var g := GroupingOf(s, x.labels, y.labels);
    var res := g.batch + g.left + g.right;
    && Contracted(ext, x, y, s, res)
    && InRange(|res|, perm) && IsPerm(perm, |res|) && Permuted(res, perm) == output
  }

  lemma CombinedReads(output: Labels, ext: Extents, x: Lowered, y: Lowered, s: Pairing, perm: seq<nat>, w: Assignment)
    requires Arranged(output, ext, x, y, s, perm)
    requires var g := GroupingOf(s, x.labels, y.labels); Inside(g.batch + g.left + g.right, ext, w)
    ensures Combined(x, y, s, perm).shape == Sizes(output, ext)
    ensures DotOk(x.value.shape, y.value.shape, s)
    ensures var g := GroupingOf(s, x.labels, y.labels);
      Read(Combined(x, y, s, perm), output, w) == Read(DotGeneral(x.value, y.value, s), g.batch + g.left + g.right, w)
  {
    var g := GroupingOf(s, x.labels, y.labels);
    var t := DotGeneral(x.value, y.value, s);
    hide Size, At, DotGeneral, DotOk, GroupingOf, Transpose, IsPerm, Inside;
    OutputReads(t, g.batch + g.left + g.right, output, perm, ext, w);
  }

  lemma CombinedShape(output: Labels, ext: Extents, x: Lowered, y: Lowered, s: Pairing, perm: seq<nat>)
    requires Arranged(output, ext, x, y, s, perm)
    ensures Combined(x, y, s, perm).shape == Sizes(output, ext)
  {
    var g := GroupingOf(s, x.labels, y.labels);
    hide Size, DotGeneral, DotOk, GroupingOf, IsPerm;
    PermutedSizes(g.batch + g.left + g.right, ext, perm);
  }

  /** The contraction read in labels. */
  lemma ContractionReads(eq: Equation, l: Tensor, r: Tensor, ext: Extents, x: Lowered, y: Lowered, s: Pairing, w: Assignment)
    requires Lowering(eq, l, r, ext, x, y, s) && DotOk(x.value.shape, y.value.shape, s)
    requires var g := GroupingOf(s, x.labels, y.labels); Inside(g.batch, ext, w) && Inside(g.left, ext, w) && Inside(g.right, ext, w)
    ensures var g := GroupingOf(s, x.labels, y.labels);
      Read(DotGeneral(x.value, y.value, s), g.batch + g.left + g.right, w)
        == SumOver(g.sum, ext, Joint(x.value, x.labels, y.value, y.labels), w)
  {
    hide Size, At, DotGeneral, SumOver, Assign, PairsBy, GroupingOf, Labelled, DotOk, Joint, Inside, Distinct, Read;
    DotReads(s, x.value, x.labels, y.value, y.labels, ext, eq.output, w);
  }

  /** Summing the lowered product over the contracted labels is summing the original product over the omitted ones. */
  lemma SumsAgree(eq: Equation, l: Tensor, r: Tensor, ext: Extents, x: Lowered, y: Lowered, s: Pairing, w: Assignment, S: Labels)
    requires Lowering(eq, l, r, ext, x, y, s) && Omitted(S, eq)
    ensures var g := GroupingOf(s, x.labels, y.labels);
      SumOver(g.sum, ext, Joint(x.value, x.labels, y.value, y.labels), w) == SumOver(S, ext, Joint(l, eq.left, r, eq.right), w)
  {
    LabelSets(eq, l, r, ext, x, y, s);
    var g := GroupingOf(s, x.labels, y.labels);
    hide Size, At, SumOver, Assign, PairsBy, GroupingOf, Labelled, Joint, Reader, Distinct, Read;
    SumOfLowered(x, y, l, eq.left, r, eq.right, g.sum, ext, w);
    SumOverPerm(g.sum + (x.summed + y.summed), S, ext, Joint(l, eq.left, r, eq.right), w);
  }

  lemma LoweredEntry(eq: Equation, l: Tensor, r: Tensor, ext: Extents, x: Lowered, y: Lowered, s: Pairing, perm: seq<nat>, o: Index, S: Labels)
    requires Lowering(eq, l, r, ext, x, y, s) && Arranged(eq.output, ext, x, y, s, perm) && Distinct(eq.output)
    requires Valid(Sizes(eq.output, ext), o) && |o| == |eq.output| && Omitted(S, eq) && forall c :: c in eq.output ==> c in ext
    ensures At(Combined(x, y, s, perm), o) == SumOver(S, ext, Joint(l, eq.left, r, eq.right), Assign(map[], eq.output, o))
  {
    hide Size, At, DotGeneral, SumOver, Assign, Valid, GroupingOf, DotOk, Joint, Combined, Arranged, Inside, Distinct, Lowering, Omitted;
    var w := Assign(map[], eq.output, o);
    CoordsAssign(map[], eq.output, o, []);
    LoweredInside(eq, l, r, ext, x, y, s, o);
    CombinedReads(eq.output, ext, x, y, s, perm, w);
    ContractionReads(eq, l, r, ext, x, y, s, w);
    SumsAgree(eq, l, r, ext, x, y, s, w, S);
  }

  lemma LoweredInside(eq: Equation, l: Tensor, r: Tensor, ext: Extents, x: Lowered, y: Lowered, s: Pairing, o: Index)
    requires Lowering(eq, l, r, ext, x, y, s) && Valid(Sizes(eq.output, ext), o) && |o| == |eq.output| && Distinct(eq.output)
    requires forall c :: c in eq.output ==> c in ext
    ensures var g, w := GroupingOf(s, x.labels, y.labels), Assign(map[], eq.output, o);
      Inside(g.batch + g.left + g.right, ext, w) && Inside(g.batch, ext, w) && Inside(g.left, ext, w) && Inside(g.right, ext, w)
  {
    var g, w := GroupingOf(s, x.labels, y.labels), Assign(map[], eq.output, o);
    LabelSets(eq, l, r, ext, x, y, s);
    hide GroupingOf, Assign, Lowering, Valid, Distinct, Inside;
    OutputInside(eq.output, ext, o);
    InsideSame(g.batch + g.left + g.right, eq.output, ext, w);
    InsideParts(g.batch, g.left, g.right, ext, w);
  }

  lemma InsideParts(a: Labels, b: Labels, c: Labels, ext: Extents, w: Assignment)
    requires Inside(a + b + c, ext, w)
    ensures Inside(a, ext, w) && Inside(b, ext, w) && Inside(c, ext, w)
  {
    var all := a + b + c;
    assert forall i :: 0 <= i < |a| ==> a[i] == all[i];
    assert forall i :: 0 <= i < |b| ==> b[i] == all[|a| + i];
    assert forall i :: 0 <= i < |c| ==> c[i] == all[|a| + |b| + i];
  }

  lemma OutputInside(output: Labels, ext: Extents, o: Index)
    requires Distinct(output) && Valid(Sizes(output, ext), o) && |o| == |output|
    requires forall c :: c in output ==> c in ext
    ensures Inside(output, ext, Assign(map[], output, o))
  {
    hide Assign;
    forall i: nat | i < |output| ensures output[i] in ext && 0 <= Get(Assign(map[], output, o), output[i]) < ext[output[i]] {
      assert output[i] in output;
      AssignGet(map[], output, o, output[i]);
      PosOf(output, i);
      assert 0 <= o[i] < Sizes(output, ext)[i];
    }
  }

  lemma ExtentAt(labels: Labels, shape: Shape, i: nat)
    requires |labels| == |shape| && Consistent(labels, shape) && i < |labels|
    ensures labels[i] in ExtentMap(labels, shape) && ExtentMap(labels, shape)[labels[i]] == shape[i]
  {
    assert labels[PosIn(labels, labels[i])] == labels[i];
  }

  /** A run of the labels agrees with the same run of the extents. */
  lemma RunLabelled(t: Tensor, ls: Labels, labels: Labels, shape: Shape, from: nat)
    requires |labels| == |shape| && Consistent(labels, shape) && from + |ls| <= |labels| && |ls| == |t.shape|
    requires forall i :: 0 <= i < |ls| ==> labels[from + i] == ls[i] && shape[from + i] == t.shape[i]
    ensures Labelled(t, ls, ExtentMap(labels, shape))
  {
    hide Size, ExtentMap, Consistent;
    forall i: nat | i < |ls| ensures ls[i] in ExtentMap(labels, shape) && Sizes(ls, ExtentMap(labels, shape))[i] == t.shape[i] {
      ExtentAt(labels, shape, from + i);
    }
  }

  lemma ExtentMapLabels(eq: Equation, l: Tensor, r: Tensor)
    requires EinsumOk(eq, l.shape, r.shape)
    ensures var ext := ExtentMap(eq.left + eq.right, l.shape + r.shape);
      && Labelled(l, eq.left, ext) && Labelled(r, eq.right, ext)
      && (forall c :: c in ext <==> c in eq.left || c in eq.right)
      && (forall c :: c in eq.output ==> c in ext)
  {
    hide Size, ExtentMap, Consistent, Labelled, Distinct;
    var labels, shape := eq.left + eq.right, l.shape + r.shape;
    RunLabelled(l, eq.left, labels, shape, 0);
    RunLabelled(r, eq.right, labels, shape, |eq.left|);
    KnownLabels(labels, shape);
  }

  lemma ZeroMeans(eq: Equation, l: Tensor, r: Tensor, c: char)
    requires EinsumOk(eq, l.shape, r.shape)
    requires var ext := ExtentMap(eq.left + eq.right, l.shape + r.shape); c in ext && ext[c] == 0 && c !in eq.output
    ensures var ext := ExtentMap(eq.left + eq.right, l.shape + r.shape); Means(eq, l, r, Fill(Sizes(eq.output, ext), 0.0))
  {
    var ext := ExtentMap(eq.left + eq.right, l.shape + r.shape);
    ExtentMapLabels(eq, l, r);
    hide Size, At, Assign, SumOver, ExtentMap;
    var out := Fill(Sizes(eq.output, ext), 0.0);
    forall o, S | Valid(out.shape, o) && |o| == |eq.output| && Omitted(S, eq)
      ensures At(out, o) == SumOver(S, ext, Joint(l, eq.left, r, eq.right), Assign(map[], eq.output, o))
    {
      EmptySum(S, ext, Joint(l, eq.left, r, eq.right), Assign(map[], eq.output, o), c);
    }
  }

  lemma IntroMeans(eq: Equation, l: Tensor, r: Tensor, out: Tensor)
    requires |eq.left| == |l.shape| && |eq.right| == |r.shape|
    requires var ext := ExtentMap(eq.left + eq.right, l.shape + r.shape);
      && out.shape == Sizes(eq.output, ext)
      && forall o, S {:trigger Assign(map[], eq.output, o), Omitted(S, eq)} ::
        Valid(Sizes(eq.output, ext), o) && |o| == |eq.output| && Omitted(S, eq) ==>
          At(out, o) == SumOver(S, ext, Joint(l, eq.left, r, eq.right), Assign(map[], eq.output, o))
    ensures Means(eq, l, r, out)
  {
    hide Size, At, Assign, SumOver, ExtentMap, Valid, Omitted, Joint, Sizes;
  }

  lemma LoweredEntries(eq: Equation, l: Tensor, r: Tensor, ext: Extents, x: Lowered, y: Lowered, s: Pairing, perm: seq<nat>)
    requires Lowering(eq, l, r, ext, x, y, s) && Arranged(eq.output, ext, x, y, s, perm)
    requires Distinct(eq.output) && forall c :: c in eq.output ==> c in ext
    ensures forall o, S {:trigger Assign(map[], eq.output, o), Omitted(S, eq)} ::
      Valid(Sizes(eq.output, ext), o) && |o| == |eq.output| && Omitted(S, eq) ==>
        At(Combined(x, y, s, perm), o) == SumOver(S, ext, Joint(l, eq.left, r, eq.right), Assign(map[], eq.output, o))
  {
    hide *;
    forall o, S {:trigger Assign(map[], eq.output, o), Omitted(S, eq)} | Valid(Sizes(eq.output, ext), o) && |o| == |eq.output| && Omitted(S, eq)
      ensures At(Combined(x, y, s, perm), o) == SumOver(S, ext, Joint(l, eq.left, r, eq.right), Assign(map[], eq.output, o))
    {
      LoweredEntry(eq, l, r, ext, x, y, s, perm, o, S);
    }
  }

  lemma LoweredMeans(eq: Equation, l: Tensor, r: Tensor, ext: Extents, x: Lowered, y: Lowered, s: Pairing, perm: seq<nat>)
    requires |eq.left| == |l.shape| && |eq.right| == |r.shape| && ext == ExtentMap(eq.left + eq.right, l.shape + r.shape)
    requires Lowering(eq, l, r, ext, x, y, s) && Arranged(eq.output, ext, x, y, s, perm)
    requires Distinct(eq.output) && forall c :: c in eq.output ==> c in ext
    ensures Means(eq, l, r, Combined(x, y, s, perm))
  {
    hide *;
    CombinedShape(eq.output, ext, x, y, s, perm);
    LoweredEntries(eq, l, r, ext, x, y, s, perm);
    IntroMeans(eq, l, r, Combined(x, y, s, perm));
  }

  /** Every rank, label and extent check, before anything is built. */
  method Validate(eq: Equation, l: Tensor, r: Tensor) returns (ext: Option<Extents>)
    ensures ext.Some? <==> EinsumOk(eq, l.shape, r.shape)
    ensures ext.Some? ==> ext.value == ExtentMap(eq.left + eq.right, l.shape + r.shape)
  {
    hide Size, Consistent, Distinct;
    if |eq.left| != |l.shape| || |eq.right| != |r.shape| {
      return None;
    }
    var dims := Dimensions(eq.left + eq.right, l.shape + r.shape);
    if dims.None? {
      return None;
    }
    var known := OutputOk(eq.output, dims.value);
    KnownLabels(eq.left + eq.right, l.shape + r.shape);
    return if known then dims else None;
  }

  lemma KnownLabels(labels: Labels, shape: Shape)
    requires |labels| == |shape|
    ensures forall c :: c in ExtentMap(labels, shape) <==> c in labels
  {
  }

  /** Positions of the output's labels in the contraction's result; every label is found. */
  method OutputOrder(labels: Labels, output: Labels) returns (perm: seq<nat>)
    requires SameLabels(labels, output)
    ensures perm == seq(|output|, (k: nat) requires k < |output| => PosIn(labels, output[k]))
    ensures forall k :: 0 <= k < |perm| ==> perm[k] < |labels|
  {
    perm := [];
    var k := 0;
    while k < |output|
      invariant 0 <= k <= |output| && perm == seq(k, (i: nat) requires i < k => PosIn(labels, output[i]))
      invariant forall i :: 0 <= i < k ==> perm[i] < |labels|
    {
      var position := PosIn(labels, output[k]);
      assert output[k] in labels && position < |labels|;
      perm := perm + [position];
      k := k + 1;
    }
  }

  /** Lower both operands, contract them by label and put the axes in output order. */
  method Lower(eq: Equation, l: Tensor, r: Tensor, ghost ext: Extents) returns (out: Tensor)
    requires EinsumOk(eq, l.shape, r.shape) && ext == ExtentMap(eq.left + eq.right, l.shape + r.shape)
    ensures Means(eq, l, r, out)
  {
    ExtentMapLabels(eq, l, r);
    hide Size, Means, Lowering, Lowers, PairsBy, GroupingOf, DotGeneral, Contracted, ExtentMap, Consistent, Distinct,
      Combined, Arranged, SameLabels, Sizes;
    var x := Operand(l, eq.left, ext, eq.right, eq.output);
    var y := Operand(r, eq.right, ext, x.labels, eq.output);
    LoweredDistinct(x, l, eq.left, ext, eq.right, eq.output);
    LoweredDistinct(y, r, eq.right, ext, x.labels, eq.output);
    var s, labels := Pair(x.labels, y.labels, eq.output);
    ArrangementExists(eq, l, r, ext, x, y, s, labels);
    var perm := OutputOrder(labels, eq.output);
    IntroArranged(eq.output, ext, x, y, s, labels, perm);
    LoweredMeans(eq, l, r, ext, x, y, s, perm);
    out := Combined(x, y, s, perm);
  }

  lemma ArrangementExists(eq: Equation, l: Tensor, r: Tensor, ext: Extents, x: Lowered, y: Lowered, s: Pairing, labels: Labels)
    requires Lowers(x, l, eq.left, ext, eq.right, eq.output) && Lowers(y, r, eq.right, ext, x.labels, eq.output)
    requires PairsBy(s, x.labels, y.labels, eq.output)
    requires Distinct(eq.output) && forall c :: c in eq.output ==> c in eq.left || c in eq.right
    requires var g := GroupingOf(s, x.labels, y.labels); labels == g.batch + g.left + g.right
    ensures Lowering(eq, l, r, ext, x, y, s) && SameLabels(labels, eq.output)
    ensures Contracted(ext, x, y, s, labels)
  {
    hide *;
    IntroLowering(eq, l, r, ext, x, y, s);
    LabelSets(eq, l, r, ext, x, y, s);
    LoweredDotOk(eq, l, r, ext, x, y, s);
  }

  /** The whole operation: it accepts exactly the valid equations, and the result means the summed product. */
  method EinsumOf(text: string, l: Tensor, r: Tensor) returns (result: Option<Tensor>)
    ensures result.Some? <==> Parse(text).Some? && EinsumOk(Parse(text).value, l.shape, r.shape)
    ensures result.Some? ==> Means(Parse(text).value, l, r, result.value)
  {
    hide Size, Parse, Means, EinsumOk, ExtentMap, Sizes;
    var parsed := Parse(text);
    if parsed.None? {
      return None;
    }
    var eq := parsed.value;
    var dims := Validate(eq, l, r);
    if dims.None? {
      return None;
    }
    var ext := dims.value;
    if c :| c in ext && ext[c] == 0 && c !in eq.output {
      ZeroMeans(eq, l, r, c);
      return Some(Fill(Sizes(eq.output, ext), 0.0));
    }
    var out := Lower(eq, l, r, ext);
    return Some(out);
  }

  lemma IntroArranged(output: Labels, ext: Extents, x: Lowered, y: Lowered, s: Pairing, res: Labels, perm: seq<nat>)
    requires var g := GroupingOf(s, x.labels, y.labels); res == g.batch + g.left + g.right
    requires Contracted(ext, x, y, s, res)
    requires SameLabels(res, output) && perm == seq(|output|, (k: nat) requires k < |output| => PosIn(res, output[k]))
    ensures Arranged(output, ext, x, y, s, perm)
  {
    hide Size, GroupingOf, Contracted, SameLabels;
    OutputPerm(res, output);
  }

  lemma LoweredDistinct(x: Lowered, t: Tensor, ls: Labels, ext: Extents, other: Labels, output: Labels)
    requires Lowers(x, t, ls, ext, other, output)
    ensures Distinct(x.labels)
  {
  }

  lemma IntroLowering(eq: Equation, l: Tensor, r: Tensor, ext: Extents, x: Lowered, y: Lowered, s: Pairing)
    requires Lowers(x, l, eq.left, ext, eq.right, eq.output) && Lowers(y, r, eq.right, ext, x.labels, eq.output)
    requires PairsBy(s, x.labels, y.labels, eq.output)
    requires Distinct(eq.output) && forall c :: c in eq.output ==> c in eq.left || c in eq.right
    ensures Lowering(eq, l, r, ext, x, y, s)
  {
    hide Lowers, PairsBy, Distinct;
  }
}
