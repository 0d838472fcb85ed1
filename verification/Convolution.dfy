/** NHWC convolution, its transposed form, its kernel gradient and their adjointness. */
module Convolution {
  import opened Products
  import opened Shapes
  import opened IndexSums
  import opened Tensors
  import opened TensorOps
  import opened Adjoints

  /** Geometry of one spatial axis. */
  datatype Axis = Axis(stride: nat, low: nat, high: nat, dilation: nat)

  /** Axis geometries and the number of feature groups. */
  datatype ConvOptions = ConvOptions(h: Axis, w: Axis, groups: nat)

  predicate AxisOk(ax: Axis)
  {
    ax.stride > 0 && ax.dilation > 0
  }

  // ----- one spatial axis -----

  /** Input coordinate read by output o at kernel tap t. */
  function Tap(ax: Axis, o: int, t: int): int
  {
    o * ax.stride + t * ax.dilation - ax.low
  }

  /** Output coordinate whose tap t reads input coordinate h, or -1. */
  function Untap(ax: Axis, h: int, t: int): int
  {
    var v := h + ax.low - t * ax.dilation;
    if ax.stride > 0 && v >= 0 && v % ax.stride == 0 then v / ax.stride else -1
  }

  lemma TapUntap(ax: Axis, o: int, h: int, t: int)
    requires AxisOk(ax) && o >= 0
    ensures Tap(ax, o, t) == h <==> Untap(ax, h, t) == o
  {
    var s := ax.stride;
    var v := h + ax.low - t * ax.dilation;
    assert v == (v / s) * s + v % s;
    DivModUnique(s, o, 0);
    MulGap(-1, o, s);
    assert v == o * s ==> v / s == o && v % s == 0;
  }

  function Effective(ax: Axis, k: nat): int
    requires k > 0
  {
    (k - 1) * ax.dilation + 1
  }

  /** Forward output extent. */
  function OutExtent(ax: Axis, x: nat, k: nat): nat
    requires AxisOk(ax) && k > 0
  {
    var padded := x + ax.low + ax.high;
    if padded < Effective(ax, k) then 0 else (padded - Effective(ax, k)) / ax.stride + 1
  }

  /** Extra high-end extent requested from the transposed convolution. */
  function OutputPadding(ax: Axis, x: nat, k: nat, y: nat): int
    requires k > 0
  {
    x - ((y - 1) * ax.stride + Effective(ax, k) - ax.low - ax.high)
  }

  /** Transposed output extent. */
  function TransposedExtent(ax: Axis, y: nat, k: nat, extra: int): int
    requires k > 0
  {
    (y - 1) * ax.stride + Effective(ax, k) - ax.low - ax.high + extra
  }

  /** With nonempty output the output padding lies in [0, stride) and restores the input extent exactly. */
  lemma OutputPaddingExact(ax: Axis, x: nat, k: nat)
    requires AxisOk(ax) && k > 0 && OutExtent(ax, x, k) > 0
    ensures 0 <= OutputPadding(ax, x, k, OutExtent(ax, x, k)) < ax.stride
    ensures TransposedExtent(ax, OutExtent(ax, x, k), k, OutputPadding(ax, x, k, OutExtent(ax, x, k))) == x
  {
    var room := x + ax.low + ax.high - Effective(ax, k);
    var q := room / ax.stride;
    assert room == q * ax.stride + room % ax.stride;
    assert (OutExtent(ax, x, k) - 1) * ax.stride == q * ax.stride;
  }

  /** A forward convolution over the transposed output has the transposed input's extent. */
  lemma TransposedForward(ax: Axis, y: nat, k: nat, extra: nat)
    requires AxisOk(ax) && k > 0 && y > 0 && extra < ax.stride
    requires TransposedExtent(ax, y, k, extra) > 0
    ensures OutExtent(ax, TransposedExtent(ax, y, k, extra), k) == y
  {
    var s := ax.stride;
    var room := TransposedExtent(ax, y, k, extra) + ax.low + ax.high - Effective(ax, k);
    assert room == (y - 1) * s + extra;
    MulGap(-1, y - 1, s);
    DivModUnique(s, y - 1, extra);
  }

  // ----- channels -----

  /** Input channel read by output channel co at in-group position ci. */
  function InChannel(co: int, ci: int, cog: nat, cig: nat): int
  {
    if cog > 0 then (co / cog) * cig + ci else -1
  }

  lemma ChannelSwap(co: nat, ci: nat, g: nat, cog: nat, cig: nat)
    requires cog > 0 && cig > 0 && co < g * cog && ci < cig
    ensures 0 <= InChannel(co, ci, cog, cig) < g * cig
    ensures InChannel(co, ci, cog, cig) % cig == ci
    ensures InChannel(InChannel(co, ci, cog, cig), co % cog, cig, cog) == co
  {
    var q := co / cog;
    assert co == q * cog + co % cog;
    MulGap(g - 1, q, cog);
    assert (g - 1) * cog == g * cog - cog;
    DivModUnique(cig, q, ci);
    MulGap(q, g, cig);
    MulGap(-1, q, cig);
  }

  // ----- kernels -----

  const GroupPerm: seq<nat> := [0, 1, 3, 2, 4]

  lemma GroupPermOk()
    ensures IsPerm(GroupPerm, 5) && Inverse(GroupPerm) == GroupPerm
    ensures PosIn(GroupPerm, 0) == 0 && PosIn(GroupPerm, 1) == 1 && PosIn(GroupPerm, 2) == 3
         && PosIn(GroupPerm, 3) == 2 && PosIn(GroupPerm, 4) == 4
  {
    hide PosIn;
    var p := GroupPerm;
    assert p[0] == 0 && p[1] == 1 && p[2] == 3 && p[3] == 2 && p[4] == 4;
    assert IsPerm(p, 5);
    PermPos(p, 0);
    PermPos(p, 1);
    PermPos(p, 2);
    PermPos(p, 3);
    PermPos(p, 4);
    assert Inverse(p) == p;
  }

  lemma GroupPermIx(I: Index)
    requires |I| == 5
    ensures TransposeIx(GroupPerm, I) == [I[0], I[1], I[3], I[2], I[4]]
  {
    hide PosIn, IsPerm;
    GroupPermOk();
  }

  lemma RegroupSizes(a: nat, b: nat, c: nat, g: nat, d: nat)
    ensures Size([a, b, c, Scale(g, d)]) == Size([a, b, c, g, d])
    ensures Size([a, b, Scale(g, c), d]) == Size([a, b, g, c, d])
  {
    hide Scale, Size;
    SizeTwo(g, d);
    SizeMerge([a, b, c], [g, d], []);
    assert [a, b, c] + [g, d] + [] == [a, b, c, g, d];
    assert [a, b, c] + [Scale(g, d)] + [] == [a, b, c, Scale(g, d)];
    SizeTwo(g, c);
    SizeMerge([a, b], [g, c], [d]);
    assert [a, b] + [g, c] + [d] == [a, b, g, c, d];
    assert [a, b] + [Scale(g, c)] + [d] == [a, b, Scale(g, c), d];
  }

  /** Move the group factor of the last axis in front of the third: [a,b,c,g*d] becomes [a,b,g*c,d]. */
  function Regroup(k: Tensor, g: nat, d: nat): (r: Tensor)
    requires |k.shape| == 4 && k.shape[3] == Scale(g, d)
    ensures r.shape == [k.shape[0], k.shape[1], Scale(g, k.shape[2]), d]
  {
    var a, b, c := k.shape[0], k.shape[1], k.shape[2];
    RegroupSizes(a, b, c, g, d);
    assert k.shape == [a, b, c, Scale(g, d)];
    var split := Reshape(k, [a, b, c, g, d]);
    var moved := Transpose(split, GroupPerm);
    assert moved.shape == [a, b, g, c, d];
    Reshape(moved, [a, b, Scale(g, c), d])
  }

  /** Move the group factor of the third axis in front of the last: [a,b,g*c,d] becomes [a,b,c,g*d]. */
  function Ungroup(w: Tensor, g: nat, c: nat): (r: Tensor)
    requires |w.shape| == 4 && w.shape[2] == Scale(g, c)
    ensures r.shape == [w.shape[0], w.shape[1], c, Scale(g, w.shape[3])]
  {
    var a, b, d := w.shape[0], w.shape[1], w.shape[3];
    RegroupSizes(a, b, c, g, d);
    assert w.shape == [a, b, Scale(g, c), d];
    var split := Reshape(w, [a, b, g, c, d]);
    var moved := Transpose(split, GroupPerm);
    assert moved.shape == [a, b, c, g, d];
    Reshape(moved, [a, b, c, Scale(g, d)])
  }

  lemma TransposeInverse(t: Tensor, perm: seq<nat>)
    requires IsPerm(perm, |t.shape|)
    ensures IsPerm(Inverse(perm), |t.shape|) && Permuted(Permuted(t.shape, perm), Inverse(perm)) == t.shape
    ensures Transpose(Transpose(t, perm), Inverse(perm)) == t
  {
    hide Size, At, PosIn, Flat, TransposeIx, Inverse;
    PermutedInverse(perm, t.shape);
    var once := Transpose(t, perm);
    var twice := Transpose(once, Inverse(perm));
    forall I | Valid(t.shape, I) ensures At(twice, I) == At(t, I) {
      TransposeBack(t.shape, perm, I);
    }
    Ext(twice, t);
  }

  lemma TransposeBack(shape: Shape, perm: seq<nat>, I: Index)
    requires IsPerm(perm, |shape|) && Valid(shape, I)
    ensures Valid(Permuted(shape, perm), TransposeIx(Inverse(perm), I))
    ensures TransposeIx(perm, TransposeIx(Inverse(perm), I)) == I
  {
    hide PosIn;
    var J := TransposeIx(Inverse(perm), I);
    TransposeIxInverse(perm, J, I);
    TransposeValid(shape, perm, J);
  }

  lemma TransposeValid(shape: Shape, perm: seq<nat>, J: Index)
    requires IsPerm(perm, |shape|) && |J| == |shape| && Valid(shape, TransposeIx(perm, J))
    ensures Valid(Permuted(shape, perm), J)
  {
    forall a: nat | a < |perm| ensures 0 <= J[a] < shape[perm[a]] {
      PermPos(perm, a);
      assert TransposeIx(perm, J)[perm[a]] == J[a];
    }
  }

  lemma ReshapeReshape(t: Tensor, s: Shape)
    requires Size(s) == Size(t.shape)
    ensures Reshape(Reshape(t, s), t.shape) == t
  {
  }

  /** The two kernel layouts used by grouped convolution and its transpose are mutual inverses. */
  lemma RegroupInverse(k: Tensor, g: nat, d: nat)
    requires |k.shape| == 4 && k.shape[3] == Scale(g, d)
    ensures Ungroup(Regroup(k, g, d), g, k.shape[2]) == k
  {
    hide Size, Scale, At, Transpose, PosIn, TransposeIx;
    var a, b, c := k.shape[0], k.shape[1], k.shape[2];
    RegroupSizes(a, b, c, g, d);
    assert k.shape == [a, b, c, Scale(g, d)];
    GroupPermOk();
    var split := Reshape(k, [a, b, c, g, d]);
    var moved := Transpose(split, GroupPerm);
    assert moved.shape == [a, b, g, c, d];
    ReshapeReshape(moved, [a, b, Scale(g, c), d]);
    TransposeInverse(split, GroupPerm);
    ReshapeReshape(k, [a, b, c, g, d]);
  }

  lemma UngroupInverse(w: Tensor, g: nat, c: nat)
    requires |w.shape| == 4 && w.shape[2] == Scale(g, c)
    ensures Regroup(Ungroup(w, g, c), g, w.shape[3]) == w
  {
    hide Size, Scale, At, Transpose, PosIn, TransposeIx;
    var a, b, d := w.shape[0], w.shape[1], w.shape[3];
    RegroupSizes(a, b, c, g, d);
    assert w.shape == [a, b, Scale(g, c), d];
    GroupPermOk();
    var split := Reshape(w, [a, b, g, c, d]);
    var moved := Transpose(split, GroupPerm);
    assert moved.shape == [a, b, c, g, d];
    ReshapeReshape(moved, [a, b, c, Scale(g, d)]);
    TransposeInverse(split, GroupPerm);
    ReshapeReshape(w, [a, b, g, c, d]);
  }

  lemma MergeThird(a: nat, b: nat, g: nat, c: nat, d: nat, i: nat, j: nat, q: nat, p: nat, r: nat)
    requires i < a && j < b && q < g && p < c && r < d
    ensures Valid([a, b, g, c, d], [i, j, q, p, r]) && Valid([a, b, Scale(g, c), d], [i, j, Scale(q, c) + p, r])
    ensures Flat([a, b, g, c, d], [i, j, q, p, r]) == Flat([a, b, Scale(g, c), d], [i, j, Scale(q, c) + p, r])
  {
    hide Size, Scale, Flat;
    FlatTwo(g, c, q, p);
    SizeTwo(g, c);
    FlatMerge([a, b], [g, c], [d], [i, j], [q, p], [r]);
    assert [a, b] + [g, c] + [d] == [a, b, g, c, d] && [i, j] + [q, p] + [r] == [i, j, q, p, r];
    assert [a, b] + [Size([g, c])] + [d] == [a, b, Scale(g, c), d];
    assert [i, j] + [Flat([g, c], [q, p])] + [r] == [i, j, Scale(q, c) + p, r];
  }

  lemma MergeLast(a: nat, b: nat, c: nat, g: nat, d: nat, i: nat, j: nat, p: nat, q: nat, r: nat)
    requires i < a && j < b && q < g && p < c && r < d
    ensures Valid([a, b, c, g, d], [i, j, p, q, r]) && Valid([a, b, c, Scale(g, d)], [i, j, p, Scale(q, d) + r])
    ensures Flat([a, b, c, g, d], [i, j, p, q, r]) == Flat([a, b, c, Scale(g, d)], [i, j, p, Scale(q, d) + r])
  {
    hide Size, Scale, Flat;
    FlatTwo(g, d, q, r);
    SizeTwo(g, d);
    FlatMerge([a, b, c], [g, d], [], [i, j, p], [q, r], []);
    assert [a, b, c] + [g, d] + [] == [a, b, c, g, d] && [i, j, p] + [q, r] + [] == [i, j, p, q, r];
    assert [a, b, c] + [Size([g, d])] + [] == [a, b, c, Scale(g, d)];
    assert [i, j, p] + [Flat([g, d], [q, r])] + [] == [i, j, p, Scale(q, d) + r];
  }

  /** Entry of a regrouped kernel. */
  lemma RegroupAt(k: Tensor, g: nat, d: nat, i: nat, j: nat, q: nat, p: nat, r: nat)
    requires |k.shape| == 4 && k.shape[3] == Scale(g, d)
    requires i < k.shape[0] && j < k.shape[1] && q < g && p < k.shape[2] && r < d
    ensures At(Regroup(k, g, d), [i, j, Scale(q, k.shape[2]) + p, r]) == At(k, [i, j, p, Scale(q, d) + r])
  {
    hide Size, Scale, At, Flat, IsPerm, Valid, TransposeIx;
    var a, b, c := k.shape[0], k.shape[1], k.shape[2];
    RegroupSizes(a, b, c, g, d);
    assert k.shape == [a, b, c, Scale(g, d)];
    var split := Reshape(k, [a, b, c, g, d]);
    var moved := Transpose(split, GroupPerm);
    assert moved.shape == [a, b, g, c, d];
    MergeThird(a, b, g, c, d, i, j, q, p, r);
    ReshapeAt(moved, [a, b, Scale(g, c), d], [i, j, Scale(q, c) + p, r], [i, j, q, p, r]);
    GroupPermIx([i, j, q, p, r]);
    assert At(moved, [i, j, q, p, r]) == At(split, [i, j, p, q, r]);
    MergeLast(a, b, c, g, d, i, j, p, q, r);
    ReshapeAt(k, [a, b, c, g, d], [i, j, p, q, r], [i, j, p, Scale(q, d) + r]);
  }

  // ----- the three operations -----

  /** What conv2d accepts: x is NHWC, k is HWIO with input channels per group. */
  predicate ConvOk(o: ConvOptions, x: Shape, k: Shape)
  {
    && |x| == 4 && |k| == 4 && AxisOk(o.h) && AxisOk(o.w)
    && o.groups > 0 && x[3] > 0 && (forall a :: 0 <= a < 4 ==> k[a] > 0)
    && x[3] % o.groups == 0 && x[3] / o.groups == k[2] && k[3] % o.groups == 0
  }

  function ConvShape(o: ConvOptions, x: Shape, k: Shape): (s: Shape)
    requires ConvOk(o, x, k)
    ensures |s| == 4
  {
    [x[0], OutExtent(o.h, x[1], k[0]), OutExtent(o.w, x[2], k[1]), k[3]]
  }

  lemma ConvGroups(o: ConvOptions, x: Shape, k: Shape)
    requires ConvOk(o, x, k)
    ensures k[3] / o.groups > 0 && k[3] == Scale(o.groups, k[3] / o.groups) && x[3] == Scale(o.groups, k[2])
  {
    assert k[3] == (k[3] / o.groups) * o.groups + k[3] % o.groups;
    assert x[3] == (x[3] / o.groups) * o.groups + x[3] % o.groups;
  }

  /** Input coordinate of term (n, oh, ow, co, kh, kw, ci). */
  function ConvLeft(o: ConvOptions, k: Shape, M: Index): Index
  {
    if |M| == 7 && |k| == 4 && o.groups > 0 then
      [M[0], Tap(o.h, M[1], M[4]), Tap(o.w, M[2], M[5]), InChannel(M[3], M[6], k[3] / o.groups, k[2])]
    else []
  }

  function ConvRight(M: Index): Index
  {
    if |M| == 7 then [M[4], M[5], M[6], M[3]] else []
  }

  function Conv2d(x: Tensor, k: Tensor, o: ConvOptions): (r: Tensor)
    requires ConvOk(o, x.shape, k.shape)
    ensures r.shape == ConvShape(o, x.shape, k.shape)
  {
    Contract(ConvShape(o, x.shape, k.shape), k.shape[..3], x, (M: Index) => ConvLeft(o, k.shape, M), k, ConvRight)
  }

  /** Position in the input-gradient form of a forward term, and back. */
  function ToInput(o: ConvOptions, k: Shape, M: Index): Index
  {
    if |M| == 7 && |k| == 4 && o.groups > 0 && k[3] / o.groups > 0 then
      ConvLeft(o, k, M) + [M[4], M[5], M[3] % (k[3] / o.groups)]
    else M
  }

  /** Source coordinate of term (n, p, q, co, kh, kw, ci) of a transposed convolution. */
  function TransLeft(o: ConvOptions, w: Shape, M: Index): Index
  {
    if |M| == 7 && |w| == 4 && o.groups > 0 then
      [M[0], Untap(o.h, M[1], M[4]), Untap(o.w, M[2], M[5]), InChannel(M[3], M[6], w[2] / o.groups, w[3])]
    else []
  }

  function TransRight(M: Index): Index
  {
    if |M| == 7 then [M[4], M[5], M[3], M[6]] else []
  }

  /** What conv_transpose2d accepts: y is NHWC, w is HWOI with input channels per group. */
  predicate TransposeOk(o: ConvOptions, eh: int, ew: int, y: Shape, w: Shape)
  {
    && |y| == 4 && |w| == 4 && AxisOk(o.h) && AxisOk(o.w)
    && o.groups > 0 && y[1] > 0 && y[2] > 0 && y[3] > 0 && (forall a :: 0 <= a < 4 ==> w[a] > 0)
    && y[3] % o.groups == 0 && y[3] / o.groups == w[3] && w[2] % o.groups == 0
    && 0 <= eh < o.h.stride && 0 <= ew < o.w.stride
    && TransposedExtent(o.h, y[1], w[0], eh) > 0 && TransposedExtent(o.w, y[2], w[1], ew) > 0
  }

  function TransposeShape(o: ConvOptions, eh: int, ew: int, y: Shape, w: Shape): (s: Shape)
    requires TransposeOk(o, eh, ew, y, w)
    ensures |s| == 4
  {
    [y[0], TransposedExtent(o.h, y[1], w[0], eh), TransposedExtent(o.w, y[2], w[1], ew), w[2]]
  }

  function ConvTranspose2d(y: Tensor, w: Tensor, o: ConvOptions, eh: int, ew: int): (r: Tensor)
    requires TransposeOk(o, eh, ew, y.shape, w.shape)
    ensures r.shape == TransposeShape(o, eh, ew, y.shape, w.shape)
  {
    Contract(TransposeShape(o, eh, ew, y.shape, w.shape), [w.shape[0], w.shape[1], w.shape[3]],
             y, (M: Index) => TransLeft(o, w.shape, M), w, TransRight)
  }

  /** Exchange kernel-gradient order (kh, kw, ci, co, n, oh, ow) and forward order (n, oh, ow, co, kh, kw, ci). */
  function Exchange(M: Index): Index
  {
    if |M| == 7 then [M[4], M[5], M[6], M[3], M[0], M[1], M[2]] else M
  }

  function KernelLeft(o: ConvOptions, k: Shape, M: Index): Index
  {
    ConvLeft(o, k, Exchange(M))
  }

  function KernelRight(M: Index): Index
  {
    Head(4, Exchange(M))
  }

  function KernelGradient(x: Tensor, dy: Tensor, k: Shape, o: ConvOptions): (r: Tensor)
    requires ConvOk(o, x.shape, k) && dy.shape == ConvShape(o, x.shape, k)
    ensures r.shape == k
  {
    Contract(k, dy.shape[..3], x, (M: Index) => KernelLeft(o, k, M), dy, KernelRight)
  }

  lemma KernelSwap(s: Shape, M: Index)
    requires |s| == 7 && |M| == 7
    ensures Exchange(Exchange(M)) == M
    ensures Valid(s, M) <==> Valid([s[4], s[5], s[6], s[3], s[0], s[1], s[2]], Exchange(M))
  {
    var t, K := [s[4], s[5], s[6], s[3], s[0], s[1], s[2]], Exchange(M);
    assert t[0] == s[4] && t[1] == s[5] && t[2] == s[6] && t[3] == s[3] && t[4] == s[0] && t[5] == s[1] && t[6] == s[2];
    assert K[0] == M[4] && K[1] == M[5] && K[2] == M[6] && K[3] == M[3] && K[4] == M[0] && K[5] == M[1] && K[6] == M[2];
  }

  lemma KernelTerm(x: Tensor, k: Tensor, dy: Tensor, o: ConvOptions, M: Index)
    requires |M| == 7
    ensures TriTerm(x, (N: Index) => ConvLeft(o, k.shape, N), k, ConvRight, dy, (N: Index) => Head(4, N), M)
         == TriTerm(x, (N: Index) => KernelLeft(o, k.shape, N), dy, KernelRight, k, (N: Index) => Head(4, N), Exchange(M))
  {
    hide Size, At, Times, ConvLeft;
    assert Exchange(Exchange(M)) == M;
    assert Head(4, Exchange(M)) == ConvRight(M);
    TimesRotate(At(x, ConvLeft(o, k.shape, M)), At(k, ConvRight(M)), At(dy, Head(4, M)));
  }

  lemma ConvTri(x: Tensor, k: Tensor, o: ConvOptions, dy: Tensor)
    requires ConvOk(o, x.shape, k.shape) && dy.shape == ConvShape(o, x.shape, k.shape)
    ensures Inner(dy, Conv2d(x, k, o))
         == TriSum(dy.shape + k.shape[..3], x, (M: Index) => ConvLeft(o, k.shape, M), k, ConvRight, dy, (M: Index) => Head(4, M))
  {
    hide Size, At, Times;
    ContractTri(dy.shape, k.shape[..3], x, (M: Index) => ConvLeft(o, k.shape, M), k, ConvRight, dy);
  }

  /** Convolution is adjoint, in its kernel, to the kernel gradient. */
  lemma ConvKernelAdjoint(x: Tensor, k: Tensor, o: ConvOptions, dy: Tensor)
    requires ConvOk(o, x.shape, k.shape) && dy.shape == ConvShape(o, x.shape, k.shape)
    ensures Inner(dy, Conv2d(x, k, o)) == Inner(KernelGradient(x, dy, k.shape, o), k)
  {
    hide Size, At, Times, Inner, TriTerm, TriSum, ConvLeft, ConvRight, Exchange, KernelLeft, KernelRight, Valid;
    var left := (M: Index) => ConvLeft(o, k.shape, M);
    var kleft := (M: Index) => KernelLeft(o, k.shape, M);
    var head := (M: Index) => Head(4, M);
    var swap := (M: Index) => Exchange(M);
    var s, t := dy.shape + k.shape[..3], k.shape + dy.shape[..3];
    assert t == [s[4], s[5], s[6], s[3], s[0], s[1], s[2]];
    assert s == [t[4], t[5], t[6], t[3], t[0], t[1], t[2]];
    forall M | Valid(s, M)
      ensures Valid(t, swap(M)) && swap(swap(M)) == M
      ensures TriTerm(x, kleft, dy, KernelRight, k, head, swap(M)) == TriTerm(x, left, k, ConvRight, dy, head, M)
    {
      ValidLength(s, M);
      KernelSwap(s, M);
      KernelTerm(x, k, dy, o, M);
    }
    forall M | Valid(t, M)
      ensures Valid(s, swap(M)) && swap(swap(M)) == M
      ensures TriTerm(x, left, k, ConvRight, dy, head, swap(M)) == TriTerm(x, kleft, dy, KernelRight, k, head, M)
    {
      ValidLength(t, M);
      KernelSwap(t, M);
      ExchangeLength(M);
      KernelTerm(x, k, dy, o, Exchange(M));
    }
    TriTransfer(s, x, left, k, ConvRight, dy, head, t, x, kleft, dy, KernelRight, k, head, swap, swap);
    ConvTri(x, k, o, dy);
    KernelTri(x, k, o, dy);
  }

  lemma ExchangeLength(M: Index)
    ensures |Exchange(M)| == |M|
  {
  }

  lemma KernelTri(x: Tensor, k: Tensor, o: ConvOptions, dy: Tensor)
    requires ConvOk(o, x.shape, k.shape) && dy.shape == ConvShape(o, x.shape, k.shape)
    ensures Inner(KernelGradient(x, dy, k.shape, o), k)
         == TriSum(k.shape + dy.shape[..3], x, (M: Index) => KernelLeft(o, k.shape, M), dy, KernelRight, k, (M: Index) => Head(4, M))
  {
    hide Size, At, Times, Inner;
    ContractTri(k.shape, dy.shape[..3], x, (M: Index) => KernelLeft(o, k.shape, M), dy, KernelRight, k);
    InnerComm(k, KernelGradient(x, dy, k.shape, o));
  }

  // ----- input gradient -----

  /** Kernel layout handed to the transposed convolution: grouped HWIO becomes grouped HWOI. */
  function GradientKernel(k: Tensor, o: ConvOptions, x: Shape): (w: Tensor)
    requires ConvOk(o, x, k.shape)
    ensures w.shape == [k.shape[0], k.shape[1], x[3], k.shape[3] / o.groups]
  {
    ConvGroups(o, x, k.shape);
    if o.groups == 1 then
      ScaleUnit(k.shape[2]);
      ScaleUnit(k.shape[3]);
      assert k.shape == [k.shape[0], k.shape[1], x[3], k.shape[3]];
      k
    else Regroup(k, o.groups, k.shape[3] / o.groups)
  }

  /** A transposed convolution of dy with the re-laid kernel and the exact output padding is well formed. */
  lemma InputGradientOk(x: Tensor, k: Tensor, o: ConvOptions, dy: Tensor)
    requires ConvOk(o, x.shape, k.shape) && dy.shape == ConvShape(o, x.shape, k.shape)
    requires dy.shape[1] > 0 && dy.shape[2] > 0 && x.shape[1] > 0 && x.shape[2] > 0
    ensures var w := GradientKernel(k, o, x.shape).shape;
      var eh, ew := OutputPadding(o.h, x.shape[1], k.shape[0], dy.shape[1]), OutputPadding(o.w, x.shape[2], k.shape[1], dy.shape[2]);
      TransposeOk(o, eh, ew, dy.shape, w) && TransposeShape(o, eh, ew, dy.shape, w) == x.shape
  {
    hide Size;
    ConvGroups(o, x.shape, k.shape);
    var g, cog := o.groups, k.shape[3] / o.groups;
    OutputPaddingExact(o.h, x.shape[1], k.shape[0]);
    OutputPaddingExact(o.w, x.shape[2], k.shape[1]);
    DivModUnique(g, k.shape[2], 0);
    DivModUnique(g, cog, 0);
  }

  function InputGradient(x: Shape, k: Tensor, o: ConvOptions, dy: Tensor): (r: Tensor)
    requires ConvOk(o, x, k.shape) && dy.shape == ConvShape(o, x, k.shape)
    requires dy.shape[1] > 0 && dy.shape[2] > 0 && x[1] > 0 && x[2] > 0
    ensures r.shape == x
  {
    InputGradientOk(Fill(x, 0.0), k, o, dy);
    ConvTranspose2d(dy, GradientKernel(k, o, x), o,
                    OutputPadding(o.h, x[1], k.shape[0], dy.shape[1]), OutputPadding(o.w, x[2], k.shape[1], dy.shape[2]))
  }

  lemma GradientKernelAt(k: Tensor, o: ConvOptions, x: Shape, i: int, j: int, co: int, ci: int)
    requires ConvOk(o, x, k.shape) && Valid(k.shape, [i, j, ci, co])
    ensures k.shape[3] / o.groups > 0
    ensures At(GradientKernel(k, o, x), [i, j, InChannel(co, ci, k.shape[3] / o.groups, k.shape[2]), co % (k.shape[3] / o.groups)])
         == At(k, [i, j, ci, co])
  {
    hide Size, At;
    ConvGroups(o, x, k.shape);
    ValidFour(k.shape, i, j, ci, co);
    var cog := k.shape[3] / o.groups;
    var q, r := co / cog, co % cog;
    assert co == q * cog + r;
    if o.groups == 1 {
      ScaleUnit(k.shape[3]);
      DivModUnique(cog, 0, co);
    } else {
      GroupBound(co, o.groups, cog);
      RegroupAt(k, o.groups, cog, i, j, q, ci, r);
    }
  }

  lemma ValidFour(s: Shape, i: int, j: int, p: int, q: int)
    requires |s| == 4
    ensures Valid(s, [i, j, p, q]) <==> 0 <= i < s[0] && 0 <= j < s[1] && 0 <= p < s[2] && 0 <= q < s[3]
  {
    if Valid(s, [i, j, p, q]) {
      assert [i, j, p, q][0] == i && [i, j, p, q][1] == j && [i, j, p, q][2] == p && [i, j, p, q][3] == q;
    }
  }

  lemma GroupBound(co: nat, g: nat, cog: nat)
    requires cog > 0 && co < Scale(g, cog)
    ensures co / cog < g
  {
    Borrow(g, cog, co);
  }

  /** The forward term behind an input-gradient term. */
  function FromInput(o: ConvOptions, w: Shape, cig: nat, M: Index): Index
  {
    if |M| == 7 && |w| == 4 && cig > 0 then TransLeft(o, w, M) + [M[4], M[5], M[3] % cig] else M
  }

  /** Extents shared by a convolution, its kernel and the re-laid kernel. */
  ghost predicate Linked(o: ConvOptions, x: Shape, k: Shape, w: Shape, cog: nat)
  {
    && |x| == 4 && |k| == 4 && AxisOk(o.h) && AxisOk(o.w) && o.groups > 0
    && k[2] > 0 && cog > 0 && k[3] / o.groups == cog
    && k[3] == Scale(o.groups, cog) && x[3] == Scale(o.groups, k[2])
    && w == [k[0], k[1], x[3], cog] && x[3] / o.groups == k[2]
  }

  lemma ValidSeven(s: Shape, M: Index)
    requires |s| == 7 && |M| == 7
    ensures Valid(s, M) <==> Valid(s[..4], M[..4]) && 0 <= M[4] < s[4] && 0 <= M[5] < s[5] && 0 <= M[6] < s[6]
  {
    if Valid(s[..4], M[..4]) {
      assert forall a :: 0 <= a < 4 ==> M[a] == M[..4][a] && s[a] == s[..4][a];
    }
  }

  lemma ToInputStep(o: ConvOptions, x: Shape, k: Shape, w: Shape, cog: nat, s: Shape, M: Index)
    requires Linked(o, x, k, w, cog)
    requires |s| == 7 && s[3] == k[3] && s[4] == k[0] && s[5] == k[1] && s[6] == k[2] && Valid(s, M)
    ensures |ToInput(o, k, M)| == 7
    ensures TransLeft(o, w, ToInput(o, k, M)) == M[..4]
    ensures FromInput(o, w, k[2], ToInput(o, k, M)) == M
    ensures Head(4, ToInput(o, k, M)) == ConvLeft(o, k, M)
    ensures Valid(x, ConvLeft(o, k, M)) ==> Valid(x + [k[0], k[1], cog], ToInput(o, k, M))
  {
    hide Tap, Untap, InChannel, Size;
    var N := ToInput(o, k, M);
    TapUntap(o.h, M[1], N[1], M[4]);
    TapUntap(o.w, M[2], N[2], M[5]);
    ChannelSwap(M[3], M[6], o.groups, cog, k[2]);
    assert TransLeft(o, w, N) == M[..4];
    if Valid(x, ConvLeft(o, k, M)) {
      ValidSeven(x + [k[0], k[1], cog], N);
      assert N[..4] == ConvLeft(o, k, M) && (x + [k[0], k[1], cog])[..4] == x;
    }
  }

  lemma FromInputStep(o: ConvOptions, x: Shape, k: Shape, w: Shape, cog: nat, s: Shape, M: Index)
    requires Linked(o, x, k, w, cog)
    requires |s| == 7 && s[3] == k[3] && s[4] == k[0] && s[5] == k[1] && s[6] == k[2]
    requires Valid(x + [k[0], k[1], cog], M) && Valid(s[..4], TransLeft(o, w, M))
    ensures |FromInput(o, w, k[2], M)| == 7 && Valid(s, FromInput(o, w, k[2], M))
    ensures ToInput(o, k, FromInput(o, w, k[2], M)) == M
  {
    hide Tap, Untap, InChannel, Size;
    var N := FromInput(o, w, k[2], M);
    assert forall a :: 0 <= a < 4 ==> N[a] == TransLeft(o, w, M)[a];
    TapUntap(o.h, N[1], M[1], M[4]);
    TapUntap(o.w, N[2], M[2], M[5]);
    ChannelSwap(M[3], M[6], o.groups, k[2], cog);
    ValidSeven(s, N);
    assert N[..4] == TransLeft(o, w, M);
    assert ToInput(o, k, N) == M;
  }

  lemma InputTerm(x: Tensor, k: Tensor, o: ConvOptions, dy: Tensor, cog: nat, s: Shape, M: Index)
    requires ConvOk(o, x.shape, k.shape) && dy.shape == ConvShape(o, x.shape, k.shape)
    requires s == dy.shape + k.shape[..3] && Valid(s, M) && cog == k.shape[3] / o.groups
    ensures var w := GradientKernel(k, o, x.shape);
      TriTerm(x, (N: Index) => ConvLeft(o, k.shape, N), k, ConvRight, dy, (N: Index) => Head(4, N), M)
        == TriTerm(dy, (N: Index) => TransLeft(o, w.shape, N), w, TransRight, x, (N: Index) => Head(4, N), ToInput(o, k.shape, M))
  {
    hide Size, At, Times, GradientKernel, ConvLeft, TransLeft, InChannel;
    ConvGroups(o, x.shape, k.shape);
    var w := GradientKernel(k, o, x.shape);
    var N := ToInput(o, k.shape, M);
    ToInputStep(o, x.shape, k.shape, w.shape, cog, s, M);
    assert Valid(k.shape, [M[4], M[5], M[6], M[3]]);
    GradientKernelAt(k, o, x.shape, M[4], M[5], M[3], M[6]);
    ToInputRight(o, k.shape, M, cog);
    TimesRotate(At(x, ConvLeft(o, k.shape, M)), At(k, ConvRight(M)), At(dy, Head(4, M)));
  }

  lemma ToInputRight(o: ConvOptions, k: Shape, M: Index, cog: nat)
    requires |M| == 7 && |k| == 4 && o.groups > 0 && cog == k[3] / o.groups && cog > 0
    ensures TransRight(ToInput(o, k, M)) == [M[4], M[5], InChannel(M[3], M[6], cog, k[2]), M[3] % cog]
  {
    hide Tap, InChannel;
  }

  lemma InputTri(x: Tensor, k: Tensor, o: ConvOptions, dy: Tensor)
    requires ConvOk(o, x.shape, k.shape) && dy.shape == ConvShape(o, x.shape, k.shape)
    requires dy.shape[1] > 0 && dy.shape[2] > 0 && x.shape[1] > 0 && x.shape[2] > 0
    ensures var w := GradientKernel(k, o, x.shape);
      Inner(InputGradient(x.shape, k, o, dy), x)
        == TriSum(x.shape + [w.shape[0], w.shape[1], w.shape[3]], dy, (M: Index) => TransLeft(o, w.shape, M), w, TransRight, x, (M: Index) => Head(4, M))
  {
    hide Size, At, Times, Inner, GradientKernel;
    InputGradientOk(x, k, o, dy);
    var w := GradientKernel(k, o, x.shape);
    ContractTri(x.shape, [w.shape[0], w.shape[1], w.shape[3]], dy, (M: Index) => TransLeft(o, w.shape, M), w, TransRight, x);
    InnerComm(x, InputGradient(x.shape, k, o, dy));
  }

  lemma InputTransfer(x: Tensor, k: Tensor, o: ConvOptions, dy: Tensor, w: Tensor, cog: nat)
    requires ConvOk(o, x.shape, k.shape) && dy.shape == ConvShape(o, x.shape, k.shape)
    requires w == GradientKernel(k, o, x.shape) && cog == k.shape[3] / o.groups
    ensures TriSum(dy.shape + k.shape[..3], x, (M: Index) => ConvLeft(o, k.shape, M), k, ConvRight, dy, (M: Index) => Head(4, M))
         == TriSum(x.shape + [k.shape[0], k.shape[1], cog], dy, (M: Index) => TransLeft(o, w.shape, M), w, TransRight, x, (M: Index) => Head(4, M))
  {
    hide Size, At, Times, Inner, TriTerm, TriSum, ConvLeft, ConvRight, TransLeft, TransRight, ToInput, FromInput, Valid, GradientKernel;
    ConvGroups(o, x.shape, k.shape);
    var left, tleft := (M: Index) => ConvLeft(o, k.shape, M), (M: Index) => TransLeft(o, w.shape, M);
    var head := (M: Index) => Head(4, M);
    var there, back := (M: Index) => ToInput(o, k.shape, M), (M: Index) => FromInput(o, w.shape, k.shape[2], M);
    var s, t := dy.shape + k.shape[..3], x.shape + [k.shape[0], k.shape[1], cog];
    forall M | Valid(s, M) && TriTerm(x, left, k, ConvRight, dy, head, M) != 0.0
      ensures Valid(t, there(M)) && back(there(M)) == M
      ensures TriTerm(dy, tleft, w, TransRight, x, head, there(M)) == TriTerm(x, left, k, ConvRight, dy, head, M)
    {
      ToInputStep(o, x.shape, k.shape, w.shape, cog, s, M);
      InputTerm(x, k, o, dy, cog, s, M);
      TermReads(x, left, k, ConvRight, dy, head, M);
    }
    forall M | Valid(t, M) && TriTerm(dy, tleft, w, TransRight, x, head, M) != 0.0
      ensures Valid(s, back(M)) && there(back(M)) == M
      ensures TriTerm(x, left, k, ConvRight, dy, head, back(M)) == TriTerm(dy, tleft, w, TransRight, x, head, M)
    {
      TermReads(dy, tleft, w, TransRight, x, head, M);
      assert s[..4] == dy.shape;
      FromInputStep(o, x.shape, k.shape, w.shape, cog, s, M);
      InputTerm(x, k, o, dy, cog, s, back(M));
    }
    TriTransfer(s, x, left, k, ConvRight, dy, head, t, dy, tleft, w, TransRight, x, head, there, back);
  }

  lemma TermReads(A: Tensor, a: Index -> Index, B: Tensor, b: Index -> Index, Y: Tensor, c: Index -> Index, M: Index)
    requires TriTerm(A, a, B, b, Y, c, M) != 0.0
    ensures Valid(A.shape, a(M)) && Valid(B.shape, b(M)) && Valid(Y.shape, c(M))
  {
    TimesNonzero(At(A, a(M)), At(B, b(M)), At(Y, c(M)));
  }

  /** Convolution is adjoint, in its input, to the transposed convolution the reverse rule records. */
  lemma ConvInputAdjoint(x: Tensor, k: Tensor, o: ConvOptions, dy: Tensor)
    requires ConvOk(o, x.shape, k.shape) && dy.shape == ConvShape(o, x.shape, k.shape)
    requires dy.shape[1] > 0 && dy.shape[2] > 0 && x.shape[1] > 0 && x.shape[2] > 0
    ensures Inner(dy, Conv2d(x, k, o)) == Inner(InputGradient(x.shape, k, o, dy), x)
  {
    hide Size, At, Times, Inner, TriSum, Conv2d, InputGradient, GradientKernel;
    ConvTri(x, k, o, dy);
    InputTransfer(x, k, o, dy, GradientKernel(k, o, x.shape), k.shape[3] / o.groups);
    InputTri(x, k, o, dy);
  }

  // ----- reverse rules of the transposed convolution and of the kernel gradient -----

  /** transpose_kernel_as_forward: grouped HWOI becomes the grouped HWIO of the paired convolution. */
  function TransposeKernelAsForward(w: Tensor, g: nat): (k: Tensor)
    requires |w.shape| == 4 && g > 0 && w.shape[2] % g == 0
    ensures k.shape == [w.shape[0], w.shape[1], w.shape[2] / g, Scale(g, w.shape[3])]
  {
    GroupWhole(w.shape[2], g);
    if g == 1 then
      ScaleUnit(w.shape[3]);
      assert w.shape == [w.shape[0], w.shape[1], w.shape[2], w.shape[3]];
      w
    else Ungroup(w, g, w.shape[2] / g)
  }

  /** forward_kernel_as_transpose: the way back. */
  function ForwardKernelAsTranspose(k: Tensor, g: nat): (w: Tensor)
    requires |k.shape| == 4 && g > 0 && k.shape[3] % g == 0
    ensures w.shape == [k.shape[0], k.shape[1], Scale(g, k.shape[2]), k.shape[3] / g]
  {
    GroupWhole(k.shape[3], g);
    if g == 1 then
      ScaleUnit(k.shape[2]);
      assert k.shape == [k.shape[0], k.shape[1], k.shape[2], k.shape[3]];
      k
    else Regroup(k, g, k.shape[3] / g)
  }

  lemma GroupWhole(n: nat, g: nat)
    requires g > 0 && n % g == 0
    ensures n == Scale(g, n / g) && (g == 1 ==> n / g == n)
  {
    assert n == (n / g) * g + n % g;
  }

  lemma GroupCount(g: nat, d: nat)
    requires g > 0
    ensures Scale(g, d) % g == 0 && Scale(g, d) / g == d
  {
    DivModUnique(g, d, 0);
  }

  /** The two re-layouts of autodiff are mutual inverses, for every group count. */
  lemma KernelLayoutsInverse(w: Tensor, k: Tensor, g: nat)
    requires |w.shape| == 4 && |k.shape| == 4 && g > 0 && w.shape[2] % g == 0 && k.shape[3] % g == 0
    ensures Scale(g, w.shape[3]) % g == 0 && Scale(g, k.shape[2]) % g == 0
    ensures ForwardKernelAsTranspose(TransposeKernelAsForward(w, g), g) == w
    ensures TransposeKernelAsForward(ForwardKernelAsTranspose(k, g), g) == k
  {
    hide Size, Scale, Regroup, Ungroup;
    GroupCount(g, w.shape[3]);
    GroupCount(g, k.shape[2]);
    GroupWhole(w.shape[2], g);
    GroupWhole(k.shape[3], g);
    if g != 1 {
      UngroupInverse(w, g, w.shape[2] / g);
      RegroupInverse(k, g, k.shape[3] / g);
    }
  }

  lemma PermuteAdjoint(y: Tensor, x: Tensor)
    requires |x.shape| == 5 && y.shape == [x.shape[0], x.shape[1], x.shape[3], x.shape[2], x.shape[4]]
    ensures Inner(y, Transpose(x, GroupPerm)) == Inner(Transpose(y, GroupPerm), x)
  {
    hide Size, At, Times, Inner, PosIn, TransposeIx;
    GroupPermOk();
    assert y.shape == Permuted(x.shape, GroupPerm);
    TransposeAdjoint(y, x, GroupPerm);
  }

  lemma UngroupAdjoint(y: Tensor, w: Tensor, g: nat, c: nat)
    requires |w.shape| == 4 && w.shape[2] == Scale(g, c) && y.shape == [w.shape[0], w.shape[1], c, Scale(g, w.shape[3])]
    ensures Inner(y, Ungroup(w, g, c)) == Inner(Regroup(y, g, w.shape[3]), w)
  {
    hide Size, At, Times, Inner, Scale, IsPerm, PosIn, TransposeIx;
    var a, b, d := w.shape[0], w.shape[1], w.shape[3];
    RegroupSizes(a, b, c, g, d);
    assert w.shape == [a, b, Scale(g, c), d];
    var split := Reshape(w, [a, b, g, c, d]);
    GroupPermOk();
    var moved := Transpose(split, GroupPerm);
    assert moved.shape == [a, b, c, g, d];
    ReshapeAdjoint(y, moved);
    var ys := Reshape(y, [a, b, c, g, d]);
    PermuteAdjoint(ys, split);
    var back := Transpose(ys, GroupPerm);
    assert back.shape == [a, b, g, c, d];
    ReshapeAdjoint(back, w);
  }

  lemma TransposeKernelAdjoint(y: Tensor, w: Tensor, g: nat)
    requires |w.shape| == 4 && g > 0 && w.shape[2] % g == 0 && y.shape == TransposeKernelAsForward(w, g).shape
    ensures y.shape[3] % g == 0 && ForwardKernelAsTranspose(y, g).shape == w.shape
    ensures Inner(y, TransposeKernelAsForward(w, g)) == Inner(ForwardKernelAsTranspose(y, g), w)
  {
    hide Size, Scale, Regroup, Ungroup, Inner, At;
    GroupCount(g, w.shape[3]);
    GroupWhole(w.shape[2], g);
    assert w.shape == [w.shape[0], w.shape[1], Scale(g, w.shape[2] / g), w.shape[3]];
    if g != 1 {
      UngroupAdjoint(y, w, g, w.shape[2] / g);
    }
  }

  /** The forward convolution paired with a transposed convolution is well formed and undoes its shape. */
  lemma PairedForwardOk(x: Shape, w: Tensor, o: ConvOptions, eh: int, ew: int)
    requires TransposeOk(o, eh, ew, x, w.shape)
    ensures var out, k := TransposeShape(o, eh, ew, x, w.shape), TransposeKernelAsForward(w, o.groups);
      && ConvOk(o, out, k.shape) && ConvShape(o, out, k.shape) == x && out[1] > 0 && out[2] > 0
      && OutputPadding(o.h, out[1], k.shape[0], x[1]) == eh && OutputPadding(o.w, out[2], k.shape[1], x[2]) == ew
  {
    hide Size, Ungroup;
    GroupWhole(w.shape[2], o.groups);
    GroupWhole(x[3], o.groups);
    GroupCount(o.groups, w.shape[3]);
    TransposedForward(o.h, x[1], w.shape[0], eh);
    TransposedForward(o.w, x[2], w.shape[1], ew);
    var cog := w.shape[2] / o.groups;
    ScalePositive(o.groups, cog);
    ScalePositive(o.groups, w.shape[3]);
  }

  lemma ScalePositive(a: nat, b: nat)
    ensures Scale(a, b) > 0 <==> a > 0 && b > 0
  {
  }

  /** <transposed_conv(x, w), dy> = <x, conv(dy, w re-laid)>, the identity the reverse rule relies on. */
  lemma TransposeInputAdjoint(x: Tensor, w: Tensor, o: ConvOptions, eh: int, ew: int, dy: Tensor)
    requires TransposeOk(o, eh, ew, x.shape, w.shape) && dy.shape == TransposeShape(o, eh, ew, x.shape, w.shape)
    ensures var k := TransposeKernelAsForward(w, o.groups);
      && ConvOk(o, dy.shape, k.shape) && ConvShape(o, dy.shape, k.shape) == x.shape
      && Inner(dy, ConvTranspose2d(x, w, o, eh, ew)) == Inner(Conv2d(dy, k, o), x)
  {
    hide Size, At, Times, Inner, Conv2d, ConvTranspose2d, Scale, TransposeKernelAsForward, Regroup;
    var k := TransposeKernelAsForward(w, o.groups);
    PairedForwardOk(x.shape, w, o, eh, ew);
    ConvInputAdjoint(dy, k, o, x);
    GradientKernelIsTranspose(k, o, dy.shape);
    GroupWhole(w.shape[2], o.groups);
    GroupCount(o.groups, w.shape[3]);
    KernelLayoutsInverse(w, k, o.groups);
    InnerComm(dy, ConvTranspose2d(x, w, o, eh, ew));
    InnerComm(x, Conv2d(dy, k, o));
  }

  lemma GradientKernelIsTranspose(k: Tensor, o: ConvOptions, x: Shape)
    requires ConvOk(o, x, k.shape)
    ensures GradientKernel(k, o, x) == ForwardKernelAsTranspose(k, o.groups)
  {
    hide Size, Scale, Regroup;
  }

  /** The kernel rule of the transposed convolution: a kernel gradient with operands exchanged, laid back. */
  lemma TransposeKernelRuleAdjoint(x: Tensor, w: Tensor, o: ConvOptions, eh: int, ew: int, dy: Tensor)
    requires TransposeOk(o, eh, ew, x.shape, w.shape) && dy.shape == TransposeShape(o, eh, ew, x.shape, w.shape)
    ensures var k := TransposeKernelAsForward(w, o.groups);
      && ConvOk(o, dy.shape, k.shape) && ConvShape(o, dy.shape, k.shape) == x.shape
      && var g := KernelGradient(dy, x, k.shape, o);
      && g.shape[3] % o.groups == 0 && ForwardKernelAsTranspose(g, o.groups).shape == w.shape
      && Inner(dy, ConvTranspose2d(x, w, o, eh, ew)) == Inner(ForwardKernelAsTranspose(g, o.groups), w)
  {
    hide Size, At, Times, Inner, Conv2d, ConvTranspose2d, Scale, TransposeKernelAsForward, ForwardKernelAsTranspose, KernelGradient;
    var k := TransposeKernelAsForward(w, o.groups);
    TransposeInputAdjoint(x, w, o, eh, ew, dy);
    InnerComm(Conv2d(dy, k, o), x);
    ConvKernelAdjoint(dy, k, o, x);
    TransposeKernelAdjoint(KernelGradient(dy, x, k.shape, o), w, o.groups);
  }

  /** Convolving an empty input, or into an empty output, pairs to zero. */
  lemma ConvEmpty(x: Tensor, k: Tensor, o: ConvOptions, dy: Tensor)
    requires ConvOk(o, x.shape, k.shape) && dy.shape == ConvShape(o, x.shape, k.shape)
    requires 0 in x.shape || 0 in dy.shape
    ensures Inner(dy, Conv2d(x, k, o)) == 0.0
  {
    hide Size, Times;
    if 0 in dy.shape {
      forall I ensures !Valid(dy.shape, I) { NoIndex(dy.shape, I); }
      InnerZero(dy, Conv2d(x, k, o));
    } else {
      forall I ensures !Valid(x.shape, I) { NoIndex(x.shape, I); }
      forall I | Valid(dy.shape, I) ensures At(Conv2d(x, k, o), I) == 0.0 {
        EmptyRow(x, k, o, I);
      }
      InnerZero(dy, Conv2d(x, k, o));
    }
  }

  lemma EmptyRow(x: Tensor, k: Tensor, o: ConvOptions, I: Index)
    requires ConvOk(o, x.shape, k.shape) && Valid(ConvShape(o, x.shape, k.shape), I)
    requires forall J :: !Valid(x.shape, J)
    ensures At(Conv2d(x, k, o), I) == 0.0
  {
    hide Size, Times, Valid, ConvLeft, ConvRight, Flat;
    var left := (M: Index) => ConvLeft(o, k.shape, M);
    var f := (L: Index) => ContractTerm(x, left, k, ConvRight, I, L);
    forall L | Valid(k.shape[..3], L) ensures f(L) == 0.0 {
      TimesZero(At(k, ConvRight(I + L)));
    }
    SumIxZero(k.shape[..3], f);
  }

  // ----- OIHW kernels -----

  const FromOihw: seq<nat> := [2, 3, 1, 0]
  const ToOihw: seq<nat> := [3, 2, 0, 1]

  lemma OihwPerms()
    ensures IsPerm(FromOihw, 4) && Inverse(FromOihw) == ToOihw && IsPerm(ToOihw, 4)
  {
    hide PosIn;
    var p, q := FromOihw, ToOihw;
    assert p[0] == 2 && p[1] == 3 && p[2] == 1 && p[3] == 0;
    assert q[0] == 3 && q[1] == 2 && q[2] == 0 && q[3] == 1;
    assert IsPerm(p, 4) && IsPerm(q, 4);
    PermPos(p, 0);
    PermPos(p, 1);
    PermPos(p, 2);
    PermPos(p, 3);
    assert Inverse(p) == q;
  }

  function Hwio(k: Tensor): (r: Tensor)
    requires |k.shape| == 4
    ensures r.shape == [k.shape[2], k.shape[3], k.shape[1], k.shape[0]]
  {
    var r := Transpose(k, FromOihw);
    assert r.shape == [k.shape[2], k.shape[3], k.shape[1], k.shape[0]];
    r
  }

  function Oihw(k: Tensor): (r: Tensor)
    requires |k.shape| == 4
    ensures r.shape == [k.shape[3], k.shape[2], k.shape[0], k.shape[1]]
  {
    var r := Transpose(k, ToOihw);
    assert r.shape == [k.shape[3], k.shape[2], k.shape[0], k.shape[1]];
    r
  }

  lemma HwioAdjoint(y: Tensor, k: Tensor)
    requires |k.shape| == 4 && y.shape == Hwio(k).shape
    ensures Inner(y, Hwio(k)) == Inner(Oihw(y), k)
  {
    hide Size, At, Times, Inner, PosIn, TransposeIx;
    OihwPerms();
    assert y.shape == Permuted(k.shape, FromOihw);
    TransposeAdjoint(y, k, FromOihw);
  }
}
