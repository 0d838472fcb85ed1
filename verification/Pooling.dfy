/** NHWC sum pooling and the gradient built from a transposed convolution over rearranged channels. */
module Pooling {
  import opened Products
  import opened Shapes
  import opened IndexSums
  import opened Tensors
  import opened TensorOps
  import opened Adjoints
  import opened Convolution

  /** Window, stride and padding per spatial axis; pooling has no dilation. */
  datatype PoolOptions = PoolOptions(windowH: nat, windowW: nat, h: Axis, w: Axis)

  predicate PoolOk(p: PoolOptions, x: Shape)
  {
    |x| == 4 && p.windowH > 0 && p.windowW > 0 && p.h.stride > 0 && p.w.stride > 0 && p.h.dilation == p.w.dilation == 1
  }

  function PoolShape(p: PoolOptions, x: Shape): (s: Shape)
    requires PoolOk(p, x)
    ensures |s| == 4
  {
    [x[0], OutExtent(p.h, x[1], p.windowH), OutExtent(p.w, x[2], p.windowW), x[3]]
  }

  function PoolIx(p: PoolOptions, I: Index, L: Index): Index
  {
    if |I| == 4 && |L| >= 2 then [I[0], Tap(p.h, I[1], L[0]), Tap(p.w, I[2], L[1]), I[3]] else []
  }

  function PoolAt(x: Tensor, p: PoolOptions, I: Index, L: Index): real
  {
    At(x, PoolIx(p, I, L))
  }

  /** Sum of each spatial window; padding contributes zero. */
  function SumPool2d(x: Tensor, p: PoolOptions): (r: Tensor)
    requires PoolOk(p, x.shape)
    ensures r.shape == PoolShape(p, x.shape)
  {
    Build(PoolShape(p, x.shape), (I: Index) => SumIx([p.windowH, p.windowW], (L: Index) => PoolAt(x, p, I, L)))
  }

  // ----- rearranging channels -----

  const ToFirst: seq<nat> := [0, 3, 1, 2]
  const ToLast: seq<nat> := [0, 2, 3, 1]

  lemma RearrangePerms()
    ensures IsPerm(ToFirst, 4) && Inverse(ToFirst) == ToLast && IsPerm(ToLast, 4)
    ensures PosIn(ToFirst, 0) == 0 && PosIn(ToFirst, 1) == 2 && PosIn(ToFirst, 2) == 3 && PosIn(ToFirst, 3) == 1
  {
    hide PosIn;
    var p, q := ToFirst, ToLast;
    assert p[0] == 0 && p[1] == 3 && p[2] == 1 && p[3] == 2;
    assert q[0] == 0 && q[1] == 2 && q[2] == 3 && q[3] == 1;
    assert IsPerm(p, 4) && IsPerm(q, 4);
    PermPos(p, 0);
    PermPos(p, 1);
    PermPos(p, 2);
    PermPos(p, 3);
    assert Inverse(p) == q;
  }

  lemma FirstSizes(n: nat, h: nat, w: nat, c: nat)
    ensures Size([Scale(n, c), h, w, 1]) == Size([n, c, h, w])
  {
    hide Scale, Size;
    SizeTwo(n, c);
    SizeMerge([], [n, c], [h, w]);
    assert [] + [n, c] + [h, w] == [n, c, h, w] && [] + [Size([n, c])] + [h, w] == [Scale(n, c), h, w];
    SizeConcat([Scale(n, c), h, w], [1]);
    SizeOne(1);
    assert [Scale(n, c), h, w] + [1] == [Scale(n, c), h, w, 1];
    ScaleUnit(Size([Scale(n, c), h, w]));
  }

  /** "n h w c -> (n c) h w 1" */
  function ChannelsFirst(t: Tensor): (r: Tensor)
    requires |t.shape| == 4
    ensures r.shape == [Scale(t.shape[0], t.shape[3]), t.shape[1], t.shape[2], 1]
  {
    var n, h, w, c := t.shape[0], t.shape[1], t.shape[2], t.shape[3];
    FirstSizes(n, h, w, c);
    var moved := Transpose(t, ToFirst);
    assert moved.shape == [n, c, h, w];
    Reshape(moved, [Scale(n, c), h, w, 1])
  }

  /** "(n c) h w 1 -> n h w c" with the batch extent given. */
  function ChannelsLast(t: Tensor, n: nat, c: nat): (r: Tensor)
    requires |t.shape| == 4 && t.shape[0] == Scale(n, c) && t.shape[3] == 1
    ensures r.shape == [n, t.shape[1], t.shape[2], c]
  {
    FirstSizes(n, t.shape[1], t.shape[2], c);
    assert t.shape == [Scale(n, c), t.shape[1], t.shape[2], 1];
    var r := Transpose(Reshape(t, [n, c, t.shape[1], t.shape[2]]), ToLast);
    assert r.shape == [n, t.shape[1], t.shape[2], c];
    r
  }

  lemma ChannelsInverse(t: Tensor)
    requires |t.shape| == 4
    ensures ChannelsLast(ChannelsFirst(t), t.shape[0], t.shape[3]) == t
  {
    hide Scale, Size, At, PosIn, TransposeIx;
    var n, h, w, c := t.shape[0], t.shape[1], t.shape[2], t.shape[3];
    FirstSizes(n, h, w, c);
    RearrangePerms();
    var moved := Transpose(t, ToFirst);
    assert moved.shape == [n, c, h, w];
    ReshapeReshape(moved, [Scale(n, c), h, w, 1]);
    TransposeInverse(t, ToFirst);
  }

  lemma ChannelsAdjoint(y: Tensor, x: Tensor)
    requires |x.shape| == 4 && y.shape == [Scale(x.shape[0], x.shape[3]), x.shape[1], x.shape[2], 1]
    ensures Inner(y, ChannelsFirst(x)) == Inner(ChannelsLast(y, x.shape[0], x.shape[3]), x)
  {
    hide Scale, Size, At, Times, Inner, PosIn, TransposeIx;
    var n, h, w, c := x.shape[0], x.shape[1], x.shape[2], x.shape[3];
    FirstSizes(n, h, w, c);
    RearrangePerms();
    var moved := Transpose(x, ToFirst);
    assert moved.shape == [n, c, h, w];
    ReshapeAdjoint(y, moved);
    var back := Reshape(y, [n, c, h, w]);
    assert back.shape == Permuted(x.shape, ToFirst);
    TransposeAdjoint(back, x, ToFirst);
  }

  lemma ChannelsIsometry(a: Tensor, b: Tensor)
    requires |a.shape| == 4 && a.shape == b.shape
    ensures Inner(ChannelsFirst(a), ChannelsFirst(b)) == Inner(a, b)
  {
    hide Scale, Size, At, Times, Inner, ChannelsFirst, ChannelsLast;
    ChannelsAdjoint(ChannelsFirst(a), b);
    ChannelsInverse(a);
  }

  lemma MergeFirst(n: nat, c: nat, h: nat, w: nat, i: nat, q: nat, j: int, l: int)
    requires i < n && q < c && 0 <= j < h && 0 <= l < w
    ensures Valid([n, c, h, w], [i, q, j, l]) && Valid([Scale(n, c), h, w, 1], [Scale(i, c) + q, j, l, 0])
    ensures Flat([n, c, h, w], [i, q, j, l]) == Flat([Scale(n, c), h, w, 1], [Scale(i, c) + q, j, l, 0])
  {
    hide Size, Scale, Flat;
    FlatTwo(n, c, i, q);
    SizeTwo(n, c);
    FlatMerge([], [n, c], [h, w], [], [i, q], [j, l]);
    assert [] + [n, c] + [h, w] == [n, c, h, w] && [] + [i, q] + [j, l] == [i, q, j, l];
    assert [] + [Size([n, c])] + [h, w] == [Scale(n, c), h, w];
    assert [] + [Flat([n, c], [i, q])] + [j, l] == [Scale(i, c) + q, j, l];
    FlatOne(1, 0);
    FlatConcat([Scale(n, c), h, w], [1], [Scale(i, c) + q, j, l], [0]);
    SizeOne(1);
    assert [Scale(n, c), h, w] + [1] == [Scale(n, c), h, w, 1];
    assert [Scale(i, c) + q, j, l] + [0] == [Scale(i, c) + q, j, l, 0];
    ScaleUnit(Flat([Scale(n, c), h, w], [Scale(i, c) + q, j, l]));
  }

  /** Reading a channels-first tensor, inside or outside its spatial extent. */
  lemma ChannelsFirstAt(t: Tensor, i: nat, q: nat, j: int, l: int)
    requires |t.shape| == 4 && i < t.shape[0] && q < t.shape[3]
    ensures At(ChannelsFirst(t), [Scale(i, t.shape[3]) + q, j, l, 0]) == At(t, [i, j, l, q])
  {
    hide Size, Scale, Flat, At, Valid, ChannelsFirst;
    var n, h, w, c := t.shape[0], t.shape[1], t.shape[2], t.shape[3];
    if 0 <= j < h && 0 <= l < w {
      InsideFirst(t, i, q, j, l);
    } else {
      OutsideSpace(ChannelsFirst(t), Scale(i, c) + q, j, l, 0);
      OutsideSpace(t, i, j, l, q);
    }
  }

  /** Inside: the reshape merges batch and channel, the transpose moves the channel. */
  lemma InsideFirst(t: Tensor, i: nat, q: nat, j: int, l: int)
    requires |t.shape| == 4 && i < t.shape[0] && q < t.shape[3] && 0 <= j < t.shape[1] && 0 <= l < t.shape[2]
    ensures At(ChannelsFirst(t), [Scale(i, t.shape[3]) + q, j, l, 0]) == At(t, [i, j, l, q])
  {
    hide Size, Scale, Flat, At, Transpose, Reshape, Valid;
    var n, h, w, c := t.shape[0], t.shape[1], t.shape[2], t.shape[3];
    FirstSizes(n, h, w, c);
    var moved := Transpose(t, ToFirst);
    MovedAt(t, i, q, j, l);
    MergeFirst(n, c, h, w, i, q, j, l);
    ReshapeAt(moved, [Scale(n, c), h, w, 1], [Scale(i, c) + q, j, l, 0], [i, q, j, l]);
  }

  lemma MovedAt(t: Tensor, i: nat, q: nat, j: int, l: int)
    requires |t.shape| == 4 && i < t.shape[0] && q < t.shape[3] && 0 <= j < t.shape[1] && 0 <= l < t.shape[2]
    ensures Transpose(t, ToFirst).shape == [t.shape[0], t.shape[3], t.shape[1], t.shape[2]]
    ensures At(Transpose(t, ToFirst), [i, q, j, l]) == At(t, [i, j, l, q])
  {
    hide Size, At, PosIn;
    RearrangePerms();
    var I := [i, j, l, q];
    assert I[0] == i && I[1] == j && I[2] == l && I[3] == q;
    assert Permuted(t.shape, ToFirst) == [t.shape[0], t.shape[3], t.shape[1], t.shape[2]];
    assert TransposeIx(ToFirst, [i, q, j, l]) == I;
  }

  lemma OutsideSpace(t: Tensor, a: int, j: int, l: int, b: int)
    requires |t.shape| == 4 && !(0 <= j < t.shape[1] && 0 <= l < t.shape[2])
    ensures At(t, [a, j, l, b]) == 0.0
  {
    hide Flat, Size;
    var I := [a, j, l, b];
    assert I[1] == j && I[2] == l;
  }

  // ----- pooling as a convolution with a kernel of ones -----

  function PoolConv(p: PoolOptions): ConvOptions
  {
    ConvOptions(p.h, p.w, 1)
  }

  function PoolKernel(p: PoolOptions): (k: Tensor)
    ensures k.shape == [p.windowH, p.windowW, 1, 1]
  {
    Fill([p.windowH, p.windowW, 1, 1], 1.0)
  }

  lemma TimesOne(a: real)
    ensures Times(a, 1.0) == a
  {
  }

  /** Term L of the pooled window, as a term of the convolution. */
  lemma PoolTerm(x: Tensor, p: PoolOptions, i: nat, q: nat, oh: int, ow: int, L: Index)
    requires PoolOk(p, x.shape) && i < x.shape[0] && q < x.shape[3] && Valid([p.windowH, p.windowW, 1], L)
    ensures ContractTerm(ChannelsFirst(x), (M: Index) => ConvLeft(PoolConv(p), PoolKernel(p).shape, M), PoolKernel(p), ConvRight,
                         [Scale(i, x.shape[3]) + q, oh, ow, 0], L)
         == At(x, PoolIx(p, [i, oh, ow, q], L))
  {
    hide Size, Scale, At, Tap, ChannelsFirst, Times;
    var m := Scale(i, x.shape[3]) + q;
    var M := [m, oh, ow, 0] + L;
    assert M[4] == L[0] && M[5] == L[1] && M[6] == L[2] == 0;
    assert ConvLeft(PoolConv(p), [p.windowH, p.windowW, 1, 1], M) == [m, Tap(p.h, oh, L[0]), Tap(p.w, ow, L[1]), 0];
    ChannelsFirstAt(x, i, q, Tap(p.h, oh, L[0]), Tap(p.w, ow, L[1]));
    ValidFour([p.windowH, p.windowW, 1, 1], L[0], L[1], 0, 0);
    assert At(PoolKernel(p), ConvRight(M)) == 1.0;
    TimesOne(At(ChannelsFirst(x), [m, Tap(p.h, oh, L[0]), Tap(p.w, ow, L[1]), 0]));
  }

  /** A trailing singleton axis does not change a sum. */
  lemma SumSingleton(s: Shape, f: Index -> real, g: Index -> real)
    requires forall L :: Valid(s, L) ==> g(L) == f(L + [0])
    ensures SumIx(s + [1], f) == SumIx(s, g)
  {
    hide Size;
    forall L | Valid(s, L) ensures g(L) == SumIx([1], (J: Index) => f(L + J)) {
      SumIxDelta([1], [0], (J: Index) => f(L + J));
    }
    SumIxConcat(s, [1], f, g);
  }

  lemma ConvAt(x: Tensor, k: Tensor, o: ConvOptions, I: Index)
    requires ConvOk(o, x.shape, k.shape) && Valid(ConvShape(o, x.shape, k.shape), I)
    ensures At(Conv2d(x, k, o), I)
         == SumIx(k.shape[..3], (L: Index) => ContractTerm(x, (M: Index) => ConvLeft(o, k.shape, M), k, ConvRight, I, L))
  {
    hide Size, At, ContractTerm, ConvLeft, ConvOk, Valid;
  }

  lemma SumPoolAt(x: Tensor, p: PoolOptions, I: Index)
    requires PoolOk(p, x.shape) && Valid(PoolShape(p, x.shape), I)
    ensures At(SumPool2d(x, p), I) == SumIx([p.windowH, p.windowW], (L: Index) => PoolAt(x, p, I, L))
  {
    hide Size, At, PoolAt, PoolShape, Valid;
  }

  lemma PoolConvAt(x: Tensor, p: PoolOptions, i: nat, q: nat, oh: int, ow: int)
    requires PoolOk(p, x.shape) && x.shape[3] > 0
    requires Valid(PoolShape(p, x.shape), [i, oh, ow, q])
    requires ConvOk(PoolConv(p), ChannelsFirst(x).shape, PoolKernel(p).shape)
    requires Valid(ConvShape(PoolConv(p), ChannelsFirst(x).shape, PoolKernel(p).shape), [Scale(i, x.shape[3]) + q, oh, ow, 0])
    ensures At(Conv2d(ChannelsFirst(x), PoolKernel(p), PoolConv(p)), [Scale(i, x.shape[3]) + q, oh, ow, 0])
         == At(SumPool2d(x, p), [i, oh, ow, q])
  {
    hide Size, Scale, At, Tap, ChannelsFirst, Times, ContractTerm, PoolIx, ConvLeft, PoolKernel, Conv2d, ConvShape, SumPool2d;
    var k := PoolKernel(p);
    var I := [Scale(i, x.shape[3]) + q, oh, ow, 0];
    var left := (M: Index) => ConvLeft(PoolConv(p), k.shape, M);
    var f := (L: Index) => ContractTerm(ChannelsFirst(x), left, k, ConvRight, I, L);
    var g := (L: Index) => PoolAt(x, p, [i, oh, ow, q], L);
    var s := [p.windowH, p.windowW];
    assert k.shape[..3] == s + [1] == [p.windowH, p.windowW, 1];
    forall L | Valid(s, L) ensures g(L) == f(L + [0]) {
      assert Valid([p.windowH, p.windowW, 1], L + [0]);
      ValidFour(PoolShape(p, x.shape), i, oh, ow, q);
      PoolTerm(x, p, i, q, oh, ow, L + [0]);
      PoolIxHead(p, [i, oh, ow, q], L);
    }
    SumSingleton(s, f, g);
    ConvAt(ChannelsFirst(x), k, PoolConv(p), I);
    SumPoolAt(x, p, [i, oh, ow, q]);
  }

  lemma PoolIxHead(p: PoolOptions, I: Index, L: Index)
    requires |L| == 2
    ensures PoolIx(p, I, L + [0]) == PoolIx(p, I, L)
  {
    hide Tap;
  }

  lemma PoolConvOk(x: Shape, p: PoolOptions)
    requires PoolOk(p, x) && x[3] > 0
    ensures ConvOk(PoolConv(p), [Scale(x[0], x[3]), x[1], x[2], 1], [p.windowH, p.windowW, 1, 1])
    ensures ConvShape(PoolConv(p), [Scale(x[0], x[3]), x[1], x[2], 1], [p.windowH, p.windowW, 1, 1])
         == [Scale(x[0], x[3]), PoolShape(p, x)[1], PoolShape(p, x)[2], 1]
  {
  }

  /** Rearranged pooling is a one-channel convolution with ones. */
  lemma PoolIsConv(x: Tensor, p: PoolOptions)
    requires PoolOk(p, x.shape) && x.shape[3] > 0
    ensures ConvOk(PoolConv(p), ChannelsFirst(x).shape, PoolKernel(p).shape)
    ensures Conv2d(ChannelsFirst(x), PoolKernel(p), PoolConv(p)) == ChannelsFirst(SumPool2d(x, p))
  {
    hide Size, At, Tap, ChannelsFirst, SumPool2d, Conv2d, PoolKernel;
    PoolConvOk(x.shape, p);
    var left, right := Conv2d(ChannelsFirst(x), PoolKernel(p), PoolConv(p)), ChannelsFirst(SumPool2d(x, p));
    var c := x.shape[3];
    forall I: Index | Valid(left.shape, I) ensures At(left, I) == At(right, I) {
      var m: int := I[0];
      Borrow(x.shape[0], c, m);
      var i, q := m / c, m % c;
      assert I == [Scale(i, c) + q, I[1], I[2], 0];
      ValidFour(PoolShape(p, x.shape), i, I[1], I[2], q);
      PoolConvAt(x, p, i, q, I[1], I[2]);
      ChannelsFirstAt(SumPool2d(x, p), i, q, I[1], I[2]);
    }
    Ext(left, right);
  }

  /** The extra extent sum_pool2d_gradient computes is the one the convolution adjoint needs. */
  lemma PoolPadding(ax: Axis, x: nat, window: nat)
    requires AxisOk(ax) && ax.dilation == 1 && window > 0 && OutExtent(ax, x, window) > 0
    ensures (x + ax.low + ax.high - window) % ax.stride == OutputPadding(ax, x, window, OutExtent(ax, x, window))
  {
    var room := x + ax.low + ax.high - window;
    assert room == (room / ax.stride) * ax.stride + room % ax.stride;
    assert (OutExtent(ax, x, window) - 1) * ax.stride == (room / ax.stride) * ax.stride;
  }

  /** sum_pool2d_gradient: zeros when anything is empty, otherwise one transposed convolution. */
  function SumPoolGradient(dy: Tensor, x: Shape, p: PoolOptions): (r: Tensor)
    requires PoolOk(p, x) && dy.shape == PoolShape(p, x)
    ensures r.shape == x
  {
    if 0 in x || 0 in dy.shape then Fill(x, 0.0)
    else
      assert x[0] > 0 && x[1] > 0 && x[2] > 0 && x[3] > 0 && dy.shape[1] > 0 && dy.shape[2] > 0;
      PoolConvOk(x, p);
      PoolPadding(p.h, x[1], p.windowH);
      PoolPadding(p.w, x[2], p.windowW);
      InputGradientOk(Fill([Scale(x[0], x[3]), x[1], x[2], 1], 0.0), PoolKernel(p), PoolConv(p), ChannelsFirst(dy));
      assert PoolKernel(p).shape == GradientKernel(PoolKernel(p), PoolConv(p), [Scale(x[0], x[3]), x[1], x[2], 1]).shape;
      var scattered := ConvTranspose2d(ChannelsFirst(dy), PoolKernel(p), PoolConv(p),
        (x[1] + p.h.low + p.h.high - p.windowH) % p.h.stride, (x[2] + p.w.low + p.w.high - p.windowW) % p.w.stride);
      ChannelsLast(scattered, x[0], x[3])
  }

  lemma SumPoolEmpty(x: Tensor, dy: Tensor, p: PoolOptions)
    requires PoolOk(p, x.shape) && dy.shape == PoolShape(p, x.shape) && (0 in x.shape || 0 in dy.shape)
    ensures Inner(dy, SumPool2d(x, p)) == 0.0
  {
    hide Size, Times, Tap;
    if 0 in dy.shape {
      forall I ensures !Valid(dy.shape, I) { NoIndex(dy.shape, I); }
      InnerZero(dy, SumPool2d(x, p));
    } else {
      forall I ensures !Valid(x.shape, I) { NoIndex(x.shape, I); }
      forall I | Valid(dy.shape, I) ensures At(SumPool2d(x, p), I) == 0.0 {
        SumIxZero([p.windowH, p.windowW], (L: Index) => PoolAt(x, p, I, L));
      }
      InnerZero(dy, SumPool2d(x, p));
    }
  }

  /** Sum pooling is adjoint to sum_pool2d_gradient, for every window, stride, padding and shape. */
  lemma SumPoolAdjoint(x: Tensor, dy: Tensor, p: PoolOptions)
    requires PoolOk(p, x.shape) && dy.shape == PoolShape(p, x.shape)
    ensures Inner(dy, SumPool2d(x, p)) == Inner(SumPoolGradient(dy, x.shape, p), x)
  {
    hide Size, At, Times, Inner, Tap, ChannelsFirst, ChannelsLast, SumPool2d, Conv2d, PoolKernel, ConvTranspose2d;
    if 0 in x.shape || 0 in dy.shape {
      SumPoolEmpty(x, dy, p);
      InnerZero(x, Fill(x.shape, 0.0));
    } else {
      assert x.shape[0] > 0 && x.shape[1] > 0 && x.shape[2] > 0 && x.shape[3] > 0 && dy.shape[1] > 0 && dy.shape[2] > 0;
      SumPoolFull(x, dy, p);
    }
  }

  lemma SumPoolFull(x: Tensor, dy: Tensor, p: PoolOptions)
    requires PoolOk(p, x.shape) && dy.shape == PoolShape(p, x.shape) && !(0 in x.shape || 0 in dy.shape)
    requires x.shape[1] > 0 && x.shape[2] > 0 && x.shape[3] > 0 && dy.shape[1] > 0 && dy.shape[2] > 0
    ensures Inner(dy, SumPool2d(x, p)) == Inner(SumPoolGradient(dy, x.shape, p), x)
  {
    hide Size, Scale, At, Times, Inner, Tap, ChannelsFirst, ChannelsLast, SumPool2d, Conv2d, PoolKernel, ConvTranspose2d;
    var y, cx, k, o := ChannelsFirst(dy), ChannelsFirst(x), PoolKernel(p), PoolConv(p);
    PoolIsConv(x, p);
    PoolConvOk(x.shape, p);
    ChannelsIsometry(dy, SumPool2d(x, p));
    ConvInputAdjoint(cx, k, o, y);
    var g := InputGradient(cx.shape, k, o, y);
    ChannelsAdjoint(g, x);
    PoolPadding(p.h, x.shape[1], p.windowH);
    PoolPadding(p.w, x.shape[2], p.windowW);
  }
}
