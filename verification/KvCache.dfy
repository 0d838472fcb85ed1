/** The paired key/value cache with clamped and with bounds-checked updates. */
module KvCaches {
  import opened Options
  import opened Products
  import opened Shapes
  import opened Tensors
  import opened TensorOps

  const I32_MAX := 0x7fff_ffff
  const I32_MIN := -0x8000_0000

  /** The 32-bit two's complement value of an integer. */
  function Wrap(x: int): (r: int)
    ensures I32_MIN <= r <= I32_MAX
    ensures I32_MIN <= x <= I32_MAX ==> r == x
  {
    (x - I32_MIN) % 0x1_0000_0000 + I32_MIN
  }

  /** A comparison as a mask value. */
  function LeMask(a: int, b: int): real
  {
    if a <= b then 1.0 else 0.0
  }

  /** One I32 start per axis, and an update that fits the cache. */
  predicate UpdateOk(cache: Shape, keys: Shape, values: Shape, starts: seq<int>)
  {
    && keys == values && |starts| == |cache| == |keys|
    && forall a :: 0 <= a < |cache| ==> keys[a] <= cache[a]
  }

  predicate InBounds(cache: Shape, update: Shape, starts: seq<int>, axes: nat)
    requires |starts| == |cache| == |update|
  {
    forall a :: 0 <= a < |cache| && a < axes ==> 0 <= starts[a] <= cache[a] as int - update[a] as int
  }

  /** Inside the bounds nothing is clamped: the update lands exactly at its starts. */
  lemma UpdateLands(t: Tensor, u: Tensor, starts: seq<int>, J: Index)
    requires |starts| == |t.shape| == |u.shape| && InBounds(t.shape, u.shape, starts, |starts|) && Valid(t.shape, J)
    ensures At(DynamicUpdateSlice(t, u, starts), J)
         == if Valid(u.shape, ShiftIx(J, starts)) then At(u, ShiftIx(J, starts)) else At(t, J)
  {
    hide *;
    StartsInside(t.shape, u.shape, starts);
    UpdateReads(t, u, starts, J);
  }

  lemma StartsInside(cache: Shape, update: Shape, starts: seq<int>)
    requires |starts| == |cache| == |update| && InBounds(cache, update, starts, |starts|)
    ensures ClampStarts(starts, cache, update) == starts
  {
    forall a: nat | a < |starts| ensures ClampStarts(starts, cache, update)[a] == starts[a] {
    }
  }

  lemma UpdateReads(t: Tensor, u: Tensor, starts: seq<int>, J: Index)
    requires Valid(t.shape, J)
    ensures var I := ShiftIx(J, ClampStarts(starts, t.shape, u.shape));
      At(DynamicUpdateSlice(t, u, starts), J) == if Valid(u.shape, I) then At(u, I) else At(t, J)
  {
    hide Size, At, ShiftIx, ClampStarts, Valid;
  }

  lemma ChooseConstant(m: real, a: Tensor, b: Tensor)
    requires a.shape == b.shape
    ensures Choose(Fill(a.shape, m), a, b) == if m != 0.0 then a else b
  {
    hide Size, At;
    Ext(Choose(Fill(a.shape, m), a, b), if m != 0.0 then a else b);
  }

  class KvCache {
    var keys: Tensor
    var values: Tensor

    ghost predicate Valid()
      reads this
    {
      keys.shape == values.shape
    }

    constructor (keys: Tensor, values: Tensor)
      requires keys.shape == values.shape
      ensures Valid() && this.keys == keys && this.values == values
    {
      this.keys, this.values := keys, values;
    }

    /** Both caches updated at clamped starts, or neither when the update is malformed. */
    method UpdateAt(k: Tensor, v: Tensor, starts: seq<int>) returns (ok: bool)
      requires Valid()
      modifies this
      ensures Valid() && ok == UpdateOk(old(keys.shape), k.shape, v.shape, starts)
      ensures ok ==> keys == DynamicUpdateSlice(old(keys), k, starts) && values == DynamicUpdateSlice(old(values), v, starts)
      ensures !ok ==> keys == old(keys) && values == old(values)
    {
      ok := UpdateOk(keys.shape, k.shape, v.shape, starts);
      if ok {
        keys, values := DynamicUpdateSlice(keys, k, starts), DynamicUpdateSlice(values, v, starts);
      }
    }

    /** Both caches updated exactly when every start fits without clamping; a rejected update changes neither. */
    method UpdateAtChecked(k: Tensor, v: Tensor, starts: seq<int>) returns (accepted: Option<real>)
      requires Valid() && forall a :: 0 <= a < |starts| ==> I32_MIN <= starts[a] <= I32_MAX
      modifies this
      ensures Valid() && keys.shape == old(keys.shape)
      ensures accepted.Some? <==> UpdateOk(old(keys.shape), k.shape, v.shape, starts)
      ensures accepted.None? ==> keys == old(keys) && values == old(values)
      ensures accepted.Some? ==>
        if InBounds(old(keys.shape), k.shape, starts, |starts|) then
          accepted.value == 1.0
          && keys == DynamicUpdateSlice(old(keys), k, starts) && values == DynamicUpdateSlice(old(values), v, starts)
        else
          accepted.value == 0.0 && keys == old(keys) && values == old(values)
    {
      hide Size, At, DynamicUpdateSlice, Choose, Fill;
      if !UpdateOk(keys.shape, k.shape, v.shape, starts) {
        return None;
      }
      var shape := keys.shape;
      var mask, axis := 1.0, 0;
      while axis < |starts|
        invariant 0 <= axis <= |starts|
        invariant mask == if InBounds(shape, k.shape, starts, axis) then 1.0 else 0.0
      {
        mask := mask * LeMask(0, starts[axis]);
        var limit := shape[axis] - k.shape[axis];
        if limit < I32_MAX {
          mask := mask * LeMask(starts[axis], limit);
        }
        axis := axis + 1;
      }
      var proposedKeys, proposedValues := DynamicUpdateSlice(keys, k, starts), DynamicUpdateSlice(values, v, starts);
      ChooseConstant(mask, proposedKeys, keys);
      ChooseConstant(mask, proposedValues, values);
      keys := Choose(Fill(shape, mask), proposedKeys, keys);
      values := Choose(Fill(shape, mask), proposedValues, values);
      return Some(mask);
    }
  }
}
