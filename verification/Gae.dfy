/** Generalised advantage estimation: the flipped affine scan against the sequential backward recurrence. */
module Gae {
  import opened Products
  import opened Shapes
  import opened Tensors
  import opened TensorOps
  import opened Slabs
  import opened Affine

  /** Rewards, values, next values, bootstrap discounts and trace discounts of one rollout batch. */
  datatype Rollout<T> = Rollout(rewards: T, values: T, next: T, bootstrap: T, trace: T)

  predicate RolloutOk(r: Rollout<Tensor>)
  {
    |r.rewards.shape| >= 2 &&
    r.rewards.shape == r.values.shape == r.next.shape == r.bootstrap.shape == r.trace.shape
  }

  function Residual(r: Rollout<Tensor>): (d: Tensor)
    requires RolloutOk(r)
    ensures d.shape == r.rewards.shape
  {
    Zip(Plus(r.rewards, Hadamard(r.bootstrap, r.next)), r.values, (x: real, y: real) => x - y)
  }

  function Advantages(r: Rollout<Tensor>): (a: Tensor)
    requires RolloutOk(r)
    ensures a.shape == r.rewards.shape
  {
    Flip(AffineStates(Flip(Residual(r), [1]), Flip(r.trace, [1]), 1), [1])
  }

  function Returns(r: Rollout<Tensor>): (a: Tensor)
    requires RolloutOk(r)
    ensures a.shape == r.rewards.shape
  {
    Plus(Advantages(r), r.values)
  }

  // ----- the sequential reference -----

  predicate RowsOk(r: Rollout<seq<real>>)
  {
    |r.rewards| == |r.values| == |r.next| == |r.bootstrap| == |r.trace|
  }

  function ResidualAt(r: Rollout<seq<real>>, t: nat): real
    requires RowsOk(r) && t < |r.rewards|
  {
    r.rewards[t] + Times(r.bootstrap[t], r.next[t]) - r.values[t]
  }

  /** Advantage at step t: the residual plus the discounted advantage of the next step. */
  function Carry(r: Rollout<seq<real>>, t: nat): real
    requires RowsOk(r) && t <= |r.rewards|
    decreases |r.rewards| - t
  {
    if t == |r.rewards| then 0.0 else ResidualAt(r, t) + Times(r.trace[t], Carry(r, t + 1))
  }

  /** The backward loop over one row. */
  method Reference(r: Rollout<seq<real>>) returns (advantage: seq<real>, target: seq<real>)
    requires RowsOk(r)
    ensures |advantage| == |target| == |r.rewards|
    ensures forall t :: 0 <= t < |r.rewards| ==> advantage[t] == Carry(r, t) && target[t] == Carry(r, t) + r.values[t]
  {
    hide Times;
    var n := |r.rewards|;
    var advantages, targets := new real[n], new real[n];
    var carry, t := 0.0, n;
    while t > 0
      invariant 0 <= t <= n && carry == Carry(r, t)
      invariant forall k :: t <= k < n ==> advantages[k] == Carry(r, k) && targets[k] == Carry(r, k) + r.values[k]
    {
      t := t - 1;
      carry := ResidualAt(r, t) + Times(r.trace[t], carry);
      advantages[t] := carry;
      targets[t] := carry + r.values[t];
    }
    return advantages[..], targets[..];
  }

  // ----- agreement -----

  function Lane(t: Tensor, J: Index): (r: seq<real>)
    requires |t.shape| >= 2
    ensures |r| == t.shape[1] && forall k: nat :: k < |r| ==> r[k] == At(t, Insert(J, 1, k))
  {
    seq(t.shape[1], (k: nat) => At(t, Insert(J, 1, k)))
  }

  function Row(r: Rollout<Tensor>, J: Index): (s: Rollout<seq<real>>)
    requires RolloutOk(r)
    ensures RowsOk(s)
  {
    Rollout(Lane(r.rewards, J), Lane(r.values, J), Lane(r.next, J), Lane(r.bootstrap, J), Lane(r.trace, J))
  }

  lemma FlipAt(t: Tensor, J: Index, k: nat)
    requires |t.shape| >= 2 && Valid(Without(t.shape, 1), J) && k < t.shape[1]
    ensures At(Flip(t, [1]), Insert(J, 1, k)) == At(t, Insert(J, 1, t.shape[1] - 1 - k))
  {
    hide Size, At;
    InsertValid(t.shape, 1, J, k);
    assert FlipIx(t.shape, [1], Insert(J, 1, k)) == Insert(J, 1, t.shape[1] - 1 - k);
  }

  lemma ResidualReads(r: Rollout<Tensor>, J: Index, k: nat)
    requires RolloutOk(r) && Valid(Without(r.rewards.shape, 1), J) && k < r.rewards.shape[1]
    ensures At(Residual(r), Insert(J, 1, k)) == ResidualAt(Row(r, J), k)
  {
    hide Size, At, Valid, Times, Insert;
    InsertValid(r.rewards.shape, 1, J, k);
  }

  /** Scanning the flipped residuals runs the recurrence backwards. */
  lemma {:induction false} BackwardState(r: Rollout<Tensor>, J: Index, k: nat)
    requires RolloutOk(r) && Valid(Without(r.rewards.shape, 1), J) && k < r.rewards.shape[1]
    ensures State(Flip(Residual(r), [1]), Flip(r.trace, [1]), 1, J, k) == Carry(Row(r, J), r.rewards.shape[1] - 1 - k)
  {
    hide Size, At, Valid, Times, Insert, Residual, Flip;
    var n := r.rewards.shape[1];
    FlipAt(Residual(r), J, k);
    FlipAt(r.trace, J, k);
    ResidualReads(r, J, n - 1 - k);
    if k == 0 {
      TimesZero(Row(r, J).trace[n - 1]);
    } else {
      BackwardState(r, J, k - 1);
    }
  }

  /** Flip, scan, flip is the sequential backward recurrence on every row. */
  lemma AdvantagesAreSequential(r: Rollout<Tensor>, J: Index, t: nat)
    requires RolloutOk(r) && Valid(Without(r.rewards.shape, 1), J) && t < r.rewards.shape[1]
    ensures At(Advantages(r), Insert(J, 1, t)) == Carry(Row(r, J), t)
    ensures At(Returns(r), Insert(J, 1, t)) == Carry(Row(r, J), t) + Row(r, J).values[t]
  {
    hide Size, Valid, Times, Insert, Residual, Flip, State, Carry, AffineStates, At;
    var n := r.rewards.shape[1];
    var d, m := Flip(Residual(r), [1]), Flip(r.trace, [1]);
    InsertValid(r.rewards.shape, 1, J, t);
    FlipAt(AffineStates(d, m, 1), J, t);
    AffineSolves(d, m, 1, J, n - 1 - t);
    BackwardState(r, J, n - 1 - t);
  }
}
