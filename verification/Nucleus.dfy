/** Nucleus (top-p) sampling of one lane of logits: the cutoff, its minimality, and the draw. */
module Nucleus {
  import opened Options
  import opened Sums

  /** A float, as far as sampling distinguishes them. */
  datatype Logit = Finite(x: real) | NegInfinite | PosInfinite | NotANumber

  type Lane = seq<Logit>

  // ----- stable descending order, not-a-number last -----

  function Level(l: Logit): nat
  {
    match l
    case PosInfinite => 3
    case Finite(_) => 2
    case NegInfinite => 1
    case NotANumber => 0
  }

  predicate Above(a: Logit, b: Logit)
  {
    Level(a) > Level(b) || (a.Finite? && b.Finite? && a.x > b.x)
  }

  /** Category i is listed before category j. */
  predicate Precedes(lane: Lane, i: nat, j: nat)
    requires i < |lane| && j < |lane|
  {
    Above(lane[i], lane[j]) || (!Above(lane[j], lane[i]) && i < j)
  }

  predicate Categories(lane: Lane, order: seq<nat>)
  {
    forall r :: 0 <= r < |order| ==> order[r] < |lane|
  }

  predicate Ordered(lane: Lane, order: seq<nat>)
  {
    Categories(lane, order) && forall r, s :: 0 <= r < s < |order| ==> Precedes(lane, order[r], order[s])
  }

  function InsertInto(lane: Lane, order: seq<nat>, i: nat): (r: seq<nat>)
    requires Categories(lane, order) && i < |lane|
    ensures Categories(lane, r) && |r| == |order| + 1 && forall x :: x in r <==> x in order || x == i
  {
    if order == [] then [i]
    else if Precedes(lane, i, order[0]) then [i] + order
    else [order[0]] + InsertInto(lane, order[1..], i)
  }

  /** The first n categories in order. */
  function SortedIndices(lane: Lane, n: nat): (r: seq<nat>)
    requires n <= |lane|
    ensures Categories(lane, r) && |r| == n
  {
    if n == 0 then [] else InsertInto(lane, SortedIndices(lane, n - 1), n - 1)
  }

  lemma {:induction false} InsertKeepsOrder(lane: Lane, order: seq<nat>, i: nat)
    requires Ordered(lane, order) && i < |lane| && i !in order
    ensures Ordered(lane, InsertInto(lane, order, i))
  {
    if order != [] {
      if Precedes(lane, i, order[0]) {
        forall s | 1 <= s < |order| ensures Precedes(lane, i, order[s]) {
          assert Precedes(lane, order[0], order[s]);
        }
      } else {
        var rest := InsertInto(lane, order[1..], i);
        InsertKeepsOrder(lane, order[1..], i);
        forall s | 0 <= s < |rest| ensures Precedes(lane, order[0], rest[s]) {
          assert rest[s] in rest;
          assert i != order[0];
        }
      }
    }
  }

  /** Every category is listed once, larger logits first and equal ones in their original order. */
  lemma {:induction false} SortedIndicesSorted(lane: Lane, n: nat)
    requires n <= |lane|
    ensures Ordered(lane, SortedIndices(lane, n))
    ensures forall i :: i in SortedIndices(lane, n) <==> 0 <= i < n
  {
    if n > 0 {
      SortedIndicesSorted(lane, n - 1);
      InsertKeepsOrder(lane, SortedIndices(lane, n - 1), n - 1);
    }
  }

  // ----- probabilities -----

  /** Positive and nondecreasing, as the exponential is. */
  ghost predicate Exponential(exp: real -> real)
  {
    (forall x: real :: exp(x) > 0.0) && forall x: real, y: real :: x <= y ==> exp(x) <= exp(y)
  }

  function Weight(exp: real -> real, l: Logit): real
  {
    if l.Finite? then exp(l.x) else 0.0
  }

  /** Sorted logits. */
  function Sorted(lane: Lane): (s: Lane)
    ensures |s| == |lane|
  {
    var order := SortedIndices(lane, |lane|);
    seq(|lane|, (r: nat) requires r < |lane| => lane[order[r]])
  }

  function RankWeight(exp: real -> real, s: Lane, r: nat): real
  {
    if r < |s| then Weight(exp, s[r]) else 0.0
  }

  function Total(exp: real -> real, s: Lane): real
  {
    Sum(|s|, (r: nat) => RankWeight(exp, s, r))
  }

  /** Probability of rank r. */
  function Share(exp: real -> real, s: Lane, r: nat): real
  {
    var total := Total(exp, s);
    if total == 0.0 then 0.0 else RankWeight(exp, s, r) / total
  }

  /** Cumulative probability of the first k ranks. */
  function Mass(exp: real -> real, s: Lane, k: nat): real
  {
    Sum(k, (r: nat) => Share(exp, s, r))
  }

  /** Ranks the cutoff keeps: those whose preceding mass is below p, and always the first; with p = 1, all. */
  predicate Keep(exp: real -> real, s: Lane, p: real, r: nat)
  {
    p == 1.0 || Mass(exp, s, r) < p || r == 0
  }

  /** How many leading ranks are kept, counted from rank k on. */
  function CutFrom(exp: real -> real, s: Lane, p: real, k: nat): (c: nat)
    requires k <= |s|
    ensures k <= c <= |s|
    ensures forall r :: k <= r < c ==> Keep(exp, s, p, r)
    ensures c < |s| ==> !Keep(exp, s, p, c)
    decreases |s| - k
  {
    if k < |s| && Keep(exp, s, p, k) then CutFrom(exp, s, p, k + 1) else k
  }

  function Cut(exp: real -> real, s: Lane, p: real): nat
  {
    CutFrom(exp, s, p, 0)
  }

  /** Only finite logits and minus infinity, with at least one finite. */
  predicate Proper(lane: Lane)
  {
    (forall i :: 0 <= i < |lane| ==> lane[i].Finite? || lane[i].NegInfinite?) && exists i :: 0 <= i < |lane| && lane[i].Finite?
  }

  predicate Descending(s: Lane)
  {
    forall q, r :: 0 <= q < r < |s| ==> !Above(s[r], s[q])
  }

  lemma SortedDescending(lane: Lane)
    ensures Descending(Sorted(lane)) && (Proper(lane) ==> Proper(Sorted(lane)) && Sorted(lane)[0].Finite?)
  {
    SortedIndicesSorted(lane, |lane|);
    var order, s := SortedIndices(lane, |lane|), Sorted(lane);
    forall q, r | 0 <= q < r < |s| ensures !Above(s[r], s[q]) {
      assert Precedes(lane, order[q], order[r]);
    }
    if Proper(lane) {
      var i :| 0 <= i < |lane| && lane[i].Finite?;
      assert i in order;
      var r :| 0 <= r < |order| && order[r] == i;
      assert s[r].Finite?;
      assert r > 0 ==> !Above(s[r], s[0]);
    }
  }

  lemma SharesFall(exp: real -> real, s: Lane, q: nat, r: nat)
    requires Exponential(exp) && Descending(s) && Proper(s) && Total(exp, s) > 0.0 && q <= r
    ensures Share(exp, s, q) >= Share(exp, s, r) >= 0.0
  {
    hide Total;
    if q < r < |s| {
      assert !Above(s[r], s[q]);
    }
    Quotients(RankWeight(exp, s, q), RankWeight(exp, s, r), Total(exp, s));
  }

  lemma Quotients(a: real, b: real, t: real)
    requires a >= b >= 0.0 && t > 0.0
    ensures a / t >= b / t >= 0.0
  {
  }

  lemma {:induction false} PartialPositive(exp: real -> real, s: Lane, n: nat, f: nat -> real)
    requires Exponential(exp) && Proper(s) && f == ((r: nat) => RankWeight(exp, s, r))
    ensures Sum(n, f) >= 0.0 && (n > 0 && |s| > 0 && s[0].Finite? ==> Sum(n, f) > 0.0)
  {
    if n > 0 {
      PartialPositive(exp, s, n - 1, f);
    }
  }

  /** Shares over the whole lane add up to one. */
  lemma MassWhole(exp: real -> real, s: Lane)
    requires Exponential(exp) && Proper(s) && s[0].Finite?
    ensures Total(exp, s) > 0.0 && Mass(exp, s, |s|) == 1.0
  {
    var f := (r: nat) => RankWeight(exp, s, r);
    PartialPositive(exp, s, |s|, f);
    var t := Total(exp, s);
    ScaledSum(exp, s, |s|, f, t);
    assert t * (1.0 / t) == 1.0;
  }

  lemma {:induction false} ScaledSum(exp: real -> real, s: Lane, n: nat, f: nat -> real, t: real)
    requires f == ((r: nat) => RankWeight(exp, s, r)) && t == Total(exp, s) && t > 0.0
    ensures Mass(exp, s, n) == Sum(n, f) / t
  {
    hide Total;
    var g := (r: nat) => Share(exp, s, r);
    if n > 0 {
      ScaledSum(exp, s, n - 1, f, t);
      assert Sum(n, g) == Sum(n - 1, g) + g(n - 1);
    }
  }

  lemma MassStep(exp: real -> real, s: Lane, k: nat)
    ensures Mass(exp, s, k + 1) == Mass(exp, s, k) + Share(exp, s, k) && Mass(exp, s, 0) == 0.0
  {
    hide Share;
  }

  lemma {:induction false} MassGrows(exp: real -> real, s: Lane, j: nat, k: nat)
    requires Exponential(exp) && Descending(s) && Proper(s) && Total(exp, s) > 0.0 && j <= k
    ensures Mass(exp, s, j) <= Mass(exp, s, k)
  {
    hide Share, Total;
    if j < k {
      MassGrows(exp, s, j, k - 1);
      MassStep(exp, s, k - 1);
      SharesFall(exp, s, k - 1, k - 1);
    }
  }

  // ----- the cutoff -----

  /** Exactly a nonempty leading run is kept; below one, its mass reaches p and drops below p without its last member. */
  lemma CutIsNucleus(exp: real -> real, lane: Lane, p: real)
    requires Exponential(exp) && Proper(lane) && 0.0 < p <= 1.0
    ensures var s := Sorted(lane); var k := Cut(exp, s, p);
      && 0 < k <= |s| && (forall r :: 0 <= r < |s| ==> (Keep(exp, s, p, r) <==> r < k))
      && Mass(exp, s, k) >= p
      && (p < 1.0 ==> Mass(exp, s, k - 1) < p)
      && (p == 1.0 ==> k == |s|)
  {
    hide Mass, Total, SortedIndices;
    SortedDescending(lane);
    var s := Sorted(lane);
    var k := Cut(exp, s, p);
    MassWhole(exp, s);
    MassStep(exp, s, 0);
    assert Keep(exp, s, p, 0);
    forall r | 0 <= r < |s| ensures Keep(exp, s, p, r) <==> r < k {
      if r >= k {
        MassGrows(exp, s, k, r);
      }
    }
    assert Keep(exp, s, p, k - 1);
    assert k < |s| ==> !Keep(exp, s, p, k);
  }

  /** Probability of a set of ranks below n. */
  function SetMass(exp: real -> real, s: Lane, ranks: set<nat>, n: nat): real
  {
    Sum(n, (r: nat) => if r in ranks then Share(exp, s, r) else 0.0)
  }

  /** No m ranks weigh more than the first m. */
  lemma {:induction false} LeadingIsHeaviest(exp: real -> real, s: Lane, ranks: set<nat>, n: nat)
    requires Exponential(exp) && Descending(s) && Proper(s) && Total(exp, s) > 0.0 && forall r :: r in ranks ==> r < n
    ensures |ranks| <= n && SetMass(exp, s, ranks, n) <= Mass(exp, s, |ranks|)
    decreases n
  {
    hide Share, Total, Mass;
    MassStep(exp, s, 0);
    if n == 0 {
      assert ranks == {};
    } else if n - 1 in ranks {
      var rest := ranks - {n - 1};
      LeadingIsHeaviest(exp, s, rest, n - 1);
      SumCong(n - 1, (r: nat) => if r in rest then Share(exp, s, r) else 0.0, (r: nat) => if r in ranks then Share(exp, s, r) else 0.0);
      MassStep(exp, s, |rest|);
      SharesFall(exp, s, |rest|, n - 1);
    } else {
      LeadingIsHeaviest(exp, s, ranks, n - 1);
    }
  }

  /** Below one, no smaller set of categories reaches probability p. */
  lemma NucleusIsSmallest(exp: real -> real, lane: Lane, p: real, ranks: set<nat>)
    requires Exponential(exp) && Proper(lane) && 0.0 < p < 1.0 && (forall r :: r in ranks ==> r < |lane|)
    requires SetMass(exp, Sorted(lane), ranks, |lane|) >= p
    ensures |ranks| >= Cut(exp, Sorted(lane), p)
  {
    hide Mass, Total, SortedIndices, SetMass;
    SortedDescending(lane);
    var s := Sorted(lane);
    CutIsNucleus(exp, lane, p);
    MassWhole(exp, s);
    LeadingIsHeaviest(exp, s, ranks, |lane|);
    if |ranks| < Cut(exp, s, p) {
      MassGrows(exp, s, |ranks|, Cut(exp, s, p) - 1);
    }
  }

  // ----- the draw -----

  datatype Draw = Draw(index: nat, valid: bool)

  /** First position of a largest score among the first n. */
  function ArgMax(scores: Lane, n: nat): (b: nat)
    requires 0 < n <= |scores|
    ensures b < n
    ensures forall j :: 0 <= j < n ==> !Above(scores[j], scores[b])
    ensures forall j :: 0 <= j < b ==> Above(scores[b], scores[j])
  {
    if n == 1 then 0 else
      var b := ArgMax(scores, n - 1);
      if Above(scores[n - 1], scores[b]) then n - 1 else b
  }

  /** The largest finite logit, or zero when there is none. */
  function Centre(lane: Lane): real
    requires |lane| > 0
  {
    var safe := seq(|lane|, (i: nat) requires i < |lane| => if lane[i].Finite? then lane[i] else NegInfinite);
    var top := safe[ArgMax(safe, |safe|)];
    if top.Finite? then top.x else 0.0
  }

  function Scores(lane: Lane, noise: seq<real>): (s: Lane)
    requires |lane| == |noise| > 0
    ensures |s| == |lane|
    ensures forall i :: 0 <= i < |s| ==> s[i] == if lane[i].Finite? then Finite(lane[i].x - Centre(lane) + noise[i]) else NegInfinite
  {
    var c := Centre(lane);
    seq(|lane|, (i: nat) requires i < |lane| => if lane[i].Finite? then Finite(lane[i].x - c + noise[i]) else NegInfinite)
  }

  /** Gumbel-max over one lane with given noise. */
  function Categorical(lane: Lane, noise: seq<real>): Draw
    requires |lane| == |noise| > 0
  {
    if Proper(lane) then Draw(ArgMax(Scores(lane, noise), |lane|), true) else Draw(0, false)
  }

  function Filtered(exp: real -> real, s: Lane, p: real): (f: Lane)
    ensures |f| == |s| && forall r :: 0 <= r < |s| ==> f[r] == if Keep(exp, s, p, r) then s[r] else NegInfinite
  {
    seq(|s|, (r: nat) requires r < |s| => if Keep(exp, s, p, r) then s[r] else NegInfinite)
  }

  /** One lane of top_p_categorical_from_bits; noise is assigned in rank order. */
  function TopP(exp: real -> real, lane: Lane, noise: seq<real>, p: real): Option<Draw>
  {
    if p <= 0.0 || p > 1.0 || |noise| != |lane| || lane == [] then None
    else
      var draw := Categorical(Filtered(exp, Sorted(lane), p), noise);
      if Proper(lane) && draw.valid && draw.index < |lane| then Some(Draw(SortedIndices(lane, |lane|)[draw.index], true))
      else Some(Draw(0, false))
  }

  /** A draw is valid exactly on proper lanes; it is then the kept category, with a finite logit, of largest perturbed
      logit. Anything else answers category zero, marked invalid. */
  lemma TopPDraws(exp: real -> real, lane: Lane, noise: seq<real>, p: real)
    requires Exponential(exp) && 0.0 < p <= 1.0 && |noise| == |lane| > 0
    ensures TopP(exp, lane, noise, p).Some?
    ensures var draw, s, order := TopP(exp, lane, noise, p).value, Sorted(lane), SortedIndices(lane, |lane|);
      && (draw.valid <==> Proper(lane)) && (!draw.valid ==> draw.index == 0)
      && (draw.valid ==> exists r :: 0 <= r < Cut(exp, s, p) && Drawn(lane, order, noise, Cut(exp, s, p), r, draw.index))
  {
    hide SortedIndices, Mass, Keep, Centre, ArgMax, Cut, Drawn, Sorted;
    if Proper(lane) {
      var order := SortedIndices(lane, |lane|);
      var r := ProperDraw(exp, lane, noise, p);
      assert TopP(exp, lane, noise, p) == Some(Draw(order[r], true));
      assert Drawn(lane, order, noise, Cut(exp, Sorted(lane), p), r, order[r]);
    }
  }

  lemma ProperDraw(exp: real -> real, lane: Lane, noise: seq<real>, p: real) returns (r: nat)
    requires Exponential(exp) && 0.0 < p <= 1.0 && |noise| == |lane| && Proper(lane)
    ensures var order, k := SortedIndices(lane, |lane|), Cut(exp, Sorted(lane), p);
      && r < k <= |lane| && Categorical(Filtered(exp, Sorted(lane), p), noise) == Draw(r, true)
      && Drawn(lane, order, noise, k, r, order[r])
  {
    hide SortedIndices, Mass, Keep, Centre, ArgMax;
    SortedDescending(lane);
    CutIsNucleus(exp, lane, p);
    var s, order, k := Sorted(lane), SortedIndices(lane, |lane|), Cut(exp, Sorted(lane), p);
    var f := Filtered(exp, s, p);
    assert f[0] == s[0];
    assert Proper(f);
    var scores := Scores(f, noise);
    r := ArgMax(scores, |scores|);
    assert !Above(scores[0], scores[r]);
    assert f[r].Finite? && r < k;
    forall q | 0 <= q < k && lane[order[q]].Finite?
      ensures lane[order[q]].x + noise[q] <= lane[order[r]].x + noise[r]
    {
      assert f[q] == s[q] && !Above(scores[q], scores[r]);
    }
  }

  /** Category i, of rank r, has a finite logit and the largest perturbed logit among the first k ranks. */
  predicate Drawn(lane: Lane, order: seq<nat>, noise: seq<real>, k: nat, r: nat, i: nat)
    requires Categories(lane, order) && |order| == |lane| == |noise| && k <= |lane|
  {
    && r < k && i == order[r] && lane[i].Finite?
    && forall q :: 0 <= q < k && lane[order[q]].Finite? ==> lane[order[q]].x + noise[q] <= lane[i].x + noise[r]
  }
}
