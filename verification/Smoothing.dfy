/** Frequency smoothing: the arithmetic that makes every label equally likely.

    Probabilities are exact reals.  A slot of a security batch is one draw of the coin of
    `is_true_distribution`, one draw of a key from the real or the fake distribution, and one
    draw of a replica in `sample_a_replica`. */
module Smoothing {
  import opened Sums

  function Ceil(x: real): int {
    -((-x).Floor)
  }

  /** `ceil(pi / alpha)` */
  function ReplicaCount(pi: real, alpha: real): int
    requires alpha > 0.0
  {
    Ceil(pi / alpha)
  }

  function ReplicaCounts(probs: seq<real>, alpha: real): (r: seq<int>)
    requires alpha > 0.0
    ensures |r| == |probs|
  {
    seq(|probs|, i requires 0 <= i < |probs| => ReplicaCount(probs[i], alpha))
  }

  /** `2*keys.size() - keys_created` */
  function DummyCount(probs: seq<real>, alpha: real): int
    requires alpha > 0.0
  {
    2 * |probs| - Total(ReplicaCounts(probs, alpha))
  }

  ghost predicate IsDistribution(probs: seq<real>) {
    && (forall i :: 0 <= i < |probs| ==> probs[i] > 0.0)
    && Sum(probs) == 1.0
  }

  /** What `ceil` promises, free of the division: r is the least count whose capacity
      r*alpha covers pi. */
  lemma CountCovers(pi: real, alpha: real)
    requires pi > 0.0 && alpha > 0.0
    ensures var r := ReplicaCount(pi, alpha);
            r >= 1 && pi <= r as real * alpha < pi + alpha
  {
    var q, r := pi / alpha, ReplicaCount(pi, alpha);
    assert q * alpha == pi;
    assert q <= r as real < q + 1.0;
    Within(q, r as real, alpha, pi, r as real * alpha);
    Scale(0.0, q, alpha);
  }

  lemma Within(q: real, r: real, a: real, x: real, y: real)
    requires q <= r < q + 1.0 && a > 0.0 && q * a == x && r * a == y
    ensures x <= y < x + a
  {
    InOrder(q, r, a, x, y);
    OneMore(q, a, x);
    InOrder(q + 1.0, r, a, x + a, y);
  }

  lemma InOrder(q: real, r: real, a: real, x: real, y: real)
    requires a > 0.0 && q * a == x && r * a == y
    ensures q <= r <==> x <= y
  {
    Scale(q, r, a);
  }

  lemma OneMore(q: real, a: real, x: real)
    requires q * a == x
    ensures (q + 1.0) * a == x + a
  {
  }

  lemma Distribute(x: real, y: real, a: real)
    ensures (x + y) * a == x * a + y * a
    ensures (x - y) * a == x * a - y * a
  {
  }

  /** Multiplying by a positive number keeps and reflects the order. */
  lemma Scale(x: real, y: real, a: real)
    requires a > 0.0
    ensures x <= y <==> x * a <= y * a
    ensures x < y <==> x * a < y * a
  {
  }

  /** n keys with total probability `sum` have t replicas. */
  ghost predicate Bounded(t: int, sum: real, n: nat, alpha: real) {
    && t >= n
    && sum <= t as real * alpha <= sum + n as real * alpha
    && (n > 0 ==> t as real * alpha < sum + n as real * alpha)
  }

  lemma BoundedNext(t: int, c: int, n: nat, alpha: real, sum: real, pi: real)
    requires alpha > 0.0 && Bounded(t, sum, n, alpha) && c >= 1 && pi <= c as real * alpha < pi + alpha
    ensures Bounded(t + c, sum + pi, n + 1, alpha)
  {
    assert (t + c) as real * alpha == t as real * alpha + c as real * alpha;
    assert (n + 1) as real * alpha == n as real * alpha + alpha;
  }

  lemma {:induction false} CountsCover(probs: seq<real>, alpha: real)
    requires alpha > 0.0
    requires forall i :: 0 <= i < |probs| ==> probs[i] > 0.0
    ensures Bounded(Total(ReplicaCounts(probs, alpha)), Sum(probs), |probs|, alpha)
  {
    if probs == [] {
      assert ReplicaCounts(probs, alpha) == [];
    } else {
      hide Bounded, ReplicaCount;
      var front, last := probs[..|probs| - 1], probs[|probs| - 1];
      CountsCover(front, alpha);
      CountCovers(last, alpha);
      CountsSnoc(probs, alpha);
      BoundedNext(Total(ReplicaCounts(front, alpha)), ReplicaCount(last, alpha), |front|, alpha, Sum(front), last);
    }
  }

  lemma CountsSnoc(probs: seq<real>, alpha: real)
    requires alpha > 0.0 && probs != []
    ensures var front, last := probs[..|probs| - 1], probs[|probs| - 1];
            Total(ReplicaCounts(probs, alpha)) == Total(ReplicaCounts(front, alpha)) + ReplicaCount(last, alpha)
  {
    hide ReplicaCount;
    var front, last := probs[..|probs| - 1], probs[|probs| - 1];
    assert ReplicaCounts(probs, alpha) == ReplicaCounts(front, alpha) + [ReplicaCount(last, alpha)];
    TotalSnoc(ReplicaCounts(front, alpha), ReplicaCount(last, alpha));
  }

  /** For every positive distribution and every alpha >= 1/n: at least n real replicas and
      fewer than 2n, so the number of dummies is between 1 and n. */
  lemma ReplicaBudget(probs: seq<real>, alpha: real)
    requires IsDistribution(probs)
    requires alpha > 0.0 && alpha * |probs| as real >= 1.0
    ensures |probs| <= Total(ReplicaCounts(probs, alpha)) < 2 * |probs|
    ensures 1 <= DummyCount(probs, alpha) <= |probs|
  {
    CountsCover(probs, alpha);
    BoundedBudget(Total(ReplicaCounts(probs, alpha)), |probs|, alpha);
  }

  lemma BoundedBudget(t: int, n: nat, alpha: real)
    requires Bounded(t, 1.0, n, alpha) && alpha > 0.0 && alpha * n as real >= 1.0
    ensures n <= t < 2 * n
  {
    var a := n as real * alpha;
    assert a >= 1.0 && (2 * n) as real * alpha == a + a;
    assert n > 0;
    Scale(t as real, (2 * n) as real, alpha);
  }

  // ------------------------------------------------------------------ fake weights

  /** `fake_probabilities` of `create_replicas`; the last entry is the dummy's and is pushed
      only when there are dummies. */
  function CreateFakeWeights(probs: seq<real>, alpha: real, delta: real): (w: seq<real>)
    requires alpha > 0.0 && delta != 0.0 && 1.0 / delta - 1.0 != 0.0
    requires forall i :: 0 <= i < |probs| ==> probs[i] > 0.0
    requires DummyCount(probs, alpha) >= 0
    ensures |w| == |probs| + if DummyCount(probs, alpha) != 0 then 1 else 0
  {
    var scale := 1.0 / delta - 1.0;
    KeyFakes(probs, alpha, scale)
    + if DummyCount(probs, alpha) != 0 then [DummyFake(DummyCount(probs, alpha), alpha, scale)] else []
  }

  function KeyFakes(probs: seq<real>, alpha: real, scale: real): (s: seq<real>)
    requires alpha > 0.0 && scale != 0.0
    requires forall i :: 0 <= i < |probs| ==> probs[i] > 0.0
    ensures |s| == |probs|
  {
    seq(|probs|, i requires 0 <= i < |probs| => KeyFake(probs[i], alpha, scale))
  }

  function KeyFake(pi: real, alpha: real, scale: real): real
    requires pi > 0.0 && alpha > 0.0 && scale != 0.0
  {
    CountCovers(pi, alpha);
    CreateWeight(ReplicaCount(pi, alpha), pi, alpha) / scale
  }

  /** `(alpha_ / (1 / delta_ - 1)) * dummy_r_i` */
  function DummyFake(dummies: int, alpha: real, scale: real): real
    requires scale != 0.0
  {
    alpha / scale * dummies as real
  }

  /** `r_i * (alpha_ - pi/r_i)` */
  function CreateWeight(r: int, pi: real, alpha: real): real
    requires r != 0
  {
    r as real * (alpha - pi / r as real)
  }

  /** `fake_probabilities` of `recompute_fake_distribution`. */
  function RecomputedWeights(probs: seq<real>, counts: seq<int>, dummies: int, pMax: real): (w: seq<real>)
    requires |counts| == |probs|
    ensures |w| == |probs| + 1
  {
    seq(|probs|, i requires 0 <= i < |probs| => Weight(counts[i], probs[i], pMax))
    + [Weight(dummies, 0.0, pMax)]
  }

  /** `r*p_max_ - pi` */
  function Weight(r: int, pi: real, pMax: real): real {
    r as real * pMax - pi
  }

  /** `std::discrete_distribution` divides the weights it is given by their sum. */
  function Normalised(w: seq<real>): (m: seq<real>)
    requires Sum(w) != 0.0
    ensures |m| == |w|
  {
    seq(|w|, i requires 0 <= i < |w| => w[i] / Sum(w))
  }

  lemma {:induction false} SumRecomputed(w: seq<real>, probs: seq<real>, counts: seq<int>, pMax: real)
    requires |w| == |counts| == |probs|
    requires forall i :: 0 <= i < |w| ==> w[i] == Weight(counts[i], probs[i], pMax)
    ensures Sum(w) == Weight(Total(counts), Sum(probs), pMax)
  {
    if w != [] {
      var m := |w| - 1;
      SumRecomputed(w[..m], probs[..m], counts[..m], pMax);
      AddWeights(Total(counts[..m]), Sum(probs[..m]), counts[m], probs[m], pMax);
    }
  }

  lemma AddWeights(r: int, x: real, s: int, y: real, pMax: real)
    ensures Weight(r, x, pMax) + Weight(s, y, pMax) == Weight(r + s, x + y, pMax)
  {
    Distribute(r as real, s as real, pMax);
  }

  /** The number of labels for n keys. */
  function Labels(n: nat): real {
    (2 * n) as real
  }

  /** For every p_max >= alpha >= 1/n the recomputed weights are non-negative and sum to
      2*n*p_max - 1, which is at least 1. */
  lemma RecomputedWeightsSound(probs: seq<real>, n: nat, alpha: real, pMax: real)
    requires IsDistribution(probs) && n == |probs|
    requires alpha > 0.0 && alpha * n as real >= 1.0 && pMax >= alpha
    ensures var w := RecomputedWeights(probs, ReplicaCounts(probs, alpha), DummyCount(probs, alpha), pMax);
            && (forall i :: 0 <= i < |w| ==> w[i] >= 0.0)
            && Sum(w) == Labels(n) * pMax - 1.0 >= 1.0
  {
    ReplicaBudget(probs, alpha);
    RecomputedNonNegative(probs, alpha, pMax);
    RecomputedSum(probs, ReplicaCounts(probs, alpha), DummyCount(probs, alpha), n, pMax);
    SpaceBound(n, alpha, pMax);
  }

  lemma RecomputedNonNegative(probs: seq<real>, alpha: real, pMax: real)
    requires alpha > 0.0 && pMax >= alpha && DummyCount(probs, alpha) >= 0
    requires forall i :: 0 <= i < |probs| ==> probs[i] > 0.0
    ensures var w := RecomputedWeights(probs, ReplicaCounts(probs, alpha), DummyCount(probs, alpha), pMax);
            forall i :: 0 <= i < |w| ==> w[i] >= 0.0
  {
    var w := RecomputedWeights(probs, ReplicaCounts(probs, alpha), DummyCount(probs, alpha), pMax);
    forall i | 0 <= i < |w|
      ensures w[i] >= 0.0
    {
      if i < |probs| {
        WeightNonNegative(probs[i], alpha, pMax);
      } else {
        LargerFactor(DummyCount(probs, alpha) as real, 0.0, pMax);
      }
    }
  }

  /** Whatever the counts are, the weights sum to (number of labels)*p_max minus the total
      probability. */
  lemma RecomputedSum(probs: seq<real>, counts: seq<int>, dummies: int, n: nat, pMax: real)
    requires |counts| == |probs| && Total(counts) + dummies == 2 * n
    ensures Sum(RecomputedWeights(probs, counts, dummies, pMax)) == Weight(2 * n, Sum(probs), pMax)
  {
    WeightsTotal(RecomputedWeights(probs, counts, dummies, pMax), probs, counts, dummies, n, pMax);
  }

  lemma WeightsTotal(w: seq<real>, probs: seq<real>, counts: seq<int>, dummies: int, n: nat, pMax: real)
    requires |w| == |probs| + 1 && |counts| == |probs|
    requires forall i :: 0 <= i < |probs| ==> w[i] == Weight(counts[i], probs[i], pMax)
    requires w[|probs|] == Weight(dummies, 0.0, pMax)
    requires Total(counts) + dummies == 2 * n
    ensures Sum(w) == Weight(2 * n, Sum(probs), pMax)
  {
    WeightsSum(w, probs, counts, dummies, pMax);
    AddWeights(Total(counts), Sum(probs), dummies, 0.0, pMax);
  }

  lemma WeightsSum(w: seq<real>, probs: seq<real>, counts: seq<int>, dummies: int, pMax: real)
    requires |w| == |probs| + 1 && |counts| == |probs|
    requires forall i :: 0 <= i < |probs| ==> w[i] == Weight(counts[i], probs[i], pMax)
    requires w[|probs|] == Weight(dummies, 0.0, pMax)
    ensures Sum(w) == Weight(Total(counts), Sum(probs), pMax) + Weight(dummies, 0.0, pMax)
  {
    SumRecomputed(w[..|probs|], probs, counts, pMax);
    assert w[..|w| - 1] == w[..|probs|];
  }

  lemma WeightNonNegative(pi: real, alpha: real, pMax: real)
    requires pi > 0.0 && alpha > 0.0 && pMax >= alpha
    ensures Weight(ReplicaCount(pi, alpha), pi, pMax) >= 0.0
  {
    CountCovers(pi, alpha);
    LargerFactor(ReplicaCount(pi, alpha) as real, alpha, pMax);
  }

  lemma SpaceBound(n: nat, alpha: real, pMax: real)
    requires pMax >= alpha > 0.0 && alpha * n as real >= 1.0
    ensures Labels(n) * pMax >= 2.0 && Labels(n) * alpha >= 2.0
  {
    Distribute(n as real, n as real, pMax);
    Distribute(n as real, n as real, alpha);
    LargerFactor(n as real, alpha, pMax);
  }

  lemma LargerFactor(r: real, a: real, p: real)
    requires r >= 0.0 && p >= a
    ensures r * p >= r * a
  {
  }

  /** Large enough for n keys: at least 1/n. */
  ghost predicate Enough(alpha: real, n: nat) {
    alpha > 0.0 && alpha * n as real >= 1.0
  }

  /** The bias `main` chooses: alpha is 1/n. */
  ghost predicate IsAlpha(alpha: real, n: nat) {
    alpha > 0.0 && alpha * n as real == 1.0
  }

  /** The labels outweigh the probabilities. */
  ghost predicate Roomy(n: nat, pMax: real) {
    Labels(n) * pMax > 1.0
  }

  /** Non-negative weights with the total 2*n*p_max - 1, which the coin is made for. */
  ghost predicate ProperWeights(w: seq<real>, n: nat, pMax: real) {
    (forall i :: 0 <= i < |w| ==> w[i] >= 0.0) && Sum(w) == Weight(2 * n, 1.0, pMax) >= 1.0
  }

  lemma RecomputedTotal(probs: seq<real>, counts: seq<int>, dummies: int, n: nat, pMax: real)
    requires |counts| == |probs| && Total(counts) + dummies == 2 * n && Sum(probs) == 1.0 && Enough(pMax, n)
    ensures Sum(RecomputedWeights(probs, counts, dummies, pMax)) == Weight(2 * n, 1.0, pMax) >= 1.0
  {
    RecomputedSum(probs, counts, dummies, n, pMax);
    EnoughIsRoomy(n, pMax);
  }

  lemma EnoughIsRoomy(n: nat, pMax: real)
    requires Enough(pMax, n)
    ensures Roomy(n, pMax) && Weight(2 * n, 1.0, pMax) >= 1.0
  {
    SpaceBound(n, pMax, pMax);
  }

  lemma LargerIsEnough(alpha: real, pMax: real, n: nat)
    requires Enough(alpha, n) && pMax >= alpha
    ensures Enough(pMax, n)
  {
    LargerFactor(n as real, alpha, pMax);
  }

  lemma AlphaIsEnough(alpha: real, n: nat)
    requires IsAlpha(alpha, n)
    ensures Enough(alpha, n)
  {
  }

  /** The bias `alpha`, `delta` that `main` computes from the number of keys: both hypotheses of
      the smoothing theorems hold, with equality. */
  function MainAlpha(n: nat): real
    requires n > 0
  {
    1.0 / n as real
  }

  function MainDelta(n: nat): real
    requires n > 0
  {
    1.0 / (2 * n) as real * 1.0 / MainAlpha(n)
  }

  lemma MainParameters(n: nat)
    requires n > 0
    ensures MainAlpha(n) > 0.0 && MainAlpha(n) * n as real == 1.0
    ensures MainDelta(n) == 1.0 / ((2 * n) as real * MainAlpha(n)) == 0.5
  {
    var m, a := n as real, MainAlpha(n);
    assert a * m == 1.0;
    assert (2 * n) as real * a == 2.0;
    assert 1.0 / (2 * n) as real == a / 2.0;
  }

  /** For every alpha >= 1/n and delta = 1/(2*n*alpha), the fake weights of `create_replicas`
      are non-negative and already sum to 1, and they are what `recompute_fake_distribution`
      normalises to when p_max is alpha. */
  lemma CreateFakeWeightsSound(probs: seq<real>, n: nat, alpha: real, delta: real)
    requires IsDistribution(probs) && n == |probs|
    requires alpha > 0.0 && alpha * n as real >= 1.0
    requires delta == 1.0 / (Labels(n) * alpha)
    ensures delta > 0.0 && 1.0 / delta - 1.0 >= 1.0
    ensures DummyCount(probs, alpha) > 0
    ensures var u := CreateFakeWeights(probs, alpha, delta);
            var w := RecomputedWeights(probs, ReplicaCounts(probs, alpha), DummyCount(probs, alpha), alpha);
            && |u| == n + 1
            && (forall i :: 0 <= i < |u| ==> u[i] >= 0.0)
            && Sum(u) == 1.0
            && Sum(w) != 0.0 && u == Normalised(w)
  {
    ReplicaBudget(probs, alpha);
    SpaceBound(n, alpha, alpha);
    Reciprocal(delta, Labels(n) * alpha);
    RecomputedWeightsSound(probs, n, alpha, alpha);
    CreateIsScaled(probs, alpha, delta);
    ScaledSumsToOne(RecomputedWeights(probs, ReplicaCounts(probs, alpha), DummyCount(probs, alpha), alpha),
                    CreateFakeWeights(probs, alpha, delta), 1.0 / delta - 1.0);
  }

  ghost predicate IsPart(u: real, w: real, scale: real)
    requires scale != 0.0
  {
    w >= 0.0 && u == w / scale
  }

  lemma ScaledSumsToOne(w: seq<real>, u: seq<real>, scale: real)
    requires |u| == |w| && Sum(w) == scale > 0.0
    requires forall i :: 0 <= i < |w| ==> IsPart(u[i], w[i], scale)
    ensures forall i :: 0 <= i < |u| ==> u[i] >= 0.0
    ensures Sum(u) == 1.0 && u == Normalised(w)
  {
    hide IsPart, Sum, Normalised;
    PartsSum(w, u, scale);
    ScaledTotal(Sum(w), Sum(u), scale);
    PartsNormalised(w, u, scale);
  }

  lemma PartsSum(w: seq<real>, u: seq<real>, scale: real)
    requires |u| == |w| && scale > 0.0 && forall i :: 0 <= i < |w| ==> IsPart(u[i], w[i], scale)
    ensures Sum(w) == Sum(u) * scale
    ensures forall i :: 0 <= i < |u| ==> u[i] >= 0.0
  {
    hide IsPart, Sum;
    forall i | 0 <= i < |w|
      ensures w[i] == u[i] * scale && u[i] >= 0.0
    {
      ScaledEntry(w[i], u[i], scale);
    }
    SumScaled(u, w, scale);
  }

  lemma PartsNormalised(w: seq<real>, u: seq<real>, scale: real)
    requires |u| == |w| && Sum(w) == scale > 0.0 && forall i :: 0 <= i < |w| ==> IsPart(u[i], w[i], scale)
    ensures u == Normalised(w)
  {
  }

  lemma ScaledEntry(w: real, u: real, scale: real)
    requires scale > 0.0 && IsPart(u, w, scale)
    ensures w == u * scale && u >= 0.0
  {
    Quotient(w, scale);
  }

  lemma ScaledTotal(w: real, u: real, scale: real)
    requires w == u * scale && w == scale > 0.0
    ensures u == 1.0
  {
    assert (u - 1.0) * scale == 0.0;
  }

  lemma CreateIsScaled(probs: seq<real>, alpha: real, delta: real)
    requires alpha > 0.0 && delta > 0.0 && 1.0 / delta - 1.0 > 0.0
    requires forall i :: 0 <= i < |probs| ==> probs[i] > 0.0
    requires DummyCount(probs, alpha) > 0
    ensures var u := CreateFakeWeights(probs, alpha, delta);
            var w := RecomputedWeights(probs, ReplicaCounts(probs, alpha), DummyCount(probs, alpha), alpha);
            var scale := 1.0 / delta - 1.0;
            |u| == |w| && forall i :: 0 <= i < |u| ==> w[i] >= 0.0 ==> IsPart(u[i], w[i], scale)
  {
    var u := CreateFakeWeights(probs, alpha, delta);
    forall i | 0 <= i < |u|
      ensures u[i] == RecomputedWeights(probs, ReplicaCounts(probs, alpha), DummyCount(probs, alpha), alpha)[i]
                      / (1.0 / delta - 1.0)
    {
      if i < |probs| {
        CountCovers(probs[i], alpha);
        CreateWeightIsWeight(ReplicaCount(probs[i], alpha), probs[i], alpha);
      } else {
        DummyWeight(alpha, 1.0 / delta - 1.0, DummyCount(probs, alpha));
      }
    }
  }

  lemma DummyWeight(alpha: real, s: real, d: int)
    requires s > 0.0
    ensures alpha / s * d as real == Weight(d, 0.0, alpha) / s
  {
    assert alpha / s * s == alpha;
  }

  lemma Reciprocal(x: real, y: real)
    requires y > 0.0 && x == 1.0 / y
    ensures x > 0.0 && 1.0 / x == y
  {
  }

  lemma Quotient(w: real, s: real)
    requires s > 0.0
    ensures w / s == w * (1.0 / s)
    ensures w >= 0.0 ==> w / s >= 0.0
  {
  }

  lemma CreateWeightIsWeight(r: int, pi: real, alpha: real)
    requires r >= 1
    ensures CreateWeight(r, pi, alpha) == Weight(r, pi, alpha)
  {
    var x := r as real;
    assert x * (pi / x) == pi;
  }
}
