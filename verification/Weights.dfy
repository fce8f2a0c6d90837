/** When the fake weights that a redistribution leaves are non-negative. */
module Weights {
  import opened Sums
  import opened Smoothing
  import opened Directory
  import opened UpdateCache
  import opened Plans
  import opened Redistribution

  // ------------------------------------------------------------------ with a key in transition

  /** A key in transition has at least two replicas, so its probability, and with it p_max, exceeds alpha:
      whatever alpha is, all weights are non-negative. */
  lemma TransitionWeighs(q: Plan, missing: Entries)
    requires q.Sensible() && Gives(q.replicas, q.keys, NatCounts(q.probs, q.alpha)) && q.FrequencyIsProbs()
    requires q.Transition(missing) && missing != map[]
    ensures q.pMax > q.alpha && q.Weighted()
  {
    var k :| k in missing;
    assert k in q.replicas && q.frequency[k] <= q.pMax;
    var i :| 0 <= i < |q.keys| && q.keys[i] == k;
    AboveAlpha(q.probs[i], q.alpha);
    CountsWeigh(q);
  }

  lemma AboveAlpha(pi: real, alpha: real)
    requires pi > 0.0 && alpha > 0.0 && ReplicaCount(pi, alpha) >= 2
    ensures pi > alpha
  {
    CountCovers(pi, alpha);
    LargerFactor(alpha, 2.0, ReplicaCount(pi, alpha) as real);
  }

  /** Counts of one replica are those of probabilities up to alpha. */
  lemma OneReplica(pi: real, alpha: real)
    requires 0.0 < pi <= alpha
    ensures ReplicaCount(pi, alpha) == 1
  {
    CountCovers(pi, alpha);
    if ReplicaCount(pi, alpha) >= 2 {
      AboveAlpha(pi, alpha);
    }
  }

  // ------------------------------------------------------------------ with nothing in transition

  /** q is what a redistribution of p over the same keys leaves. */
  ghost predicate Becomes(p: Plan, missing: Entries, q: Plan) {
    && Follows(p, q)
    && IsPMax(q.pMax, q.size, Grown(missing, q.keys, NatCounts(q.probs, q.alpha), p.Counts()), q.frequency)
  }

  /** With nothing in transition, the weights are non-negative after every redistribution over the same
      keys if and only if alpha is 1/n, or there is a single key. */
  lemma WeightsExactly(p: Plan)
    requires p.Smooth()
    ensures (forall q :: Becomes(p, map[], q) ==> q.Weighted()) <==> IsAlpha(p.alpha, p.size) || p.size == 1
  {
    hide Plan.Smooth, Follows;
    if IsAlpha(p.alpha, p.size) || p.size == 1 {
      forall q | Becomes(p, map[], q)
        ensures q.Weighted()
      {
        BecomesWeighted(p, q);
      }
    } else {
      var q := BecomesNegative(p);
    }
  }

  lemma BecomesWeighted(p: Plan, q: Plan)
    requires p.Smooth() && Becomes(p, map[], q) && (IsAlpha(p.alpha, p.size) || p.size == 1)
    ensures q.Weighted()
  {
    hide Bijection, Redistributed, Grown;
    PMaxIsEnough(q.pMax, q.size, Grown(map[], q.keys, NatCounts(q.probs, q.alpha), p.Counts()), q.frequency);
    if IsAlpha(p.alpha, p.size) {
      CountsWeigh(q);
    } else {
      OneKey(q);
    }
  }

  lemma OneKey(q: Plan)
    requires q.Sensible() && q.size == 1 && Gives(q.replicas, q.keys, NatCounts(q.probs, q.alpha)) && Enough(q.pMax, 1)
    ensures q.Weighted()
  {
    OnlyOne(q.probs);
    LargerFactor(q.pMax, 1.0, At(q.replicas, q.keys[0]) as real);
  }

  lemma OnlyOne(probs: seq<real>)
    requires |probs| == 1
    ensures Sum(probs) == probs[0]
  {
    assert Sum(probs[..0]) == 0.0;
  }

  // ------------------------------------------------------------------ a larger alpha

  /** One probability above 1/n and the others equal, none above alpha. */
  lemma UnevenPair(n: nat, alpha: real) returns (a: real, b: real)
    requires n >= 2 && Enough(alpha, n) && !IsAlpha(alpha, n)
    ensures MainAlpha(n) < a <= alpha && 0.0 < b <= alpha && b * (n - 1) as real + a == 1.0
  {
    var m := MainAlpha(n);
    MainParameters(n);
    Scale(m, alpha, n as real);
    AtMostHalf(m, n as real);
    var eps := if alpha - m < m / 2.0 then alpha - m else m / 2.0;
    a := m + eps;
    b := RestShared(m, n, eps);
  }

  /** The rest of the probability, shared equally. */
  lemma RestShared(m: real, n: nat, eps: real) returns (b: real)
    requires n >= 2 && m * n as real == 1.0 && 0.0 < m <= 0.5 && 0.0 < eps <= m / 2.0
    ensures 0.0 < b < m && b * (n - 1) as real + (m + eps) == 1.0
  {
    var k := (n - 1) as real;
    b := (1.0 - (m + eps)) / k;
    assert b * k == 1.0 - (m + eps);
    MinusOne(m, n as real, k);
    Below(b, m, k, 1.0 - (m + eps), 1.0 - m);
  }

  lemma Below(b: real, m: real, k: real, x: real, y: real)
    requires k > 0.0 && b * k == x && m * k == y && 0.0 < x < y
    ensures 0.0 < b < m
  {
    Scale(b, m, k);
    Scale(0.0, b, k);
  }

  lemma MinusOne(m: real, n: real, k: real)
    requires m * n == 1.0 && k == n - 1.0
    ensures m * k == 1.0 - m
  {
  }

  lemma AtMostHalf(m: real, n: real)
    requires m * n == 1.0 && n >= 2.0
    ensures 0.0 < m <= 0.5
  {
    Scale(0.5, m, n);
  }

  function Uneven(n: nat, a: real, b: real): (s: seq<real>)
    requires n > 0
    ensures |s| == n && s[n - 1] == a && forall i :: 0 <= i < n - 1 ==> s[i] == b
  {
    seq(n - 1, _ => b) + [a]
  }

  lemma {:induction false} EqualSum(s: seq<real>, n: nat, b: real)
    requires |s| == n && forall i :: 0 <= i < n ==> s[i] == b
    ensures Sum(s) == b * n as real
  {
    if n > 0 {
      EqualSum(s[..n - 1], n - 1, b);
      OneTimesMore(n, b);
    }
  }

  lemma OneTimesMore(n: nat, b: real)
    requires n > 0
    ensures b * (n - 1) as real + b == b * n as real
  {
  }

  lemma UnevenSum(n: nat, a: real, b: real)
    requires n > 0 && a > 0.0 && b > 0.0 && b * (n - 1) as real + a == 1.0
    ensures IsDistribution(Uneven(n, a, b))
  {
    var s := Uneven(n, a, b);
    EqualSum(s[..n - 1], n - 1, b);
  }

  lemma {:induction false} NothingGrows(missing: Entries, keys: seq<string>, news: seq<nat>, was: Counts)
    requires |keys| == |news| && forall i :: 0 <= i < |keys| ==> news[i] <= At(was, keys[i])
    ensures Grown(missing, keys, news, was) == missing
  {
    if keys != [] {
      var m := |keys| - 1;
      NothingGrows(missing, keys[..m], news[..m], was);
    }
  }

  /** The plan for these probabilities with one replica per key. */
  ghost function UnevenPlan(p: Plan, a: real, b: real): Plan
    requires p.Smooth() && 0.0 < a <= p.alpha && 0.0 < b <= p.alpha
    requires IsDistribution(Uneven(p.size, a, b))
  {
    var probs := Uneven(p.size, a, b);
    BudgetOf(probs, p.size, p.alpha);
    var news, dummies := NatCounts(probs, p.alpha), DummyCount(probs, p.alpha);
    Plan(p.keys, probs, map k | k in p.keys :: if k == p.keys[p.size - 1] then a else b, CountsOf(p.keys, news),
         dummies, Redistributed(p.labels, p.keys + [p.dummyKey], WithDummy(news, dummies), p.Counts()),
         MainAlpha(p.size),
         p.alpha, p.dummyKey, p.size)
  }

  lemma UnevenFollows(p: Plan, a: real, b: real)
    requires p.Smooth() && 0.0 < a <= p.alpha && 0.0 < b <= p.alpha && IsDistribution(Uneven(p.size, a, b))
    ensures Follows(p, UnevenPlan(p, a, b))
  {
    hide Bijection, Redistributed, Gives, Enough, Distinct, NatCounts, IsDistribution, Uneven, Plan.FrequencyIsProbs;
    var q := UnevenPlan(p, a, b);
    UnevenGives(p, q);
    UnevenFrequencies(p, a, b);
    MainParameters(p.size);
    AlphaIsEnough(MainAlpha(p.size), p.size);
  }

  lemma UnevenGives(p: Plan, q: Plan)
    requires p.Smooth() && q.keys == p.keys && |q.probs| == |p.keys| && q.alpha == p.alpha
    requires forall i :: 0 <= i < |q.probs| ==> q.probs[i] > 0.0
    requires q.replicas == CountsOf(p.keys, NatCounts(q.probs, q.alpha))
    ensures Gives(q.replicas, q.keys, NatCounts(q.probs, q.alpha))
  {
    hide Bijection, Gives, NatCounts;
    GivesIsCountsOf(q.replicas, p.keys, NatCounts(q.probs, p.alpha));
  }

  lemma UnevenFrequencies(p: Plan, a: real, b: real)
    requires p.Smooth() && 0.0 < a <= p.alpha && 0.0 < b <= p.alpha && IsDistribution(Uneven(p.size, a, b))
    ensures UnevenPlan(p, a, b).FrequencyIsProbs()
  {
    hide Bijection, Redistributed, Gives, NatCounts, IsDistribution;
  }

  lemma UnevenCounts(p: Plan, a: real, b: real)
    requires p.Smooth() && 0.0 < a <= p.alpha && 0.0 < b <= p.alpha && IsDistribution(Uneven(p.size, a, b))
    ensures var q := UnevenPlan(p, a, b);
            && (forall i :: 0 <= i < p.size ==> NatCounts(q.probs, q.alpha)[i] == 1)
            && Grown(map[], q.keys, NatCounts(q.probs, q.alpha), p.Counts()) == map[]
  {
    hide Bijection, Redistributed;
    var q := UnevenPlan(p, a, b);
    var news := NatCounts(q.probs, q.alpha);
    forall i | 0 <= i < p.size
      ensures news[i] == 1 && news[i] <= At(p.Counts(), q.keys[i])
    {
      OneReplica(q.probs[i], p.alpha);
      OneReplicaAtLeast(p, p.keys, i);
    }
    NothingGrows(map[], q.keys, news, p.Counts());
  }

  /** For a larger alpha there is a redistribution that leaves a negative weight: a probability above 1/n
      with one replica, while p_max falls back to 1/n. */
  lemma BecomesNegative(p: Plan) returns (q: Plan)
    requires p.Smooth() && !IsAlpha(p.alpha, p.size) && p.size != 1
    ensures Becomes(p, map[], q) && !q.Weighted()
  {
    hide Becomes, Plan.Weighted, IsDistribution, Gives;
    var a, b := UnevenPair(p.size, p.alpha);
    UnevenSum(p.size, a, b);
    q := UnevenPlan(p, a, b);
    UnevenBecomes(p, a, b);
  }

  lemma UnevenBecomes(p: Plan, a: real, b: real)
    requires p.Smooth() && MainAlpha(p.size) < a <= p.alpha && 0.0 < b <= p.alpha
             && IsDistribution(Uneven(p.size, a, b))
    ensures Becomes(p, map[], UnevenPlan(p, a, b)) && !UnevenPlan(p, a, b).Weighted()
  {
    hide Bijection, Redistributed, Grown, NatCounts, Follows, IsDistribution, Plan.Weighted, Gives, Distinct;
    UnevenFollows(p, a, b);
    UnevenCounts(p, a, b);
    NegativeLast(p, UnevenPlan(p, a, b), a);
  }

  lemma NegativeLast(p: Plan, q: Plan, a: real)
    requires p.Smooth() && Follows(p, q) && q.size > 0 && NatCounts(q.probs, q.alpha)[q.size - 1] == 1
    requires q.probs[q.size - 1] == a > q.pMax
    ensures !q.Weighted()
  {
    hide Bijection, Redistributed, NatCounts;
    assert Weight(At(q.replicas, q.keys[q.size - 1]), q.probs[q.size - 1], q.pMax) < 0.0;
  }

  /** For instance: two keys, alpha 3/4, and a probability of 7/10. */
  lemma NegativeWeight()
    ensures Enough(0.75, 2) && !IsAlpha(0.75, 2) && MainAlpha(2) == 0.5
    ensures ReplicaCount(0.7, 0.75) == 1 && Weight(1, 0.7, MainAlpha(2)) == -0.2
  {
    OneReplica(0.7, 0.75);
  }
}
