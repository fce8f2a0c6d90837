/** The smoothing theorem for the proxy's own data: counts, directory, p_max, keys in transition and
    `key_to_frequency_`, as creation, redistributions and batches leave them. */
module PlanSmoothing {
  import opened Wrappers
  import opened Naming
  import opened Sums
  import opened Smoothing
  import opened SlotMass
  import opened Directory
  import opened UpdateCache
  import opened Plans

  /** A key in transition whose vector is all zeros draws like one that is not in transition. */
  function InitialisedOf(missing: Entries, key: string, r: nat): Option<int> {
    if key in missing && LeadingZeros(missing[key].bits) < r then Some(LeadingZeros(missing[key].bits)) else None
  }

  lemma AllZerosDrawsLikeNone(missing: Entries, key: string, r: nat, isReal: bool, frequency: real, pMax: real,
                              u: real, rnd: nat)
    requires r > 0 && 0.0 <= u < 1.0 && key in missing && LeadingZeros(missing[key].bits) == r
    requires Weight(r, frequency, pMax) > 0.0
    ensures SampleReplica(missing, key, r, isReal, frequency, pMax, u, rnd)
            == SampleReplica(missing - {key}, key, r, isReal, frequency, pMax, u, rnd)
  {
    PInitialisedFull(r, frequency, pMax);
  }

  function View(p: Plan, missing: Entries, q: nat): KeyView
    requires q < |p.keys| == |p.probs|
  {
    KeyView(p.probs[q], At(p.replicas, p.keys[q]), InitialisedOf(missing, p.keys[q], At(p.replicas, p.keys[q])),
            FrequencyOf(p.frequency, p.keys[q]))
  }

  function Views(p: Plan, missing: Entries): (s: seq<KeyView>)
    requires |p.keys| == |p.probs|
    ensures |s| == |p.keys|
  {
    seq(|p.keys|, q requires 0 <= q < |p.keys| => View(p, missing, q))
  }

  /** One slot of a security batch as the proxy would fill it now: the coin of `is_true_distribution`
      uses the size of `key_to_frequency_`. */
  function SlotOf(p: Plan, missing: Entries, busy: real): Slot
    requires |p.keys| == |p.probs| && |p.frequency| > 0 && p.pMax > 0.0
  {
    Slot(Views(p, missing), p.dummies, p.pMax, Coin(|p.frequency|, p.pMax), busy)
  }

  /** The labels of the replicas of a key. */
  ghost function LabelsOf(labels: map<string, nat>, key: string, r: nat): (s: seq<nat>)
    requires forall i: nat :: i < r ==> Name(key, i) in labels
    ensures |s| == r
  {
    seq(r, i requires 0 <= i < r => labels[Name(key, i)])
  }

  ghost predicate AllNamed(p: Plan) {
    forall k, i: nat :: k in p.Counts() && i < p.Counts()[k] ==> Name(k, i) in p.labels
  }

  lemma SmoothNames(p: Plan)
    requires p.Smooth()
    ensures AllNamed(p)
  {
    forall k, i: nat | k in p.Counts() && i < p.Counts()[k]
      ensures Name(k, i) in p.labels
    {
      assert Name(k, i) in Names(p.Counts());
    }
  }

  /** Key q of the plan; the dummy comes after the keys. */
  function KeyAt(p: Plan, q: nat): string
    requires q <= |p.keys|
  {
    if q < |p.keys| then p.keys[q] else p.dummyKey
  }

  ghost function Place(p: Plan): (place: seq<seq<nat>>)
    requires p.Smooth()
    ensures |place| == |p.keys| + 1
    ensures forall q :: 0 <= q <= |p.keys| ==> |place[q]| == At(p.Counts(), KeyAt(p, q))
  {
    SmoothNames(p);
    seq(|p.keys| + 1, q requires 0 <= q <= |p.keys| => LabelsOf(p.labels, KeyAt(p, q), At(p.Counts(), KeyAt(p, q))))
  }

  lemma PlaceAt(p: Plan, q: nat, i: nat)
    requires p.Smooth() && q <= |p.keys| && i < |Place(p)[q]|
    ensures KeyAt(p, q) in p.Counts() && i < p.Counts()[KeyAt(p, q)] && Name(KeyAt(p, q), i) in p.labels
    ensures Place(p)[q][i] == p.labels[Name(KeyAt(p, q), i)]
  {
    SmoothNames(p);
  }

  lemma SameKeyAt(p: Plan, q: nat, q': nat)
    requires p.Smooth() && q <= |p.keys| && q' <= |p.keys| && KeyAt(p, q) == KeyAt(p, q')
    ensures q == q'
  {
    assert q < |p.keys| ==> p.keys[q] in p.keys;
    assert q' < |p.keys| ==> p.keys[q'] in p.keys;
  }

  lemma SamePlace(p: Plan, q: nat, i: nat, q': nat, i': nat)
    requires p.Smooth() && q <= |p.keys| && q' <= |p.keys| && i < |Place(p)[q]| && i' < |Place(p)[q']|
    requires Place(p)[q][i] == Place(p)[q'][i']
    ensures q == q' && i == i'
  {
    PlaceAt(p, q, i);
    PlaceAt(p, q', i');
    CountsApart(p);
    ApartNames(p.Counts(), KeyAt(p, q), i, KeyAt(p, q'), i');
    SameKeyAt(p, q, q');
  }

  lemma Everywhere(p: Plan, l: nat)
    requires p.Smooth() && l < 2 * p.size
    ensures Placed(Place(p), l)
  {
    assert l in p.labels.Values;
    var s :| s in p.labels && p.labels[s] == l;
    assert s in Names(p.Counts());
    var k, i: nat :| k in p.Counts().Keys && 0 <= i < p.Counts()[k] && s == Name(k, i);
    if k == p.dummyKey {
      PlaceAt(p, |p.keys|, i);
    } else {
      var q :| 0 <= q < |p.keys| && p.keys[q] == k;
      PlaceAt(p, q, i);
    }
  }

  lemma PlacedOneToOne(p: Plan)
    requires p.Smooth()
    ensures OneToOne(p.size, Place(p))
  {
    var place := Place(p);
    forall q, i | 0 <= q < |place| && 0 <= i < |place[q]|
      ensures place[q][i] < 2 * p.size
    {
      PlaceAt(p, q, i);
    }
    forall q, i, q', i' | 0 <= q < |place| && 0 <= i < |place[q]| && 0 <= q' < |place| && 0 <= i' < |place[q']|
                          && place[q][i] == place[q'][i']
      ensures q == q' && i == i'
    {
      SamePlace(p, q, i, q', i');
    }
    forall l: nat | l < 2 * p.size
      ensures Placed(place, l)
    {
      Everywhere(p, l);
    }
  }

  // ------------------------------------------------------------------ the slot is a legal one

  lemma ViewIsValid(p: Plan, missing: Entries, q: nat)
    requires p.Smooth() && p.Weighted() && p.Transition(missing) && q < |p.keys|
    ensures View(p, missing, q).Valid(p.pMax) && View(p, missing, q).passed == View(p, missing, q).prob
    ensures View(p, missing, q).replicas == p.Counts()[p.keys[q]]
  {
    hide Weight, Bijection, Apart;
    var key := p.keys[q];
    assert key in p.keys;
    if key in missing {
      assert LeadingZeros(missing[key].bits) >= 1;
      PositiveWeight(p.replicas[key], p.frequency[key], p.pMax);
    }
  }

  lemma SlotIsValid(p: Plan, missing: Entries, busy: real)
    requires p.Smooth() && p.Weighted() && p.Transition(missing) && |p.frequency| > 0
    ensures SlotOf(p, missing, busy).Valid()
    ensures var s := SlotOf(p, missing, busy);
            forall q :: 0 <= q < |p.keys| ==> s.keys[q].passed == s.keys[q].prob
  {
    var s := SlotOf(p, missing, busy);
    forall q | 0 <= q < |s.keys|
      ensures s.keys[q].Valid(p.pMax) && s.keys[q].passed == s.keys[q].prob
    {
      ViewIsValid(p, missing, q);
    }
    BudgetOf(p.probs, p.size, p.alpha);
    EnoughIsRoomy(p.size, p.pMax);
  }

  lemma SlotFitsPlace(p: Plan, missing: Entries, busy: real)
    requires p.Smooth() && p.Weighted() && p.Transition(missing) && |p.frequency| > 0
    ensures Fits(SlotOf(p, missing, busy), Place(p))
  {
    forall q | 0 <= q < |p.keys|
      ensures |Place(p)[q]| == SlotOf(p, missing, busy).keys[q].replicas
    {
      ViewIsValid(p, missing, q);
    }
  }

  // ------------------------------------------------------------------ the coin

  /** `key_to_frequency_` has one entry per key, plus one if it was ever read for the dummy. */
  lemma FrequencyEntries(p: Plan)
    requires p.Smooth()
    ensures |p.frequency| == p.size + if p.dummyKey in p.frequency then 1 else 0
  {
    DistinctCount(p.keys);
    forall k | k in Elems(p.keys)
      ensures k in p.frequency
    {
      var i :| 0 <= i < |p.keys| && p.keys[i] == k;
    }
    if p.dummyKey in p.frequency {
      assert p.frequency.Keys == Elems(p.keys) + {p.dummyKey};
    } else {
      assert p.frequency.Keys == Elems(p.keys);
    }
  }

  lemma CoinExact(n: nat, m: nat, pMax: real)
    requires n > 0 && m > 0 && pMax > 0.0
    ensures Coin(m, pMax) == Coin(n, pMax) <==> m == n
  {
    LabelsScale(n, pMax);
    LabelsScale(m, pMax);
    SameReciprocal(Labels(m) * pMax, Labels(n) * pMax);
    Cancel(pMax, Labels(m), Labels(n));
  }

  lemma CoinOfSize(n: nat, pMax: real)
    requires n > 0 && pMax > 0.0
    ensures 2.0 * pMax * n as real > 0.0 && 1.0 / (2.0 * pMax * n as real) == Coin(n, pMax)
  {
    assert 2.0 * pMax * n as real == Labels(n) * pMax;
    LabelsScale(n, pMax);
  }

  lemma LabelsScale(n: nat, pMax: real)
    requires n > 0 && pMax > 0.0
    ensures Labels(n) * pMax > 0.0
  {
  }

  lemma SameReciprocal(x: real, y: real)
    requires x > 0.0 && y > 0.0
    ensures 1.0 / x == 1.0 / y <==> x == y
  {
    var a, b := 1.0 / x, 1.0 / y;
    assert a * x == 1.0 && b * y == 1.0;
    if a == b {
      Cancel(a, x, y);
      assert a > 0.0;
    }
  }

  // ------------------------------------------------------------------ the theorem

  /** In every state that creation, redistributions and batches can leave with non-negative fake
      weights, a slot touches each of the 2n labels with probability exactly 1/(2n) if and only if no
      batch has accessed the dummy since `key_to_frequency_` was last replaced - which adds an entry
      for it and so spoils the coin - and, while some replica is missing, real draws always find a
      client operation. */
  lemma ProxyIsSmooth(p: Plan, missing: Entries, busy: real)
    requires p.Smooth() && p.Weighted() && p.Transition(missing)
    ensures |p.frequency| > 0
    ensures var s := SlotOf(p, missing, busy);
            && s.Valid() && Fits(s, Place(p)) && |s.keys| == p.size
            && (AllLabelsUniform(s, Place(p))
                <==> p.dummyKey !in p.frequency && (busy == 1.0 || !InTransition(s)))
  {
    FrequencyEntries(p);
    SlotIsValid(p, missing, busy);
    SlotFitsPlace(p, missing, busy);
    PlacedOneToOne(p);
    SmoothingTheorem(SlotOf(p, missing, busy), Place(p));
    CoinExact(p.size, |p.frequency|, p.pMax);
  }

  /** The fake branch of the slot is the distribution that the proxy has built. */
  lemma FakeMassIsDrawn(p: Plan, missing: Entries, busy: real, w: seq<real>, q: nat)
    requires p.Smooth() && p.Weighted() && p.Transition(missing) && q <= |p.keys| && |p.frequency| > 0
    requires Reweighted(w, p.keys, p.probs, p.replicas, p.dummies, p.pMax)
    ensures var s := SlotOf(p, missing, busy);
            && Sum(w) == s.FakeTotal() > 0.0
            && Normalised(w)[q] == (if q < |p.keys| then Weight(s.keys[q].replicas, s.keys[q].prob, s.pMax)
                                    else Weight(s.dummies, 0.0, s.pMax)) / s.FakeTotal()
  {
    ReweightedSound(p, w);
    assert IsNewWeight(w, q, p.keys, p.probs, p.replicas, p.dummies, p.pMax);
    NormalisedAt(w, q, w[q], SlotOf(p, missing, busy).FakeTotal());
  }

  lemma NormalisedAt(w: seq<real>, q: nat, x: real, total: real)
    requires Sum(w) == total != 0.0 && q < |w| && w[q] == x
    ensures Normalised(w)[q] == x / total
  {
  }

  /** At creation it is the distribution that the creation loop has built, whose weights already sum to
      one. */
  lemma StartFakeMassIsDrawn(p: Plan, missing: Entries, busy: real, delta: real, w: seq<real>, q: nat)
    requires p.Smooth() && p.Weighted() && p.Transition(missing) && q <= |p.keys| && |p.frequency| > 0
    requires p.pMax == p.alpha && Divides(delta) && delta == 1.0 / (Labels(p.size) * p.alpha)
    requires StartWeights(w, p.probs, p.alpha, delta)
    ensures var s := SlotOf(p, missing, busy);
            && Sum(w) == 1.0 && s.FakeTotal() > 0.0
            && w[q] == (if q < |p.keys| then Weight(s.keys[q].replicas, s.keys[q].prob, s.pMax)
                        else Weight(s.dummies, 0.0, s.pMax)) / s.FakeTotal()
  {
    hide Weight, StartWeights, Bijection, Plan.Transition, Plan.Weighted, Divides;
    StartMass(w, p.probs, p.size, p.alpha, delta, q);
    EnoughIsRoomy(p.size, p.pMax);
    assert q < |p.keys| ==> At(p.replicas, p.keys[q]) == NatCounts(p.probs, p.alpha)[q];
  }

  lemma StartMass(w: seq<real>, probs: seq<real>, n: nat, alpha: real, delta: real, q: nat)
    requires IsDistribution(probs) && n == |probs| && Enough(alpha, n) && Divides(delta) && q <= n
    requires delta == 1.0 / (Labels(n) * alpha) && StartWeights(w, probs, alpha, delta)
    ensures Sum(w) == 1.0 && |w| == n + 1 && Weight(2 * n, 1.0, alpha) > 0.0
    ensures w[q] == (if q < n then Weight(NatCounts(probs, alpha)[q], probs[q], alpha)
                     else Weight(DummyCount(probs, alpha), 0.0, alpha)) / Weight(2 * n, 1.0, alpha)
  {
    hide Weight;
    StartWeightsSound(w, probs, n, alpha, delta);
    StartIsNormalised(w, probs, n, alpha, delta);
    BudgetOf(probs, n, alpha);
    RecomputedTotal(probs, NatCounts(probs, alpha), DummyCount(probs, alpha), n, alpha);
    EnoughIsRoomy(n, alpha);
    var u := RecomputedWeights(probs, NatCounts(probs, alpha), DummyCount(probs, alpha), alpha);
    NormalisedAt(u, q, u[q], Weight(2 * n, 1.0, alpha));
  }

  lemma StartIsNormalised(w: seq<real>, probs: seq<real>, n: nat, alpha: real, delta: real)
    requires IsDistribution(probs) && n == |probs| && Enough(alpha, n) && Divides(delta)
    requires delta == 1.0 / (Labels(n) * alpha) && StartWeights(w, probs, alpha, delta)
    ensures DummyCount(probs, alpha) > 0
    ensures var u := RecomputedWeights(probs, ReplicaCounts(probs, alpha), DummyCount(probs, alpha), alpha);
            Sum(u) != 0.0 && w == Normalised(u)
  {
    CreateFakeWeightsSound(probs, n, alpha, delta);
    StartIsCreated(w, probs, alpha, delta);
  }
}
