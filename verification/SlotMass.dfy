/** The probability with which one slot of a security batch touches one label. */
module SlotMass {
  import opened Wrappers
  import opened Sums
  import opened Smoothing

  /** What the proxy knows of a key when it draws a replica of it.  `initialised` is the number
      of leading zeros of its entry in `missing_new_replicas_`, if it has one; `passed` is the
      frequency handed to `sample_a_replica`. */
  datatype KeyView = KeyView(prob: real, replicas: int, initialised: Option<int>, passed: real)
  {
    ghost predicate Valid(pMax: real) {
      && prob > 0.0 && replicas >= 1
      && Weight(replicas, prob, pMax) >= 0.0
      && (initialised.Some? ==>
            1 <= initialised.value < replicas && prob <= pMax && Weight(replicas, passed, pMax) > 0.0)
    }
  }

  /** `p_initialized` */
  function PInitialised(a: int, r: int, frequency: real, pMax: real): real
    requires Weight(r, frequency, pMax) != 0.0
  {
    Weight(a, frequency, pMax) / Weight(r, frequency, pMax)
  }

  /** The mass `sample_a_replica` gives to replica i: uniform when the key is not in transition;
      otherwise a real access stays on the initialised replicas, and any other access goes there
      with probability `p_initialized`. */
  function Share(k: KeyView, isReal: bool, pMax: real, i: int): real
    requires k.replicas >= 1
    requires k.initialised.Some? ==> 1 <= k.initialised.value < k.replicas && Weight(k.replicas, k.passed, pMax) != 0.0
  {
    match k.initialised
    case None => 1.0 / k.replicas as real
    case Some(a) =>
      var stay := if isReal then 1.0 else PInitialised(a, k.replicas, k.passed, pMax);
      if i < a then stay / a as real else (1.0 - stay) / (k.replicas - a) as real
  }

  /** `1.0/(2.0 * p_max_ * key_to_frequency_.size())` */
  function Coin(n: nat, pMax: real): real
    requires n > 0 && pMax > 0.0
  {
    1.0 / (Labels(n) * pMax)
  }

  /** The law of total probability over coin, queue and access kind: `prob` is the real mass of
      the key, `fake` its fake mass, `x` and `y` the replica's share of a real and of any other
      access. */
  function Mix(coin: real, prob: real, busy: real, x: real, y: real, fake: real): real {
    coin * prob * (busy * x + (1.0 - busy) * y) + (1.0 - coin) * fake * y
  }

  /** One slot.  `busy` is the probability that the queue holds a client operation when the coin
      picks the real distribution; if it does not, the sampled key is accessed as non-real. */
  datatype Slot = Slot(keys: seq<KeyView>, dummies: int, pMax: real, coin: real, busy: real)
  {
    ghost predicate Valid() {
      && |keys| > 0 && pMax > 0.0 && Roomy(|keys|, pMax)
      && dummies >= 1
      && forall q :: 0 <= q < |keys| ==> keys[q].Valid(pMax)
    }

    function FakeTotal(): real {
      Weight(2 * |keys|, 1.0, pMax)
    }

    /** Mass of replica i of key q: the real branch, split by whether a client operation was
        waiting, plus the fake branch with its normalised weight. */
    function KeyTouch(q: nat, i: nat): real
      requires q < |keys| && keys[q].replicas >= 1 && FakeTotal() > 0.0
      requires keys[q].initialised.Some? ==>
                 1 <= keys[q].initialised.value < keys[q].replicas
                 && Weight(keys[q].replicas, keys[q].passed, pMax) != 0.0
    {
      Mix(coin, keys[q].prob, busy, Share(keys[q], true, pMax, i), Share(keys[q], false, pMax, i),
          Weight(keys[q].replicas, keys[q].prob, pMax) / FakeTotal())
    }

    /** Mass of one dummy label: only fake accesses reach it. */
    function DummyTouch(): real
      requires dummies >= 1 && FakeTotal() > 0.0
    {
      Mix(coin, 0.0, busy, 0.0, 1.0 / dummies as real, Weight(dummies, 0.0, pMax) / FakeTotal())
    }
  }

  // ------------------------------------------------------------------ algebra

  /** What the coin does, on plain reals: with m labels, p_max = p and total fake weight
      s = m*p - 1, the coin scales a fake mass y/s down to c*y. */
  ghost predicate CoinFits(m: real, p: real, c: real, s: real) {
    m > 0.0 && p > 0.0 && m * p > 1.0 && c == 1.0 / (m * p) && s == m * p - 1.0
  }

  lemma CoinScale(m: real, p: real, c: real, s: real, y: real)
    requires CoinFits(m, p, c, s)
    ensures s > 0.0 && c > 0.0 && c * p == 1.0 / m
    ensures (1.0 - c) * (y / s) == c * y
  {
    assert c * (m * p) == 1.0;
    assert (c * p) * m == 1.0;
    assert 1.0 - c == c * s;
    assert s * (y / s) == y;
    assert (c * s) * (y / s) == c * (s * (y / s));
  }

  lemma MixBusy(m: real, p: real, c: real, s: real, f: real, x: real, y: real, w: real)
    requires CoinFits(m, p, c, s)
    ensures s > 0.0 && Mix(c, f, 1.0, x, y, w / s) == c * f * x + c * w * y
  {
    CoinScale(m, p, c, s, w);
  }

  /** Not in transition: the share t = 1/r of both branches adds up to c*(f + r*p - f)*t. */
  lemma EvenMass(m: real, p: real, c: real, s: real, f: real, r: real, w: real)
    requires CoinFits(m, p, c, s) && r > 0.0 && w == r * p - f
    ensures s > 0.0 && Mix(c, f, 1.0, 1.0 / r, 1.0 / r, w / s) == 1.0 / m
  {
    var t := 1.0 / r;
    CoinScale(m, p, c, s, w);
    MixBusy(m, p, c, s, f, t, t, w);
    EvenSplit(c, f, r, p, w, t);
  }

  lemma EvenSplit(c: real, f: real, r: real, p: real, w: real, t: real)
    requires r > 0.0 && w == r * p - f && t == 1.0 / r
    ensures c * f * t + c * w * t == c * p
  {
    assert r * t == 1.0;
    assert c * f * t + c * w * t == c * (f + w) * t;
    assert c * (r * p) * t == c * p * (r * t);
  }

  /** An initialised replica: the whole real branch plus its part of the fake branch. */
  lemma InitialisedMass(m: real, p: real, c: real, s: real, f: real, a: real, w: real, stay: real)
    requires CoinFits(m, p, c, s) && a > 0.0 && w * stay == a * p - f
    ensures s > 0.0 && Mix(c, f, 1.0, 1.0 / a, stay / a, w / s) == 1.0 / m
  {
    CoinScale(m, p, c, s, w);
    MixBusy(m, p, c, s, f, 1.0 / a, stay / a, w);
    InitialisedSplit(c, f, a, p, w, stay);
  }

  lemma InitialisedSplit(c: real, f: real, a: real, p: real, w: real, stay: real)
    requires a > 0.0 && w * stay == a * p - f
    ensures c * f * (1.0 / a) + c * w * (stay / a) == c * p
  {
    var t := 1.0 / a;
    assert a * t == 1.0;
    assert stay / a == stay * t;
    assert c * w * (stay * t) == c * (w * stay) * t;
    assert c * f * t + c * (a * p - f) * t == c * p * (a * t);
  }

  /** A replica that is still missing: no real access, and its part of the fake branch. */
  lemma MissingMass(m: real, p: real, c: real, s: real, f: real, a: real, r: real, w: real, stay: real)
    requires CoinFits(m, p, c, s) && r > a && w == r * p - f && w * stay == a * p - f
    ensures s > 0.0
    ensures Mix(c, f, 1.0, (1.0 - 1.0) / (r - a), (1.0 - stay) / (r - a), w / s) == 1.0 / m
  {
    CoinScale(m, p, c, s, w);
    MixBusy(m, p, c, s, f, (1.0 - 1.0) / (r - a), (1.0 - stay) / (r - a), w);
    MissingSplit(c, a, r, p, w, stay, f);
  }

  lemma MissingSplit(c: real, a: real, r: real, p: real, w: real, stay: real, f: real)
    requires r > a && w == r * p - f && w * stay == a * p - f
    ensures (1.0 - 1.0) / (r - a) == 0.0
    ensures c * w * ((1.0 - stay) / (r - a)) == c * p
  {
    var t := 1.0 / (r - a);
    assert (r - a) * t == 1.0;
    assert (1.0 - stay) / (r - a) == (1.0 - stay) * t;
    assert w * (1.0 - stay) == (r - a) * p;
    assert c * w * ((1.0 - stay) * t) == c * (w * (1.0 - stay)) * t;
    assert c * ((r - a) * p) * t == c * p * ((r - a) * t);
  }

  /** The difference quotient of two fake shares: only the right `stay` gives the right mass. */
  lemma StayExact(m: real, p: real, c: real, s: real, f: real, a: real, w: real, stay: real, right: real)
    requires CoinFits(m, p, c, s) && a > 0.0 && w > 0.0 && w * right == a * p - f
    ensures s > 0.0
    ensures Mix(c, f, 1.0, 1.0 / a, stay / a, w / s) == 1.0 / m <==> stay == right
  {
    CoinScale(m, p, c, s, w);
    MixBusy(m, p, c, s, f, 1.0 / a, stay / a, w);
    InitialisedSplit(c, f, a, p, w, right);
    SameShare(c, w, a, stay, right);
  }

  lemma SameShare(c: real, w: real, a: real, x: real, y: real)
    requires c > 0.0 && w > 0.0 && a > 0.0
    ensures c * w * (x / a) == c * w * (y / a) <==> x == y
  {
    var u, v, b := x / a, y / a, c * w;
    assert x == u * a && y == v * a;
    Cancel(b, u, v);
  }

  lemma Cancel(b: real, u: real, v: real)
    requires b > 0.0
    ensures b * u == b * v <==> u == v
  {
    if b * u == b * v {
      assert b * (u - v) == 0.0;
    }
  }

  /** (a*p - g)/(r*p - g) determines g when a differs from r. */
  lemma OddsDetermineFrequency(m: real, u: real, v: real)
    requires m > 0.0 && u > 0.0 && v > 0.0
    ensures (u - m) / u == (v - m) / v <==> u == v
  {
    var x, y := m / u, m / v;
    assert x * u == m && y * v == m;
    OneLess(u, m);
    OneLess(v, m);
    if x == y {
      assert x * (u - v) == 0.0;
      assert x != 0.0;
    }
  }

  lemma OneLess(u: real, m: real)
    requires u > 0.0
    ensures (u - m) / u == 1.0 - m / u
  {
    assert ((u - m) / u) * u == u - m;
    assert (1.0 - m / u) * u == u - m;
    Cancel(u, (u - m) / u, 1.0 - m / u);
  }

  /** Serving the real branch by non-real accesses loses (1 - busy)*(1 - stay) of its mass. */
  lemma BusyMass(m: real, p: real, c: real, s: real, f: real, a: real, w: real, stay: real, busy: real)
    requires CoinFits(m, p, c, s) && a > 0.0 && f > 0.0 && w * stay == a * p - f && stay < 1.0
    ensures s > 0.0
    ensures Mix(c, f, busy, 1.0 / a, stay / a, w / s) == 1.0 / m <==> busy == 1.0
  {
    InitialisedMass(m, p, c, s, f, a, w, stay);
    CoinScale(m, p, c, s, w);
    var x, y := 1.0 / a, stay / a;
    assert x > 0.0 by { PositiveQuotient(1.0, a); }
    assert y == stay * x;
    var gap := (1.0 - busy) * (x - y);
    assert busy * x + (1.0 - busy) * y == x - gap;
    LoseGap(c * f, x, gap, (1.0 - c) * (w / s) * y);
    assert x - y == (1.0 - stay) * x > 0.0;
    Cancel(x - y, 1.0 - busy, 0.0);
  }

  lemma LoseGap(b: real, x: real, gap: real, rest: real)
    requires b > 0.0 || b == 0.0
    ensures b > 0.0 ==> (b * (x - gap) + rest == b * x + rest <==> gap == 0.0)
  {
    if b > 0.0 {
      Cancel(b, x - gap, x);
    }
  }

  lemma PositiveQuotient(x: real, y: real)
    requires x > 0.0 && y > 0.0
    ensures x / y > 0.0
  {
  }

  /** The dummies see only the fake branch, so their mass determines the coin. */
  lemma DummyMass(m: real, p: real, right: real, s: real, d: real, coin: real, busy: real)
    requires CoinFits(m, p, right, s) && d > 0.0
    ensures s > 0.0
    ensures Mix(coin, 0.0, busy, 0.0, 1.0 / d, (d * p - 0.0) / s) == 1.0 / m <==> coin == right
  {
    CoinScale(m, p, right, s, p);
    var t, z := 1.0 / d, p / s;
    assert d * t == 1.0;
    assert z > 0.0 by { PositiveQuotient(p, s); }
    assert (d * p) / s == d * z by { Cancel(s, (d * p) / s, d * z); }
    assert (1.0 - coin) * (d * z) * t == (1.0 - coin) * z * (d * t);
    Cancel(z, 1.0 - coin, 1.0 - right);
  }

  // ------------------------------------------------------------------ slots

  lemma SlotFits(s: Slot)
    requires s.Valid()
    ensures CoinFits(Labels(|s.keys|), s.pMax, Coin(|s.keys|, s.pMax), s.FakeTotal())
    ensures s.FakeTotal() > 0.0
  {
    RoomyFits(|s.keys|, s.pMax);
  }

  lemma RoomyFits(n: nat, pMax: real)
    requires n > 0 && pMax > 0.0 && Roomy(n, pMax)
    ensures CoinFits(Labels(n), pMax, Coin(n, pMax), Weight(2 * n, 1.0, pMax)) && Weight(2 * n, 1.0, pMax) > 0.0
  {
  }

  /** For a key in transition whose probability p_max dominates, `p_initialized` is a
      probability, and it is 1 only when nothing is missing. */
  lemma PInitialisedIsProbability(a: int, r: int, f: real, pMax: real)
    requires 1 <= a <= r && 0.0 < f <= pMax && Weight(r, f, pMax) > 0.0
    ensures 0.0 <= PInitialised(a, r, f, pMax) <= 1.0
    ensures PInitialised(a, r, f, pMax) == 1.0 <==> a == r
  {
    Odds(a as real, r as real, f, pMax, Weight(r, f, pMax), PInitialised(a, r, f, pMax));
  }

  lemma PInitialisedFull(r: int, f: real, pMax: real)
    requires Weight(r, f, pMax) > 0.0
    ensures PInitialised(r, r, f, pMax) == 1.0
  {
    UnitQuotient(Weight(r, f, pMax));
  }

  lemma UnitQuotient(w: real)
    requires w > 0.0
    ensures w / w == 1.0
  {
  }

  lemma Odds(a: real, r: real, f: real, p: real, w: real, x: real)
    requires 1.0 <= a <= r && 0.0 < f <= p && w == r * p - f > 0.0 && x == (a * p - f) / w
    ensures 0.0 <= x <= 1.0 && (x == 1.0 <==> a == r)
    ensures w * x == a * p - f
  {
    assert w * x == a * p - f;
    LargerFactor(p, 1.0, a);
    Scale(0.0, x, w);
    assert w * (1.0 - x) == (r - a) * p;
    Scale(0.0, 1.0 - x, w);
    Scale(1.0 - x, 0.0, w);
    Scale(0.0, r - a, p);
    Scale(r - a, 0.0, p);
  }

  lemma TwoCover(r: real, f: real, p: real)
    requires r >= 2.0 && f <= p && p > 0.0
    ensures r * p - f > 0.0
  {
    LargerFactor(p, 2.0, r);
  }

  lemma TransitionOdds(k: KeyView, pMax: real)
    requires k.Valid(pMax) && k.initialised.Some? && pMax > 0.0
    ensures var w := Weight(k.replicas, k.prob, pMax);
            var stay := PInitialised(k.initialised.value, k.replicas, k.prob, pMax);
            w > 0.0 && w * stay == k.initialised.value as real * pMax - k.prob && stay < 1.0
  {
    assert k.replicas as real >= 2.0;
    TwoCover(k.replicas as real, k.prob, pMax);
    PInitialisedIsProbability(k.initialised.value, k.replicas, k.prob, pMax);
    Odds(k.initialised.value as real, k.replicas as real, k.prob, pMax, Weight(k.replicas, k.prob, pMax),
         PInitialised(k.initialised.value, k.replicas, k.prob, pMax));
  }

  /** Every replica of every key - initialised, missing, or of a key not in transition - gets
      mass exactly 1/(2n) per slot, when the coin is `Coin` and the real branch pops client
      operations drawn from the real distribution. */
  lemma KeyTouchUniform(s: Slot, q: nat, i: nat)
    requires s.Valid() && q < |s.keys| && i < s.keys[q].replicas
    requires s.coin == Coin(|s.keys|, s.pMax)
    requires s.keys[q].initialised.Some? ==> s.busy == 1.0 && s.keys[q].passed == s.keys[q].prob
    ensures s.FakeTotal() > 0.0 && s.KeyTouch(q, i) == 1.0 / Labels(|s.keys|)
  {
    hide Mix, Weight, PInitialised, Coin, Roomy, CoinFits;
    SlotFits(s);
    var k, m := s.keys[q], Labels(|s.keys|);
    match k.initialised {
      case None => EvenKey(k, m, s.pMax, s.coin, s.FakeTotal(), s.busy);
      case Some(a) =>
        if i < a {
          InitialisedKey(k, m, s.pMax, s.coin, s.FakeTotal());
        } else {
          MissingKey(k, m, s.pMax, s.coin, s.FakeTotal());
        }
    }
  }

  lemma EvenKey(k: KeyView, m: real, p: real, c: real, s: real, busy: real)
    requires CoinFits(m, p, c, s) && k.replicas >= 1
    ensures s > 0.0
    ensures Mix(c, k.prob, busy, 1.0 / k.replicas as real, 1.0 / k.replicas as real, Weight(k.replicas, k.prob, p) / s)
            == 1.0 / m
  {
    hide Mix;
    EvenMass(m, p, c, s, k.prob, k.replicas as real, Weight(k.replicas, k.prob, p));
    BusyIrrelevant(c, k.prob, busy, 1.0 / k.replicas as real, Weight(k.replicas, k.prob, p) / s);
  }

  lemma InitialisedKey(k: KeyView, m: real, p: real, c: real, s: real)
    requires CoinFits(m, p, c, s) && k.Valid(p) && k.initialised.Some? && k.passed == k.prob
    ensures s > 0.0 && Weight(k.replicas, k.prob, p) != 0.0
    ensures var (a, stay) := (k.initialised.value, PInitialised(k.initialised.value, k.replicas, k.prob, p));
            Mix(c, k.prob, 1.0, 1.0 / a as real, stay / a as real, Weight(k.replicas, k.prob, p) / s) == 1.0 / m
  {
    hide Mix, PInitialised, Weight;
    TransitionOdds(k, p);
    InitialisedMass(m, p, c, s, k.prob, k.initialised.value as real, Weight(k.replicas, k.prob, p),
                    PInitialised(k.initialised.value, k.replicas, k.prob, p));
  }

  lemma MissingKey(k: KeyView, m: real, p: real, c: real, s: real)
    requires CoinFits(m, p, c, s) && k.Valid(p) && k.initialised.Some? && k.passed == k.prob
    ensures s > 0.0 && Weight(k.replicas, k.prob, p) != 0.0
    ensures var (left, stay) := ((k.replicas - k.initialised.value) as real,
                                 PInitialised(k.initialised.value, k.replicas, k.prob, p));
            Mix(c, k.prob, 1.0, (1.0 - 1.0) / left, (1.0 - stay) / left, Weight(k.replicas, k.prob, p) / s) == 1.0 / m
  {
    hide Mix, PInitialised;
    TransitionOdds(k, p);
    MissingMass(m, p, c, s, k.prob, k.initialised.value as real, k.replicas as real, Weight(k.replicas, k.prob, p),
                PInitialised(k.initialised.value, k.replicas, k.prob, p));
  }

  lemma BusyIrrelevant(c: real, f: real, busy: real, x: real, g: real)
    ensures Mix(c, f, busy, x, x, g) == Mix(c, f, 1.0, x, x, g)
  {
    assert busy * x + (1.0 - busy) * x == x;
  }

  /** A dummy label gets the same mass under the same coin, and under no other coin: the size
      that feeds `is_true_distribution` must be the number of real keys, and p_max the one the
      fake weights were computed with. */
  lemma DummyTouchExact(s: Slot)
    requires s.Valid()
    ensures s.FakeTotal() > 0.0
    ensures s.DummyTouch() == 1.0 / Labels(|s.keys|) <==> s.coin == Coin(|s.keys|, s.pMax)
  {
    SlotFits(s);
    DummyMass(Labels(|s.keys|), s.pMax, Coin(|s.keys|, s.pMax), s.FakeTotal(), s.dummies as real, s.coin, s.busy);
  }

  /** The frequency that `sample_a_replica` receives must be the key's probability: with any
      other value the initialised replicas of a key in transition are not uniform.  The `int`
      parameter of the code turns every probability below 1 into 0, which is such a value. */
  lemma PassedFrequencyExact(s: Slot, q: nat, i: nat)
    requires s.Valid() && q < |s.keys| && s.keys[q].initialised.Some?
    requires i < s.keys[q].initialised.value
    requires s.coin == Coin(|s.keys|, s.pMax) && s.busy == 1.0
    ensures s.FakeTotal() > 0.0
    ensures s.KeyTouch(q, i) == 1.0 / Labels(|s.keys|) <==> s.keys[q].passed == s.keys[q].prob
  {
    hide Mix, Weight, PInitialised, Coin, Roomy, CoinFits;
    SlotFits(s);
    var k, p := s.keys[q], s.pMax;
    var a, r := k.initialised.value, k.replicas;
    TransitionOdds(k, p);
    StayExact(Labels(|s.keys|), p, s.coin, s.FakeTotal(), k.prob, a as real, Weight(r, k.prob, p),
              PInitialised(a, r, k.passed, p), PInitialised(a, r, k.prob, p));
    PassedDetermined(a, r, k.passed, k.prob, p);
  }

  /** `p_initialized` determines the frequency it was computed with. */
  lemma PassedDetermined(a: int, r: int, g: real, f: real, p: real)
    requires a < r && p > 0.0 && Weight(r, g, p) > 0.0 && Weight(r, f, p) > 0.0
    ensures PInitialised(a, r, g, p) == PInitialised(a, r, f, p) <==> g == f
  {
    OddsAt(a as real, r as real, p, g, f);
  }

  lemma OddsAt(a: real, r: real, p: real, g: real, f: real)
    requires a < r && p > 0.0 && g < r * p && f < r * p
    ensures (a * p - g) / (r * p - g) == (a * p - f) / (r * p - f) <==> g == f
  {
    Scale(a, r, p);
    OddsDetermineFrequency(r * p - a * p, r * p - g, r * p - f);
  }

  /** When the queue is empty at a real draw, the sampled key is accessed with `access_is_real`
      false.  The initialised replicas of a key in transition are then uniform only if that
      never happens. */
  lemma BusyExact(s: Slot, q: nat, i: nat)
    requires s.Valid() && q < |s.keys| && s.keys[q].initialised.Some?
    requires i < s.keys[q].initialised.value
    requires s.coin == Coin(|s.keys|, s.pMax) && s.keys[q].passed == s.keys[q].prob
    ensures s.FakeTotal() > 0.0
    ensures s.KeyTouch(q, i) == 1.0 / Labels(|s.keys|) <==> s.busy == 1.0
  {
    SlotFits(s);
    var k, p := s.keys[q], s.pMax;
    TransitionOdds(k, p);
    BusyMass(Labels(|s.keys|), p, s.coin, s.FakeTotal(), k.prob, k.initialised.value as real,
             Weight(k.replicas, k.prob, p), PInitialised(k.initialised.value, k.replicas, k.prob, p), s.busy);
  }

  // ------------------------------------------------------------------ labels

  /** `place[q][i]` is the label of replica i of key q; the last row belongs to the dummies. */
  ghost predicate Fits(s: Slot, place: seq<seq<nat>>) {
    && |place| == |s.keys| + 1
    && (forall q :: 0 <= q < |s.keys| ==> |place[q]| == s.keys[q].replicas)
    && |place[|s.keys|]| == s.dummies
  }

  /** The replicas are placed one-to-one on the labels 0..2n-1. */
  ghost predicate OneToOne(n: nat, place: seq<seq<nat>>) {
    && (forall q, i :: 0 <= q < |place| && 0 <= i < |place[q]| ==> place[q][i] < 2 * n)
    && (forall q, i, q', i' ::
          0 <= q < |place| && 0 <= i < |place[q]| && 0 <= q' < |place| && 0 <= i' < |place[q']|
          && place[q][i] == place[q'][i']
          ==> q == q' && i == i')
    && (forall l: nat :: l < 2 * n ==> Placed(place, l))
  }

  ghost predicate Placed(place: seq<seq<nat>>, l: nat) {
    exists q, i :: 0 <= q < |place| && 0 <= i < |place[q]| && place[q][i] == l
  }

  ghost function Touch(s: Slot, q: nat, i: nat): real
    requires s.Valid() && q <= |s.keys|
  {
    SlotFits(s);
    if q < |s.keys| then
      assert s.keys[q].Valid(s.pMax);
      s.KeyTouch(q, i)
    else s.DummyTouch()
  }

  ghost function Row(s: Slot, place: seq<seq<nat>>, q: nat, l: nat): (row: seq<real>)
    requires s.Valid() && Fits(s, place) && q <= |s.keys|
    ensures |row| == |place[q]|
  {
    seq(|place[q]|, i requires 0 <= i < |place[q]| => if place[q][i] == l then Touch(s, q, i) else 0.0)
  }

  /** The probability that a slot touches label l: the sum, over every key and every replica,
      of the mass of the draws that lead to l. */
  ghost function LabelMass(s: Slot, place: seq<seq<nat>>, l: nat): real
    requires s.Valid() && Fits(s, place)
  {
    Sum(seq(|place|, q requires 0 <= q < |place| => Sum(Row(s, place, q, l))))
  }

  lemma LabelMassIsTouch(s: Slot, place: seq<seq<nat>>, q: nat, i: nat)
    requires s.Valid() && Fits(s, place) && OneToOne(|s.keys|, place)
    requires q <= |s.keys| && i < |place[q]|
    ensures LabelMass(s, place, place[q][i]) == Touch(s, q, i)
  {
    var l := place[q][i];
    var rows := seq(|place|, p requires 0 <= p < |place| => Sum(Row(s, place, p, l)));
    forall p | 0 <= p < |rows| && p != q
      ensures rows[p] == 0.0
    {
      var row := Row(s, place, p, l);
      assert forall k :: 0 <= k < |row| ==> place[p][k] != l;
      SumZero(row);
    }
    SumSingle(Row(s, place, q, l), i);
    SumSingle(rows, q);
  }

  ghost predicate InTransition(s: Slot) {
    exists q :: 0 <= q < |s.keys| && s.keys[q].initialised.Some?
  }

  ghost predicate AllLabelsUniform(s: Slot, place: seq<seq<nat>>)
    requires s.Valid() && Fits(s, place)
  {
    forall l: nat :: l < 2 * |s.keys| ==> LabelMass(s, place, l) == 1.0 / Labels(|s.keys|)
  }

  /** The smoothing theorem.  For any number of keys, any replica counts, any progress of keys in
      transition and any placement: all 2n labels, dummies included, have probability exactly
      1/(2n) if and only if the coin is 1/(2*n*p_max) and, when some key is in transition, the
      queue is never empty at a real draw. */
  lemma SmoothingTheorem(s: Slot, place: seq<seq<nat>>)
    requires s.Valid() && Fits(s, place) && OneToOne(|s.keys|, place)
    requires forall q :: 0 <= q < |s.keys| ==> s.keys[q].passed == s.keys[q].prob
    ensures AllLabelsUniform(s, place)
            <==> s.coin == Coin(|s.keys|, s.pMax) && (s.busy == 1.0 || !InTransition(s))
  {
    if s.coin == Coin(|s.keys|, s.pMax) && (s.busy == 1.0 || !InTransition(s)) {
      forall l: nat | l < 2 * |s.keys|
        ensures LabelMass(s, place, l) == 1.0 / Labels(|s.keys|)
      {
        assert Placed(place, l);
        var q, i :| 0 <= q < |place| && 0 <= i < |place[q]| && place[q][i] == l;
        LabelMassIsTouch(s, place, q, i);
        if q < |s.keys| {
          KeyTouchUniform(s, q, i);
        } else {
          DummyTouchExact(s);
        }
      }
    }
    if AllLabelsUniform(s, place) {
      LabelMassIsTouch(s, place, |s.keys|, 0);
      DummyTouchExact(s);
      if InTransition(s) {
        var q :| 0 <= q < |s.keys| && s.keys[q].initialised.Some?;
        LabelMassIsTouch(s, place, q, 0);
        BusyExact(s, q, 0);
      }
    }
  }
}
