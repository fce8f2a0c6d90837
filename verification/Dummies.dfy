/** What it costs that `execute_batch` draws the dummy's replicas with the count of creation, which no
    redistribution updates. */
module Dummies {
  import opened Naming
  import opened Sums
  import opened Smoothing
  import opened SlotMass
  import opened Directory
  import opened UpdateCache
  import opened Plans
  import opened PlanSmoothing
  import opened Draws

  /** The label that replica j of the dummy leads to: `operator[]` inserts 0 for a name that is not filed. */
  function DrawnLabel(p: Plan, j: nat): nat {
    if Name(p.dummyKey, j) in p.labels then p.labels[Name(p.dummyKey, j)] else 0
  }

  /** How many of the first n replicas lead to the label. */
  function LabelHits(p: Plan, n: nat, l: nat): nat {
    if n == 0 then 0 else LabelHits(p, n - 1, l) + if DrawnLabel(p, n - 1) == l then 1 else 0
  }

  /** The mass that one slot gives to each of the first `created` replicas of the dummy. */
  function DummyShare(s: Slot, created: nat): real
    requires created > 0 && s.FakeTotal() > 0.0
  {
    Mix(s.coin, 0.0, s.busy, 0.0, 1.0 / created as real, Weight(s.dummies, 0.0, s.pMax) / s.FakeTotal())
  }

  /** It is that for one of `created` equally likely replicas: a part 1/created of the values of `rand()` draws
      each of them. */
  lemma DrawnEqually(p: Plan, missing: Entries, created: nat, u: real, m: nat, j: nat)
    requires p.dummyKey !in missing && j < created && u < 1.0 && m > 0
    ensures m * created > 0
    ensures Part(missing, p.dummyKey, created, false, FrequencyOf(p.frequency, p.dummyKey), p.pMax, u, m * created, j)
            == 1.0 / created as real
  {
    EvenHits(missing, p.dummyKey, created, false, FrequencyOf(p.frequency, p.dummyKey), p.pMax, u, m, j);
    PartOf(m, created);
  }

  ghost function DrawnRow(p: Plan, created: nat, share: real, l: nat): (row: seq<real>)
    ensures |row| == created
  {
    seq(created, j requires 0 <= j < created => if DrawnLabel(p, j) == l then share else 0.0)
  }

  /** The mass of label l when replicas of the dummy are drawn with the count `created`. */
  ghost function DrawnMass(p: Plan, s: Slot, created: nat, l: nat): real
    requires p.Smooth() && s.Valid() && Fits(s, Place(p)) && created > 0
  {
    SlotFits(s);
    Sum(KeyRows(s, Place(p), l)) + Sum(DrawnRow(p, created, DummyShare(s, created), l))
  }

  /** What the replicas of each key contribute. */
  ghost function KeyRows(s: Slot, place: seq<seq<nat>>, l: nat): (rows: seq<real>)
    requires s.Valid() && Fits(s, place)
    ensures |rows| == |s.keys|
  {
    seq(|s.keys|, q requires 0 <= q < |s.keys| => Sum(Row(s, place, q, l)))
  }

  ghost predicate DrawnUniform(p: Plan, s: Slot, created: nat)
    requires p.Smooth() && s.Valid() && Fits(s, Place(p)) && created > 0
  {
    forall l: nat :: l < 2 * |s.keys| ==> DrawnMass(p, s, created, l) == 1.0 / Labels(|s.keys|)
  }

  // ------------------------------------------------------------------ counting

  lemma {:induction false} RowSum(p: Plan, created: nat, share: real, l: nat)
    ensures Sum(DrawnRow(p, created, share, l)) == LabelHits(p, created, l) as real * share
  {
    if created > 0 {
      var row := DrawnRow(p, created, share, l);
      RowSum(p, created - 1, share, l);
      assert row[..created - 1] == DrawnRow(p, created - 1, share, l);
      OneMoreHit(LabelHits(p, created - 1, l), share);
    }
  }

  lemma OneMoreHit(n: nat, x: real)
    ensures (n + 1) as real * x == n as real * x + x
  {
  }

  lemma {:induction false} NoHit(p: Plan, n: nat, l: nat)
    requires forall j: nat :: j < n ==> DrawnLabel(p, j) != l
    ensures LabelHits(p, n, l) == 0
  {
    if n > 0 {
      NoHit(p, n - 1, l);
    }
  }

  lemma {:induction false} SomeHit(p: Plan, n: nat, l: nat, i: nat)
    requires i < n && DrawnLabel(p, i) == l
    ensures LabelHits(p, n, l) > 0
  {
    if i < n - 1 {
      SomeHit(p, n - 1, l, i);
    }
  }

  lemma {:induction false} OneHit(p: Plan, n: nat, l: nat, i: nat)
    requires i < n && DrawnLabel(p, i) == l && forall j: nat :: j < n && j != i ==> DrawnLabel(p, j) != l
    ensures LabelHits(p, n, l) == 1
  {
    if i < n - 1 {
      OneHit(p, n - 1, l, i);
    } else {
      NoHit(p, n - 1, l);
    }
  }

  lemma {:induction false} OnlyHits(p: Plan, n: nat, l: nat)
    requires forall j: nat :: j < n ==> DrawnLabel(p, j) == l
    ensures LabelHits(p, n, l) == n
  {
    if n > 0 {
      OnlyHits(p, n - 1, l);
    }
  }

  // ------------------------------------------------------------------ masses

  lemma KeysPart(s: Slot, place: seq<seq<nat>>, l: nat)
    requires s.Valid() && Fits(s, place)
    ensures LabelMass(s, place, l) == Sum(KeyRows(s, place, l)) + Sum(Row(s, place, |s.keys|, l))
  {
    hide Row, Slot.Valid;
    var rows := seq(|place|, q requires 0 <= q < |place| => Sum(Row(s, place, q, l)));
    assert rows[..|s.keys|] == KeyRows(s, place, l);
  }

  /** The dummy's replicas, as the model draws them, contribute to the dummy's labels only. */
  lemma DummyRow(s: Slot, place: seq<seq<nat>>, l: nat)
    requires s.Valid() && Fits(s, place) && OneToOne(|s.keys|, place) && s.FakeTotal() > 0.0
    ensures l in place[|s.keys|] ==> Sum(Row(s, place, |s.keys|, l)) == s.DummyTouch()
    ensures l !in place[|s.keys|] ==> Sum(Row(s, place, |s.keys|, l)) == 0.0
  {
    hide Mix, Weight;
    var row := Row(s, place, |s.keys|, l);
    if l in place[|s.keys|] {
      var i :| 0 <= i < |place[|s.keys|]| && place[|s.keys|][i] == l;
      SumSingle(row, i);
    } else {
      SumZero(row);
    }
  }

  ghost predicate OfDummy(p: Plan, l: nat)
    requires p.Smooth()
  {
    l in Place(p)[|p.keys|]
  }

  /** The shares of `created` replicas are those of the real number of dummies, spread differently. */
  lemma SameTotal(s: Slot, created: nat)
    requires s.Valid() && created > 0 && s.FakeTotal() > 0.0
    ensures DummyShare(s, created) * created as real == s.DummyTouch() * s.dummies as real
  {
    hide Weight;
    Spread(s.coin, s.busy, Weight(s.dummies, 0.0, s.pMax) / s.FakeTotal(), created as real);
    Spread(s.coin, s.busy, Weight(s.dummies, 0.0, s.pMax) / s.FakeTotal(), s.dummies as real);
  }

  lemma Spread(coin: real, busy: real, fake: real, n: real)
    requires n > 0.0
    ensures Mix(coin, 0.0, busy, 0.0, 1.0 / n, fake) * n == (1.0 - coin) * fake
  {
    var t := 1.0 / n;
    assert t * n == 1.0;
    assert (1.0 - coin) * fake * t * n == (1.0 - coin) * fake * (t * n);
  }

  /** h shares make up the mass u of a dummy exactly if h*d is the number drawn. */
  lemma SharesMakeUp(h: real, d: real, n: real, share: real, u: real)
    requires d > 0.0 && n > 0.0 && u > 0.0 && share * n == u * d
    ensures h * share == u <==> h * d == n
    ensures h * share == 0.0 <==> h == 0.0
  {
    assert share > 0.0 by {
      Scale(0.0, d, u);
      if share <= 0.0 {
        InOrder(0.0, share, n, 0.0, share * n);
        assert false;
      }
    }
    assert (h * share) * n == (h * d) * u;
    Cancel(n, h * share, u);
    Cancel(u, h * d, n);
    Cancel(share, h, 0.0);
  }

  ghost predicate EvenlyHit(p: Plan, created: nat, l: nat)
    requires p.Smooth()
  {
    if OfDummy(p, l) then LabelHits(p, created, l) * p.dummies == created else LabelHits(p, created, l) == 0
  }

  /** In a uniform slot the keys' replicas make up the mass of their own labels. */
  lemma KeysMass(s: Slot, place: seq<seq<nat>>, l: nat)
    requires s.Valid() && Fits(s, place) && OneToOne(|s.keys|, place) && AllLabelsUniform(s, place)
    requires l < 2 * |s.keys| && s.FakeTotal() > 0.0 && s.DummyTouch() == 1.0 / Labels(|s.keys|)
    ensures Sum(KeyRows(s, place, l)) == if l in place[|s.keys|] then 0.0 else 1.0 / Labels(|s.keys|)
  {
    hide Mix, Weight, Row, LabelMass, OneToOne, KeyRows, Fits, Slot.Valid;
    KeysPart(s, place, l);
    DummyRow(s, place, l);
  }

  /** The keys' part k and h shares make up the uniform mass u. */
  lemma Redrawn(k: real, u: real, ofDummy: bool, h: nat, d: nat, n: nat, share: real)
    requires u > 0.0 && k == (if ofDummy then 0.0 else u) && d > 0 && n > 0 && share * n as real == u * d as real
    ensures k + h as real * share == u <==> if ofDummy then h * d == n else h == 0
  {
    SharesMakeUp(h as real, d as real, n as real, share, u);
    Whole(h, d, n);
  }

  lemma MassOfHits(p: Plan, s: Slot, created: nat, l: nat)
    requires p.Smooth() && s.Valid() && Fits(s, Place(p)) && created > 0
    requires |s.keys| == |p.keys| && s.dummies == p.dummies && l < 2 * |s.keys| && AllLabelsUniform(s, Place(p))
    ensures DrawnMass(p, s, created, l) == 1.0 / Labels(|s.keys|) <==> EvenlyHit(p, created, l)
  {
    hide Plan.Smooth, Row, Mix, Weight, LabelHits, DummyShare, KeyRows, DrawnRow, LabelMass, OneToOne, Fits, Slot.Valid;
    hide Place;
    OneUniformDummy(p, s);
    KeysMass(s, Place(p), l);
    SameTotal(s, created);
    RowSum(p, created, DummyShare(s, created), l);
    Redrawn(Sum(KeyRows(s, Place(p), l)), 1.0 / Labels(|s.keys|), OfDummy(p, l), LabelHits(p, created, l), p.dummies,
            created, DummyShare(s, created));
  }

  lemma Whole(h: nat, d: nat, n: nat)
    ensures h as real * d as real == n as real <==> h * d == n
    ensures h as real == 0.0 <==> h == 0
  {
    assert (h * d) as real == h as real * d as real;
  }

  lemma OneUniformDummy(p: Plan, s: Slot)
    requires p.Smooth() && s.Valid() && Fits(s, Place(p))
    requires |s.keys| == |p.keys| && s.dummies == p.dummies && AllLabelsUniform(s, Place(p))
    ensures s.FakeTotal() > 0.0 && s.DummyTouch() == 1.0 / Labels(|s.keys|) > 0.0
    ensures OneToOne(|s.keys|, Place(p)) && p.dummies > 0
  {
    OneDummyAtLeast(p);
    PlacedOneToOne(p);
    LabelMassIsTouch(s, Place(p), |s.keys|, 0);
    SlotFits(s);
    PositiveQuotient(1.0, Labels(|s.keys|));
  }

  // ------------------------------------------------------------------ the exact condition

  /** The count of creation is still right; or there is a single dummy, and all names that are drawn lead to
      its label. */
  ghost predicate CountsAgree(p: Plan, created: nat) {
    || created == p.dummies
    || (p.dummies == 1 && forall j: nat :: j < created ==> DrawnLabel(p, j) == DrawnLabel(p, 0))
  }

  lemma DummyLabelAt(p: Plan, j: nat)
    requires p.Smooth() && j < p.dummies
    ensures |Place(p)[|p.keys|]| == p.dummies && Place(p)[|p.keys|][j] == DrawnLabel(p, j) < 2 * p.size
    ensures OfDummy(p, DrawnLabel(p, j))
  {
    PlaceAt(p, |p.keys|, j);
    PlacedOneToOne(p);
  }

  /** A name of the dummy beyond its count is not filed, or it is the name of another key's replica. */
  lemma StrayLabel(p: Plan, j: nat)
    requires p.Smooth() && j >= p.dummies && OfDummy(p, DrawnLabel(p, j))
    ensures DrawnLabel(p, j) == 0
  {
    hide Apart;
    if Name(p.dummyKey, j) in p.labels {
      CountsApart(p);
      var i :| 0 <= i < |Place(p)[|p.keys|]| && Place(p)[|p.keys|][i] == DrawnLabel(p, j);
      PlaceAt(p, |p.keys|, i);
      SameLabelSameName(p, Name(p.dummyKey, i), Name(p.dummyKey, j));
      SameKeyName(p.dummyKey, i, j);
      assert false;
    }
  }

  lemma SameLabelSameName(p: Plan, s: string, t: string)
    requires p.Smooth() && s in p.labels && t in p.labels && p.labels[s] == p.labels[t]
    ensures s == t
  {
  }

  lemma OwnLabels(p: Plan, i: nat, j: nat)
    requires p.Smooth() && i < p.dummies && j < p.dummies && DrawnLabel(p, i) == DrawnLabel(p, j)
    ensures i == j
  {
    DummyLabelAt(p, i);
    DummyLabelAt(p, j);
    SamePlace(p, |p.keys|, i, |p.keys|, j);
  }

  lemma AgreeIsEven(p: Plan, created: nat, l: nat)
    requires p.Smooth() && created > 0 && CountsAgree(p, created)
    ensures EvenlyHit(p, created, l)
  {
    hide Plan.Smooth, OfDummy;
    OneDummyAtLeast(p);
    if OfDummy(p, l) {
      var i := IndexOfLabel(p, l);
      if created == p.dummies {
        forall j: nat | j < created && j != i
          ensures DrawnLabel(p, j) != l
        {
          if DrawnLabel(p, j) == l {
            OwnLabels(p, i, j);
          }
        }
        OneHit(p, created, l, i);
      } else {
        OnlyHits(p, created, l);
      }
    } else {
      forall j: nat | j < created
        ensures DrawnLabel(p, j) != l
      {
        DummyLabelAt(p, if j < p.dummies then j else 0);
      }
      NoHit(p, created, l);
    }
  }

  lemma OneDummyAtLeast(p: Plan)
    requires p.Smooth()
    ensures p.dummies > 0 && p.size == |p.keys| > 0
  {
    hide Bijection;
    BudgetOf(p.probs, p.size, p.alpha);
  }

  lemma IndexOfLabel(p: Plan, l: nat) returns (i: nat)
    requires p.Smooth() && OfDummy(p, l)
    ensures i < p.dummies && DrawnLabel(p, i) == l
  {
    i :| 0 <= i < |Place(p)[|p.keys|]| && Place(p)[|p.keys|][i] == l;
    PlaceAt(p, |p.keys|, i);
  }

  lemma EvenIsAgree(p: Plan, created: nat)
    requires p.Smooth() && created > 0 && forall l: nat :: l < 2 * p.size ==> EvenlyHit(p, created, l)
    ensures CountsAgree(p, created)
  {
    hide Plan.Smooth, OfDummy;
    OneDummyAtLeast(p);
    if created < p.dummies {
      MissedLabel(p, created);
      assert false;
    } else if created > p.dummies {
      forall j: nat | p.dummies <= j < created
        ensures OfDummy(p, DrawnLabel(p, j)) && DrawnLabel(p, j) == 0
      {
        StrayHits(p, created, j);
      }
      StraysMeetOne(p, created);
    }
  }

  lemma MissedLabel(p: Plan, created: nat)
    requires p.Smooth() && 0 < created < p.dummies
    ensures DrawnLabel(p, created) < 2 * p.size && !EvenlyHit(p, created, DrawnLabel(p, created))
  {
    hide Plan.Smooth;
    forall j: nat | j < created
      ensures DrawnLabel(p, j) != DrawnLabel(p, created)
    {
      if DrawnLabel(p, j) == DrawnLabel(p, created) {
        OwnLabels(p, j, created);
      }
    }
    DummyLabelAt(p, created);
    NoHit(p, created, DrawnLabel(p, created));
  }

  lemma DrawnInRange(p: Plan, j: nat)
    requires p.Smooth()
    ensures DrawnLabel(p, j) < 2 * p.size
  {
    if Name(p.dummyKey, j) in p.labels {
      assert p.labels[Name(p.dummyKey, j)] in p.labels.Values;
    }
  }

  lemma StrayHits(p: Plan, created: nat, j: nat)
    requires p.Smooth() && p.dummies <= j < created && forall l: nat :: l < 2 * p.size ==> EvenlyHit(p, created, l)
    ensures OfDummy(p, DrawnLabel(p, j)) && DrawnLabel(p, j) == 0
  {
    hide Plan.Smooth, OfDummy;
    DrawnInRange(p, j);
    SomeHit(p, created, DrawnLabel(p, j), j);
    assert EvenlyHit(p, created, DrawnLabel(p, j));
    StrayLabel(p, j);
  }

  /** All strays lead to one dummy's label, so another dummy's label would be hit once only. */
  lemma StraysMeetOne(p: Plan, created: nat)
    requires p.Smooth() && created > p.dummies && forall l: nat :: l < 2 * p.size ==> EvenlyHit(p, created, l)
    requires forall j: nat :: p.dummies <= j < created ==> OfDummy(p, DrawnLabel(p, j)) && DrawnLabel(p, j) == 0
    ensures p.dummies == 1 && forall j: nat :: j < created ==> DrawnLabel(p, j) == DrawnLabel(p, 0)
  {
    hide Plan.Smooth, OfDummy;
    OneDummyAtLeast(p);
    assert DrawnLabel(p, p.dummies) == 0;
    var i := IndexOfLabel(p, 0);
    if p.dummies > 1 {
      HitOnce(p, created, i, if i == 0 then 1 else 0);
      assert false;
    }
  }

  lemma HitOnce(p: Plan, created: nat, zero: nat, i: nat)
    requires p.Smooth() && created > p.dummies && i < p.dummies && zero < p.dummies && i != zero
    requires forall j: nat :: p.dummies <= j < created ==> DrawnLabel(p, j) == DrawnLabel(p, zero)
    ensures DrawnLabel(p, i) < 2 * p.size && !EvenlyHit(p, created, DrawnLabel(p, i))
  {
    hide Plan.Smooth, OfDummy;
    forall j: nat | j < created && j != i
      ensures DrawnLabel(p, j) != DrawnLabel(p, i)
    {
      if DrawnLabel(p, j) == DrawnLabel(p, i) {
        OwnLabels(p, if j < p.dummies then j else zero, i);
      }
    }
    OneHit(p, created, DrawnLabel(p, i), i);
    DummyLabelAt(p, i);
  }

  /** In a state in which the proxy is uniform with the current count: with the count of creation it is
      uniform exactly if that count is still right - or all names that are drawn lead to the label of a
      single dummy.  If the dummies have become more, some of their labels are never touched. */
  lemma StaleCountIsUniform(p: Plan, missing: Entries, busy: real, created: nat)
    requires p.Smooth() && p.Weighted() && p.Transition(missing) && created > 0
    requires |p.frequency| > 0 && p.pMax > 0.0 && |p.keys| == |p.probs|
    requires p.dummyKey !in p.frequency && (busy == 1.0 || !InTransition(SlotOf(p, missing, busy)))
    ensures var s := SlotOf(p, missing, busy);
            && s.Valid() && Fits(s, Place(p))
            && (DrawnUniform(p, s, created) <==> CountsAgree(p, created))
  {
    hide Plan.Smooth, Plan.Transition, Plan.Weighted, LabelHits, CountsAgree, EvenlyHit, DrawnMass;
    ProxyIsSmooth(p, missing, busy);
    var s := SlotOf(p, missing, busy);
    OneDummyAtLeast(p);
    forall l: nat | l < 2 * |s.keys|
      ensures DrawnMass(p, s, created, l) == 1.0 / Labels(|s.keys|) <==> EvenlyHit(p, created, l)
    {
      MassOfHits(p, s, created, l);
    }
    if CountsAgree(p, created) {
      forall l: nat | l < 2 * |s.keys|
        ensures EvenlyHit(p, created, l)
      {
        AgreeIsEven(p, created, l);
      }
    }
    if DrawnUniform(p, s, created) {
      EvenIsAgree(p, created);
    }
  }

  /** A label that the dummies have gained is never touched. */
  lemma GainedIsUntouched(p: Plan, missing: Entries, busy: real, created: nat, j: nat)
    requires p.Smooth() && p.Weighted() && p.Transition(missing)
    requires |p.frequency| > 0 && p.pMax > 0.0 && |p.keys| == |p.probs|
    requires 0 < created <= j < p.dummies
    ensures var s := SlotOf(p, missing, busy);
            s.Valid() && Fits(s, Place(p)) && DrawnMass(p, s, created, DrawnLabel(p, j)) == 0.0
  {
    hide Plan.Smooth, Plan.Transition, Plan.Weighted, LabelHits, Row, OfDummy;
    ProxyIsSmooth(p, missing, busy);
    var s, l := SlotOf(p, missing, busy), DrawnLabel(p, j);
    DummyLabelAt(p, j);
    forall i: nat | i < created
      ensures DrawnLabel(p, i) != l
    {
      if DrawnLabel(p, i) == l {
        OwnLabels(p, i, j);
      }
    }
    NoHit(p, created, l);
    SlotFits(s);
    RowSum(p, created, DummyShare(s, created), l);
    PlacedOneToOne(p);
    OneDummyAtLeast(p);
    KeysPart(s, Place(p), l);
    DummyRow(s, Place(p), l);
    LabelMassIsTouch(s, Place(p), |s.keys|, j);
  }
}
