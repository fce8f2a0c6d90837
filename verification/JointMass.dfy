/** The probability with which the slots of one batch touch a sequence of labels.  All slots of a batch are
    filled, and all its replicas drawn, before anything changes, by independent draws. */
module JointMass {
  import opened Smoothing
  import opened SlotMass
  import opened Directory
  import opened UpdateCache
  import opened Plans
  import opened PlanSmoothing

  function Power(u: real, n: nat): real {
    if n == 0 then 1.0 else Power(u, n - 1) * u
  }

  ghost predicate AllFit(slots: seq<Slot>, place: seq<seq<nat>>) {
    forall i :: 0 <= i < |slots| ==> slots[i].Valid() && Fits(slots[i], place)
  }

  /** The probability that slot i touches label ls[i], for every i. */
  ghost function SequenceMass(slots: seq<Slot>, place: seq<seq<nat>>, ls: seq<nat>): real
    requires AllFit(slots, place) && |slots| == |ls|
  {
    if slots == [] then 1.0
    else
      var m := |slots| - 1;
      SequenceMass(slots[..m], place, ls[..m]) * LabelMass(slots[m], place, ls[m])
  }

  /** The slots of a batch; `busies[i]` is the probability that the queue holds an operation at the i-th. */
  function SlotsOf(p: Plan, missing: Entries, busies: seq<real>): (s: seq<Slot>)
    requires |p.keys| == |p.probs| && |p.frequency| > 0 && p.pMax > 0.0
    ensures |s| == |busies|
  {
    seq(|busies|, i requires 0 <= i < |busies| => SlotOf(p, missing, busies[i]))
  }

  ghost predicate AllSequencesUniform(n: nat, slots: seq<Slot>, place: seq<seq<nat>>)
    requires AllFit(slots, place) && n > 0
  {
    forall ls: seq<nat> :: |ls| == |slots| && (forall i :: 0 <= i < |ls| ==> ls[i] < 2 * n) ==>
      SequenceMass(slots, place, ls) == Power(1.0 / Labels(n), |slots|)
  }

  // ------------------------------------------------------------------ powers

  lemma {:induction false} PowerPositive(u: real, n: nat)
    requires u > 0.0
    ensures Power(u, n) > 0.0
  {
    if n > 0 {
      PowerPositive(u, n - 1);
      Scale(0.0, Power(u, n - 1), u);
    }
  }

  lemma {:induction false} PowerBelow(u: real, v: real, n: nat)
    requires 0.0 <= u < v
    ensures 0.0 <= Power(u, n) <= Power(v, n) && (n > 0 ==> Power(u, n) < Power(v, n))
  {
    if n > 0 {
      PowerBelow(u, v, n - 1);
      PowerPositive(v, n - 1);
      ProductBelow(Power(u, n - 1), Power(v, n - 1), u, v);
    }
  }

  lemma ProductBelow(a: real, b: real, u: real, v: real)
    requires 0.0 <= a <= b && 0.0 <= u < v && b > 0.0
    ensures 0.0 <= a * u < b * v
  {
    assert a * u <= b * u by { LargerFactor(u, a, b); }
    assert b * u < b * v by { assert b * (v - u) > 0.0 by { Scale(0.0, v - u, b); } }
  }

  lemma PowerInjective(u: real, v: real, n: nat)
    requires u >= 0.0 && v >= 0.0 && n > 0 && Power(u, n) == Power(v, n)
    ensures u == v
  {
    if u < v {
      PowerBelow(u, v, n);
    } else if v < u {
      PowerBelow(v, u, n);
    }
  }

  // ------------------------------------------------------------------ masses of sequences

  lemma {:induction false} SameMasses(slots: seq<Slot>, place: seq<seq<nat>>, ls: seq<nat>, u: real)
    requires AllFit(slots, place) && |slots| == |ls|
    requires forall i :: 0 <= i < |ls| ==> LabelMass(slots[i], place, ls[i]) == u
    ensures SequenceMass(slots, place, ls) == Power(u, |ls|)
  {
    hide LabelMass;
    if slots != [] {
      SameMasses(slots[..|slots| - 1], place, ls[..|slots| - 1], u);
    }
  }

  /** All slots but one touch their labels with probability u. */
  lemma {:induction false} OneOther(slots: seq<Slot>, place: seq<seq<nat>>, ls: seq<nat>, u: real, at: nat)
    requires AllFit(slots, place) && |slots| == |ls| && at < |ls|
    requires forall i :: 0 <= i < |ls| && i != at ==> LabelMass(slots[i], place, ls[i]) == u
    ensures SequenceMass(slots, place, ls) == Power(u, |ls| - 1) * LabelMass(slots[at], place, ls[at])
  {
    hide LabelMass;
    var m := |slots| - 1;
    if at == m {
      SameMasses(slots[..m], place, ls[..m], u);
    } else {
      OneOther(slots[..m], place, ls[..m], u, at);
      Reordered(Power(u, m - 1), LabelMass(slots[at], place, ls[at]), u);
    }
  }

  lemma Reordered(a: real, x: real, u: real)
    ensures (a * x) * u == (a * u) * x
  {
  }

  /** Every slot is uniform on its own. */
  ghost predicate EverySlotUniform(n: nat, slots: seq<Slot>, place: seq<seq<nat>>)
    requires AllFit(slots, place)
  {
    forall i :: 0 <= i < |slots| ==> |slots[i].keys| == n && AllLabelsUniform(slots[i], place)
  }

  lemma SlotsMakeSequences(n: nat, slots: seq<Slot>, place: seq<seq<nat>>)
    requires AllFit(slots, place) && n > 0 && EverySlotUniform(n, slots, place)
    ensures AllSequencesUniform(n, slots, place)
  {
    hide LabelMass, Fits, Slot.Valid;
    forall ls: seq<nat> | |ls| == |slots| && forall i :: 0 <= i < |ls| ==> ls[i] < 2 * n
      ensures SequenceMass(slots, place, ls) == Power(1.0 / Labels(n), |slots|)
    {
      SameMasses(slots, place, ls, 1.0 / Labels(n));
    }
  }

  /** All sequences together determine each slot, if some label has one non-negative mass in all slots. */
  lemma SequencesMakeSlots(n: nat, slots: seq<Slot>, place: seq<seq<nat>>, l: nat, d: real)
    requires AllFit(slots, place) && n > 0 && AllSequencesUniform(n, slots, place) && l < 2 * n && d >= 0.0
    requires forall i :: 0 <= i < |slots| ==> |slots[i].keys| == n && LabelMass(slots[i], place, l) == d
    ensures EverySlotUniform(n, slots, place)
  {
    hide LabelMass, Fits, Slot.Valid, Labels;
    LabelsPositive(n);
    forall at, l1: nat | 0 <= at < |slots| && l1 < 2 * n
      ensures LabelMass(slots[at], place, l1) == 1.0 / Labels(n)
    {
      CommonMass(n, slots, place, l, d);
      OneSlot(n, slots, place, l, at, l1);
    }
  }

  lemma CommonMass(n: nat, slots: seq<Slot>, place: seq<seq<nat>>, l: nat, d: real)
    requires AllFit(slots, place) && n > 0 && AllSequencesUniform(n, slots, place) && l < 2 * n && d >= 0.0
    requires slots != [] && forall i :: 0 <= i < |slots| ==> LabelMass(slots[i], place, l) == d
    ensures d == 1.0 / Labels(n)
  {
    hide LabelMass, Fits, Slot.Valid, Labels;
    LabelsPositive(n);
    SameMasses(slots, place, seq(|slots|, _ => l), d);
    PowerInjective(d, 1.0 / Labels(n), |slots|);
  }

  lemma OneSlot(n: nat, slots: seq<Slot>, place: seq<seq<nat>>, l: nat, at: nat, l1: nat)
    requires AllFit(slots, place) && n > 0 && AllSequencesUniform(n, slots, place) && l < 2 * n && l1 < 2 * n
    requires at < |slots| && forall i :: 0 <= i < |slots| ==> LabelMass(slots[i], place, l) == 1.0 / Labels(n)
    ensures LabelMass(slots[at], place, l1) == 1.0 / Labels(n)
  {
    hide LabelMass, Fits, Slot.Valid, Labels;
    LabelsPositive(n);
    var u := 1.0 / Labels(n);
    var ls := seq(|slots|, i requires 0 <= i < |slots| => if i == at then l1 else l);
    OneOther(slots, place, ls, u, at);
    PowerPositive(u, |slots| - 1);
    Cancel(Power(u, |slots| - 1), LabelMass(slots[at], place, l1), u);
  }

  lemma LabelsPositive(n: nat)
    requires n > 0
    ensures Labels(n) > 0.0 && 1.0 / Labels(n) > 0.0
  {
  }

  // ------------------------------------------------------------------ the theorem

  lemma SlotsFit(p: Plan, missing: Entries, busies: seq<real>)
    requires p.Smooth() && p.Weighted() && p.Transition(missing)
    ensures |p.frequency| > 0 && p.size > 0 && |p.keys| == |p.probs| == p.size && p.pMax > 0.0
    ensures AllFit(SlotsOf(p, missing, busies), Place(p))
  {
    FrequencyEntries(p);
    forall i | 0 <= i < |busies|
      ensures SlotOf(p, missing, busies[i]).Valid() && Fits(SlotOf(p, missing, busies[i]), Place(p))
    {
      SlotIsValid(p, missing, busies[i]);
      SlotFitsPlace(p, missing, busies[i]);
    }
  }

  /** Real draws always find a client operation, unless no key is in transition. */
  ghost predicate AlwaysBusy(p: Plan, missing: Entries, busies: seq<real>)
    requires |p.keys| == |p.probs| && |p.frequency| > 0 && p.pMax > 0.0
  {
    forall i :: 0 <= i < |busies| ==> busies[i] == 1.0 || !InTransition(SlotOf(p, missing, busies[i]))
  }

  /** The dummy's first label has the same mass in every slot, whatever is queued. */
  lemma DummyMassOf(p: Plan, missing: Entries, busy: real, busy': real)
    requires p.Smooth() && p.Weighted() && p.Transition(missing) && |p.keys| == |p.probs| == p.size > 0
    requires |p.frequency| > 0 && p.pMax > 0.0
    ensures |Place(p)[p.size]| > 0 && Place(p)[p.size][0] < 2 * p.size
    ensures var (s, s', l) := (SlotOf(p, missing, busy), SlotOf(p, missing, busy'), Place(p)[p.size][0]);
            && s.Valid() && Fits(s, Place(p)) && s'.Valid() && Fits(s', Place(p))
            && LabelMass(s, Place(p), l) == LabelMass(s', Place(p), l) >= 0.0
  {
    hide Bijection, Mix, Weight, Labels, Coin;
    DummyMassIs(p, missing, busy);
    DummyMassIs(p, missing, busy');
    SameDummyTouch(p, missing, busy, busy');
    FrequencyEntries(p);
    var s := SlotOf(p, missing, busy);
    RoomOf(p);
    DummyNonNegative(p.size, |p.frequency|, p.pMax, busy, p.dummies, s.FakeTotal());
  }

  lemma RoomOf(p: Plan)
    requires p.Smooth()
    ensures p.dummies > 0 && p.size > 0 && p.pMax > 0.0 && Roomy(p.size, p.pMax)
  {
    BudgetOf(p.probs, p.size, p.alpha);
    EnoughIsRoomy(p.size, p.pMax);
  }

  lemma DummyMassIs(p: Plan, missing: Entries, busy: real)
    requires p.Smooth() && p.Weighted() && p.Transition(missing) && |p.keys| == |p.probs| == p.size > 0
    requires |p.frequency| > 0 && p.pMax > 0.0
    ensures |Place(p)[p.size]| > 0 && Place(p)[p.size][0] < 2 * p.size
    ensures var s := SlotOf(p, missing, busy);
            && s.Valid() && Fits(s, Place(p)) && s.FakeTotal() > 0.0
            && LabelMass(s, Place(p), Place(p)[p.size][0]) == s.DummyTouch()
  {
    hide Bijection, Mix, Weight, Labels, Coin;
    var s := SlotOf(p, missing, busy);
    SlotIsValid(p, missing, busy);
    SlotFitsPlace(p, missing, busy);
    SlotFits(s);
    PlacedOneToOne(p);
    LabelMassIsTouch(s, Place(p), p.size, 0);
  }

  lemma SameDummyTouch(p: Plan, missing: Entries, busy: real, busy': real)
    requires |p.keys| == |p.probs| && |p.frequency| > 0 && p.pMax > 0.0 && p.dummies >= 1
    requires SlotOf(p, missing, busy).FakeTotal() > 0.0
    ensures SlotOf(p, missing, busy).DummyTouch() == SlotOf(p, missing, busy').DummyTouch()
  {
  }

  lemma DummyNonNegative(n: nat, m: nat, pMax: real, busy: real, d: nat, total: real)
    requires 0 < n <= m && pMax > 0.0 && Roomy(n, pMax) && d > 0 && total > 0.0
    ensures Mix(Coin(m, pMax), 0.0, busy, 0.0, 1.0 / d as real, Weight(d, 0.0, pMax) / total) >= 0.0
  {
    var c, g, t := Coin(m, pMax), Weight(d, 0.0, pMax) / total, 1.0 / d as real;
    CoinBelowOne(n, m, pMax);
    assert Weight(d, 0.0, pMax) > 0.0 by { Scale(0.0, d as real, pMax); }
    PositiveQuotient(Weight(d, 0.0, pMax), total);
    PositiveQuotient(1.0, d as real);
    NonNegativeProduct(1.0 - c, g, t);
  }

  lemma NonNegativeProduct(a: real, b: real, c: real)
    requires a >= 0.0 && b > 0.0 && c > 0.0
    ensures a * b * c >= 0.0
  {
    LargerFactor(b, 0.0, a);
    LargerFactor(c, 0.0, a * b);
  }

  lemma CoinBelowOne(n: nat, m: nat, pMax: real)
    requires 0 < n <= m && pMax > 0.0 && Roomy(n, pMax)
    ensures Coin(m, pMax) <= 1.0
  {
    RoomyFits(n, pMax);
    LargerFactor(pMax, Labels(n), Labels(m));
    ReciprocalAtMostOne(Labels(m) * pMax);
  }

  lemma ReciprocalAtMostOne(x: real)
    requires x >= 1.0
    ensures 1.0 / x <= 1.0
  {
  }

  lemma SequencesAreSlots(p: Plan, missing: Entries, busies: seq<real>)
    requires p.Smooth() && p.Weighted() && p.Transition(missing) && |p.keys| == |p.probs| == p.size > 0
    requires |p.frequency| > 0 && p.pMax > 0.0 && AllFit(SlotsOf(p, missing, busies), Place(p)) && busies != []
    ensures AllSequencesUniform(p.size, SlotsOf(p, missing, busies), Place(p))
            <==> EverySlotUniform(p.size, SlotsOf(p, missing, busies), Place(p))
  {
    hide Plan.Smooth, Plan.Weighted, Plan.Transition, LabelMass, Slot.Valid, Fits, AllSequencesUniform;
    var slots := SlotsOf(p, missing, busies);
    if AllSequencesUniform(p.size, slots, Place(p)) {
      DummyMassOf(p, missing, busies[0], busies[0]);
      var l := Place(p)[p.size][0];
      forall i | 0 <= i < |slots|
        ensures LabelMass(slots[i], Place(p), l) == LabelMass(slots[0], Place(p), l)
      {
        DummyMassOf(p, missing, busies[0], busies[i]);
      }
      SequencesMakeSlots(p.size, slots, Place(p), l, LabelMass(slots[0], Place(p), l));
    }
    if EverySlotUniform(p.size, slots, Place(p)) {
      SlotsMakeSequences(p.size, slots, Place(p));
    }
  }

  /** The smoothing theorem for whole batches: all sequences of labels that the slots of a batch can touch
      have probability exactly (1/(2n))^B, where B is the number of slots, if and only if the dummy has no entry in
      `key_to_frequency_` and, while a key is in transition, real draws find a client operation in every
      slot. */
  lemma BatchIsSmooth(p: Plan, missing: Entries, busies: seq<real>)
    requires p.Smooth() && p.Weighted() && p.Transition(missing) && busies != []
    ensures |p.frequency| > 0 && p.size > 0 && |p.keys| == |p.probs| && p.pMax > 0.0
    ensures var slots := SlotsOf(p, missing, busies);
            && AllFit(slots, Place(p))
            && (AllSequencesUniform(p.size, slots, Place(p))
                <==> p.dummyKey !in p.frequency && AlwaysBusy(p, missing, busies))
  {
    hide Plan.Smooth, Plan.Weighted, Plan.Transition, InTransition, AllSequencesUniform, AllLabelsUniform, Place, Fits;
    hide Slot.Valid;
    SlotsFit(p, missing, busies);
    SequencesAreSlots(p, missing, busies);
    var slots := SlotsOf(p, missing, busies);
    forall i | 0 <= i < |slots|
      ensures |slots[i].keys| == p.size
      ensures AllLabelsUniform(slots[i], Place(p))
              <==> p.dummyKey !in p.frequency && (busies[i] == 1.0 || !InTransition(slots[i]))
    {
      ProxyIsSmooth(p, missing, busies[i]);
    }
    assert EverySlotUniform(p.size, slots, Place(p)) ==> AllLabelsUniform(slots[0], Place(p));
  }
}
