/** What a slot of a security batch really touches: from the operation that the slot is filled with and the replica
    that `execute_batch` draws for it to the masses of the smoothing theorem. */
module SlotDraws {
  import opened Wrappers
  import opened Sums
  import opened Smoothing
  import opened SlotMass
  import opened Directory
  import opened UpdateCache
  import opened Refinement
  import opened Plans
  import opened PlanSmoothing
  import opened Draws
  import opened Batching

  // ------------------------------------------------------------------ one access of a batch

  /** Each access of a batch is drawn on its own: from its operation, its flag and its draws. */
  lemma DrawnAlone(p: Plan, missing: Entries, ops: seq<Op>, trues: seq<bool>, draws: seq<(real, nat)>, i: nat)
    requires p.Smooth() && p.Transition(missing) && IsRequest(p, ops, trues, draws) && i < |ops|
    ensures IsRequest(p, [ops[i]], [trues[i]], [draws[i]])
    ensures Drawn(p, missing, ops, trues, draws)[i] == Drawn(p, missing, [ops[i]], [trues[i]], [draws[i]])[0]
    ensures var a := Drawn(p, missing, ops, trues, draws)[i]; a.op == ops[i] && a.isTrue == trues[i]
  {
    AllDrawable(p, missing, ops);
    AllDrawable(p, missing, [ops[i]]);
  }

  /** The values of `rand()` below n with which the access, given the draw u of `prob`, has replica j. */
  ghost function DrawsOf(p: Plan, missing: Entries, op: Op, isTrue: bool, u: real, n: nat, j: nat): set<nat>
    requires p.Smooth() && p.Transition(missing) && op.key in p.Counts() && 0.0 <= u < 1.0
  {
    set rnd: nat | rnd < n && Drawn(p, missing, [op], [isTrue], [(u, rnd)])[0].replica == j
  }

  ghost function PartOfDraws(p: Plan, missing: Entries, op: Op, isTrue: bool, u: real, n: nat, j: nat): real
    requires p.Smooth() && p.Transition(missing) && op.key in p.Counts() && 0.0 <= u < 1.0 && n > 0
  {
    |DrawsOf(p, missing, op, isTrue, u, n, j)| as real / n as real
  }

  /** The probability that a draw of `prob` stays on the initialised replicas. */
  function Stay(p: Plan, missing: Entries, key: string): real
    requires Drawable(p.Counts(), missing, p.frequency, p.pMax, key)
  {
    if key in missing
    then PInitialised(LeadingZeros(missing[key].bits), p.Counts()[key], FrequencyOf(p.frequency, key), p.pMax)
    else 1.0
  }

  /** u stays and v does not, if such draws exist. */
  predicate Splits(stay: real, u: real, v: real) {
    0.0 <= u < 1.0 && 0.0 <= v < 1.0 && (u < stay || stay == 0.0) && (v >= stay || stay == 1.0)
  }

  /** Over this many values of `rand()` all remainders occur equally often. */
  function Cycle(p: Plan, missing: Entries, key: string): nat
    requires key in p.Counts()
  {
    if key in missing then Period(LeadingZeros(missing[key].bits), p.Counts()[key]) else p.Counts()[key]
  }

  function Period(a: nat, r: nat): nat {
    if a < r then Times(a, r - a) else r
  }

  function Times(a: nat, b: nat): nat {
    a * b
  }

  /** The probability that the access has replica j: the average over the uniform draw of `prob`. */
  ghost function ReplicaMass(p: Plan, missing: Entries, op: Op, isTrue: bool, u: real, v: real, n: nat, j: nat): real
    requires p.Smooth() && p.Transition(missing) && op.key in p.Counts() && n > 0 && 0.0 <= u < 1.0 && 0.0 <= v < 1.0
  {
    RegisteredDrawable(p, missing, op.key);
    var stay := Stay(p, missing, op.key);
    stay * PartOfDraws(p, missing, op, isTrue, u, n, j) + (1.0 - stay) * PartOfDraws(p, missing, op, isTrue, v, n, j)
  }

  /** A replica's share in the smoothing theorem. */
  ghost function ShareOf(p: Plan, missing: Entries, q: nat, isTrue: bool, j: nat): real
    requires p.Smooth() && p.Transition(missing) && q <= |p.keys|
  {
    KeyDrawable(p, missing, q);
    if q < |p.keys| then Share(View(p, missing, q), isTrue, p.pMax, j) else 1.0 / p.dummies as real
  }

  lemma KeyDrawable(p: Plan, missing: Entries, q: nat)
    requires p.Smooth() && p.Transition(missing) && q <= |p.keys|
    ensures |p.keys| == |p.probs| == p.size && KeyAt(p, q) in p.Counts() && p.pMax > 0.0 && p.dummies > 0
    ensures Drawable(p.Counts(), missing, p.frequency, p.pMax, KeyAt(p, q))
    ensures q < |p.keys| ==>
              var k := View(p, missing, q);
              && k.replicas == p.Counts()[p.keys[q]] && k.replicas >= 1
              && k.passed == FrequencyOf(p.frequency, p.keys[q])
              && (k.initialised.Some? ==>
                    && p.keys[q] in missing && k.initialised.value == LeadingZeros(missing[p.keys[q]].bits)
                    && 1 <= k.initialised.value < k.replicas && Weight(k.replicas, k.passed, p.pMax) > 0.0)
    ensures q == |p.keys| ==> p.dummyKey !in missing && p.Counts()[p.dummyKey] == p.dummies
  {
    hide Bijection, Weight;
    BudgetOf(p.probs, p.size, p.alpha);
    if q < |p.keys| {
      assert p.keys[q] in p.keys;
    }
    RegisteredDrawable(p, missing, KeyAt(p, q));
  }

  /** What `execute_batch` hits is what `sample_a_replica` hits with the plan's count, frequency and p_max. */
  lemma DrawsAreHits(p: Plan, missing: Entries, op: Op, isTrue: bool, u: real, n: nat, j: nat)
    requires p.Smooth() && p.Transition(missing) && op.key in p.Counts() && 0.0 <= u < 1.0
    ensures Drawable(p.Counts(), missing, p.frequency, p.pMax, op.key)
    ensures |DrawsOf(p, missing, op, isTrue, u, n, j)|
            == Hits(missing, op.key, p.Counts()[op.key], isTrue, FrequencyOf(p.frequency, op.key), p.pMax, u, n, j)
  {
    hide Bijection, Plan.Smooth, Plan.Transition;
    RegisteredDrawable(p, missing, op.key);
    forall rnd: nat
      ensures Drawn(p, missing, [op], [isTrue], [(u, rnd)])[0].replica
              == SampleReplica(missing, op.key, p.Counts()[op.key], isTrue, FrequencyOf(p.frequency, op.key), p.pMax, u,
                               rnd)
    {
      OneDrawn(p, missing, op, isTrue, u, rnd);
    }
    assert DrawsOf(p, missing, op, isTrue, u, n, j)
           == set rnd: nat | rnd < n && SampleReplica(missing, op.key, p.Counts()[op.key], isTrue,
                                                      FrequencyOf(p.frequency, op.key), p.pMax, u, rnd) == j;
  }

  lemma OneDrawn(p: Plan, missing: Entries, op: Op, isTrue: bool, u: real, rnd: nat)
    requires p.Smooth() && p.Transition(missing) && op.key in p.Counts() && 0.0 <= u < 1.0
    requires Drawable(p.Counts(), missing, p.frequency, p.pMax, op.key)
    ensures Drawn(p, missing, [op], [isTrue], [(u, rnd)])[0].replica
            == SampleReplica(missing, op.key, p.Counts()[op.key], isTrue, FrequencyOf(p.frequency, op.key), p.pMax, u,
                             rnd)
  {
    hide Plan.Smooth, Plan.Transition;
    AllDrawable(p, missing, [op]);
  }

  /** In every state of the proxy, for every key and the dummy, every flag and every replica: the part of all draws
      with which an access of a batch has that replica is its share in the smoothing theorem. */
  lemma DrawnShare(p: Plan, missing: Entries, q: nat, op: Op, isTrue: bool, u: real, v: real, m: nat, j: nat)
    requires p.Smooth() && p.Transition(missing) && q <= |p.keys| && op.key == KeyAt(p, q) && op.key in p.Counts()
    requires Drawable(p.Counts(), missing, p.frequency, p.pMax, op.key)
    requires Splits(Stay(p, missing, op.key), u, v) && m > 0 && j < p.Counts()[op.key]
    ensures m * Cycle(p, missing, op.key) > 0
    ensures ReplicaMass(p, missing, op, isTrue, u, v, m * Cycle(p, missing, op.key), j)
            == ShareOf(p, missing, q, isTrue, j)
  {
    hide Plan.Smooth, Plan.Transition, PInitialised, Weight, Bijection;
    KeyDrawable(p, missing, q);
    if op.key in missing && LeadingZeros(missing[op.key].bits) < p.Counts()[op.key] {
      MovingShare(p, missing, q, op, isTrue, u, v, m, j);
    } else {
      SettledShare(p, missing, q, op, isTrue, u, v, m, j);
    }
  }

  /** A key that is not in transition, or only with a vector of zeros, and the dummy. */
  lemma SettledShare(p: Plan, missing: Entries, q: nat, op: Op, isTrue: bool, u: real, v: real, m: nat, j: nat)
    requires p.Smooth() && p.Transition(missing) && q <= |p.keys| && op.key == KeyAt(p, q) && op.key in p.Counts()
    requires Drawable(p.Counts(), missing, p.frequency, p.pMax, op.key)
    requires Splits(Stay(p, missing, op.key), u, v) && m > 0 && j < p.Counts()[op.key]
    requires op.key in missing ==> LeadingZeros(missing[op.key].bits) >= p.Counts()[op.key]
    ensures m * Cycle(p, missing, op.key) > 0
    ensures ReplicaMass(p, missing, op, isTrue, u, v, m * Cycle(p, missing, op.key), j)
            == ShareOf(p, missing, q, isTrue, j)
  {
    hide Plan.Smooth, Plan.Transition, PInitialised, Weight, Bijection, Drawn;
    KeyDrawable(p, missing, q);
    var r := p.Counts()[op.key];
    ProductPositive(m, r);
    StaysWhole(p, missing, op.key);
    DrawsAreHits(p, missing, op, isTrue, u, m * r, j);
    WholeHits(missing, op.key, r, isTrue, FrequencyOf(p.frequency, op.key), p.pMax, u, m, j);
    PartOf(m, r);
    OnlyStay(PartOfDraws(p, missing, op, isTrue, u, m * r, j), PartOfDraws(p, missing, op, isTrue, v, m * r, j));
  }

  lemma OnlyStay(x: real, y: real)
    ensures 1.0 * x + (1.0 - 1.0) * y == x
  {
  }

  lemma StaysWhole(p: Plan, missing: Entries, key: string)
    requires Drawable(p.Counts(), missing, p.frequency, p.pMax, key)
    requires key in missing ==> LeadingZeros(missing[key].bits) >= p.Counts()[key]
    ensures Stay(p, missing, key) == 1.0 && Cycle(p, missing, key) == p.Counts()[key]
  {
    if key in missing {
      PInitialisedFull(p.Counts()[key], FrequencyOf(p.frequency, key), p.pMax);
    }
  }

  lemma WholeHits(missing: Entries, key: string, r: nat, isTrue: bool, f: real, pMax: real, u: real, m: nat, j: nat)
    requires j < r && 0.0 <= u < 1.0
    requires key in missing ==> LeadingZeros(missing[key].bits) == r && Weight(r, f, pMax) > 0.0
    ensures Hits(missing, key, r, isTrue, f, pMax, u, m * r, j) == m
  {
    hide PInitialised, Weight;
    if key in missing {
      PInitialisedFull(r, f, pMax);
      StayingHits(missing, key, r, isTrue, f, pMax, u, m, j);
    } else {
      EvenHits(missing, key, r, isTrue, f, pMax, u, m, j);
    }
  }

  /** A key in transition. */
  lemma MovingShare(p: Plan, missing: Entries, q: nat, op: Op, isTrue: bool, u: real, v: real, m: nat, j: nat)
    requires p.Smooth() && p.Transition(missing) && q <= |p.keys| && op.key == KeyAt(p, q) && op.key in p.Counts()
    requires Drawable(p.Counts(), missing, p.frequency, p.pMax, op.key)
    requires Splits(Stay(p, missing, op.key), u, v) && m > 0 && j < p.Counts()[op.key]
    requires op.key in missing && LeadingZeros(missing[op.key].bits) < p.Counts()[op.key]
    ensures m * Cycle(p, missing, op.key) > 0
    ensures ReplicaMass(p, missing, op, isTrue, u, v, m * Cycle(p, missing, op.key), j)
            == ShareOf(p, missing, q, isTrue, j)
  {
    hide Plan.Smooth, Plan.Transition, PInitialised, Weight, Bijection, Drawn, Part, DrawsOf, Share;
    KeyDrawable(p, missing, q);
    var k := View(p, missing, q);
    var a, r := LeadingZeros(missing[op.key].bits), p.Counts()[op.key];
    var stay := Stay(p, missing, op.key);
    assert k.initialised == Some(a);
    CommonMultiple(m, a, r - a);
    Regrouped(m, a, r - a);
    MissingMayBeDrawn(a, r, k.passed, p.pMax);
    DrawsArePart(p, missing, op, isTrue, u, m * a * (r - a), j);
    DrawsArePart(p, missing, op, isTrue, v, m * a * (r - a), j);
    if stay == 0.0 {
      OnlyLeaves(k, missing, op.key, isTrue, p.pMax, v, m, j,
                 Part(missing, op.key, r, isTrue, k.passed, p.pMax, u, m * a * (r - a), j));
    } else {
      TransitionShare(k, missing, op.key, isTrue, p.pMax, u, v, m, j);
    }
  }

  lemma Regrouped(m: nat, a: nat, b: nat)
    ensures m * (a * b) == m * a * b
  {
  }

  lemma DrawsArePart(p: Plan, missing: Entries, op: Op, isTrue: bool, u: real, n: nat, j: nat)
    requires p.Smooth() && p.Transition(missing) && op.key in p.Counts() && 0.0 <= u < 1.0 && n > 0
    ensures Drawable(p.Counts(), missing, p.frequency, p.pMax, op.key)
    ensures PartOfDraws(p, missing, op, isTrue, u, n, j)
            == Part(missing, op.key, p.Counts()[op.key], isTrue, FrequencyOf(p.frequency, op.key), p.pMax, u, n, j)
  {
    hide Plan.Smooth, Plan.Transition, DrawsOf, Hits;
    DrawsAreHits(p, missing, op, isTrue, u, n, j);
  }

  /** If no draw stays, any value may stand for one that does. */
  lemma OnlyLeaves(k: KeyView, missing: Entries, key: string, isTrue: bool, pMax: real, v: real, m: nat, j: nat,
                   x: real)
    requires key in missing && k.initialised == Some(LeadingZeros(missing[key].bits)) && j < k.replicas && m > 0
    requires 0 < LeadingZeros(missing[key].bits) < k.replicas && Weight(k.replicas, k.passed, pMax) > 0.0
    requires PInitialised(k.initialised.value, k.replicas, k.passed, pMax) == 0.0 <= v < 1.0
    ensures var (a, r) := (k.initialised.value, k.replicas);
            var n := m * a * (r - a);
            n > 0 && 0.0 * x + (1.0 - 0.0) * Part(missing, key, r, isTrue, k.passed, pMax, v, n, j)
                     == Share(k, isTrue, pMax, j)
  {
    hide PInitialised, Weight, Part;
    var a, r := k.initialised.value, k.replicas;
    if isTrue {
      StayingPart(missing, key, r, true, k.passed, pMax, v, m, j);
      assert 1.0 - 1.0 == 0.0;
    } else {
      LeavingPart(missing, key, r, k.passed, pMax, v, m, j);
    }
    Averaged(0.0, a, r - a);
  }

  // ------------------------------------------------------------------ one slot

  /** The operation that a slot appends, and its flag. */
  function SlotOp(f: Filling, coin: real, d: Draw): (Op, bool)
    requires |f.batch| == |f.trues|
  {
    SlotAppends(f, coin, d);
    (FillSlot(f, coin, d).batch[|f.batch|], FillSlot(f, coin, d).trues[|f.trues|])
  }

  /** A draw of `prob` that stays, and one that does not, if there are such draws. */
  function Low(): real { 0.0 }

  function High(stay: real): real {
    if 0.0 <= stay < 1.0 then stay else 0.0
  }

  /** The probability that the access of an operation touches replica j of key q; the dummy comes after the
      keys. */
  ghost function AccessMass(p: Plan, missing: Entries, op: Op, isTrue: bool, q: nat, j: nat): real
    requires p.Smooth() && p.Transition(missing) && q <= |p.keys| && op.key in p.Counts()
  {
    if op.key != KeyAt(p, q) then 0.0
    else
      RegisteredDrawable(p, missing, op.key);
      CyclePositive(p, missing, op.key);
      ReplicaMass(p, missing, op, isTrue, Low(), High(Stay(p, missing, op.key)), Cycle(p, missing, op.key), j)
  }

  lemma CyclePositive(p: Plan, missing: Entries, key: string)
    requires Drawable(p.Counts(), missing, p.frequency, p.pMax, key)
    ensures Cycle(p, missing, key) > 0
  {
    hide Weight;
    if key in missing && LeadingZeros(missing[key].bits) < p.Counts()[key] {
      ProductPositive(LeadingZeros(missing[key].bits), p.Counts()[key] - LeadingZeros(missing[key].bits));
    }
  }

  /** It is the replica's share; by `DrawnShare` any other draws, and more values of `rand()`, give the same. */
  lemma AccessMassIs(p: Plan, missing: Entries, op: Op, isTrue: bool, q: nat, j: nat)
    requires p.Smooth() && p.Transition(missing) && q <= |p.keys| && op.key in p.Counts()
    requires KeyAt(p, q) in p.Counts() && j < p.Counts()[KeyAt(p, q)]
    ensures AccessMass(p, missing, op, isTrue, q, j)
            == if op.key == KeyAt(p, q) then ShareOf(p, missing, q, isTrue, j) else 0.0
  {
    hide Plan.Smooth, Plan.Transition, ReplicaMass, ShareOf, Share, Weight;
    if op.key == KeyAt(p, q) {
      RegisteredDrawable(p, missing, op.key);
      StayIsProbability(p, missing, q);
      DrawnShare(p, missing, q, op, isTrue, Low(), High(Stay(p, missing, op.key)), 1, j);
    }
  }

  lemma StayIsProbability(p: Plan, missing: Entries, q: nat)
    requires p.Smooth() && p.Transition(missing) && q <= |p.keys|
    requires Drawable(p.Counts(), missing, p.frequency, p.pMax, KeyAt(p, q))
    ensures 0.0 <= Stay(p, missing, KeyAt(p, q)) <= 1.0
  {
    hide Bijection, Weight, PInitialised;
    KeyDrawable(p, missing, q);
    var key := KeyAt(p, q);
    if key in missing {
      assert key in p.frequency && p.frequency[key] <= p.pMax;
      assert p.frequency[key] == p.probs[q] > 0.0;
      PInitialisedIsProbability(LeadingZeros(missing[key].bits), p.Counts()[key], p.frequency[key], p.pMax);
    }
  }

  /** Weights that, normalised, are the fake masses of the slot. */
  ghost predicate DrawnFrom(w: seq<real>, s: Slot) {
    && |w| == |s.keys| + 1 && Sum(w) != 0.0 && s.FakeTotal() > 0.0
    && forall x :: 0 <= x < |w| ==>
         Normalised(w)[x] == (if x < |s.keys| then Weight(s.keys[x].replicas, s.keys[x].prob, s.pMax)
                              else Weight(s.dummies, 0.0, s.pMax)) / s.FakeTotal()
  }

  /** What a slot is filled from: before it, the queue holds a client's operation (on key c, say), or nothing; `low`
      is a draw of the coin that says real, `high` one that says fake. */
  datatype Chances = Chances(clients: seq<Queued>, waiting: seq<Queued>, held: Filling, low: real, high: real,
                             arrivals: seq<Queued>)

  ghost predicate Fair(p: Plan, c: Chances, coin: real) {
    && |c.clients| == |p.keys| && (forall x :: 0 <= x < |p.keys| ==> c.clients[x].op.key == p.keys[x])
    && |c.held.batch| == |c.held.trues| && c.low < coin <= c.high
  }

  /** A client's operation on key x is at the front of the queue, and the coin says real. */
  function BusyOp(p: Plan, c: Chances, coin: real, x: nat): (Op, bool)
    requires |c.held.batch| == |c.held.trues| && x < |c.clients| == |p.keys|
  {
    SlotOp(c.held.(queue := [c.clients[x]] + c.waiting), coin, Draw(c.arrivals, c.low, p.dummyKey, p.dummyKey))
  }

  /** Nothing is queued, the coin says real, and the real distribution gives key x. */
  function IdleOp(p: Plan, c: Chances, coin: real, x: nat): (Op, bool)
    requires |c.held.batch| == |c.held.trues| && x < |p.keys|
  {
    SlotOp(c.held.(queue := []), coin, Draw([], c.low, p.keys[x], p.dummyKey))
  }

  /** The coin says fake, and the fake distribution gives key x. */
  function FakeOp(p: Plan, c: Chances, coin: real, x: nat): (Op, bool)
    requires |c.held.batch| == |c.held.trues| && x <= |p.keys|
  {
    SlotOp(c.held, coin, Draw(c.arrivals, c.high, p.dummyKey, KeyAt(p, x)))
  }

  lemma SlotOps(p: Plan, c: Chances, coin: real)
    requires Fair(p, c, coin)
    ensures forall x :: 0 <= x < |p.keys| ==> BusyOp(p, c, coin, x) == (c.clients[x].op, true)
    ensures forall x :: 0 <= x < |p.keys| ==> IdleOp(p, c, coin, x) == (Op(p.keys[x], ""), false)
    ensures forall x :: 0 <= x <= |p.keys| ==> FakeOp(p, c, coin, x) == (Op(KeyAt(p, x), ""), false)
  {
    forall x | 0 <= x < |p.keys|
      ensures BusyOp(p, c, coin, x) == (c.clients[x].op, true)
      ensures IdleOp(p, c, coin, x) == (Op(p.keys[x], ""), false)
    {
    }
  }

  /** Operations, with flags, on registered keys. */
  ghost predicate OnKeys(p: Plan, ops: seq<(Op, bool)>) {
    forall x :: 0 <= x < |ops| ==> ops[x].0.key in p.Counts()
  }

  ghost function Terms(p: Plan, missing: Entries, weights: seq<real>, ops: seq<(Op, bool)>, q: nat, j: nat)
    : (row: seq<real>)
    requires p.Smooth() && p.Transition(missing) && q <= |p.keys| && |weights| == |ops| && OnKeys(p, ops)
    ensures |row| == |ops|
  {
    seq(|ops|, x requires 0 <= x < |ops| => weights[x] * AccessMass(p, missing, ops[x].0, ops[x].1, q, j))
  }

  /** The probability that the access of one of these operations, which occur with these probabilities, touches the
      replica. */
  ghost function MeanMass(p: Plan, missing: Entries, weights: seq<real>, ops: seq<(Op, bool)>, q: nat, j: nat): real
    requires p.Smooth() && p.Transition(missing) && q <= |p.keys| && |weights| == |ops| && OnKeys(p, ops)
  {
    Sum(Terms(p, missing, weights, ops, q, j))
  }

  /** The x-th operation is on the x-th key. */
  ghost predicate InKeyOrder(p: Plan, ops: seq<(Op, bool)>, isTrue: bool) {
    |ops| <= |p.keys| + 1 && forall x :: 0 <= x < |ops| ==> ops[x].0.key == KeyAt(p, x) && ops[x].1 == isTrue
  }

  lemma InKeyOrderOnKeys(p: Plan, ops: seq<(Op, bool)>, isTrue: bool)
    requires p.Smooth() && InKeyOrder(p, ops, isTrue)
    ensures OnKeys(p, ops)
  {
    forall x | 0 <= x < |ops|
      ensures ops[x].0.key in p.Counts()
    {
      assert x < |p.keys| ==> p.keys[x] in p.keys;
    }
  }

  function BusyOps(p: Plan, c: Chances, coin: real): (s: seq<(Op, bool)>)
    requires |c.held.batch| == |c.held.trues| && |c.clients| == |p.keys|
    ensures |s| == |p.keys|
  {
    seq(|p.keys|, x requires 0 <= x < |p.keys| => BusyOp(p, c, coin, x))
  }

  function IdleOps(p: Plan, c: Chances, coin: real): (s: seq<(Op, bool)>)
    requires |c.held.batch| == |c.held.trues|
    ensures |s| == |p.keys|
  {
    seq(|p.keys|, x requires 0 <= x < |p.keys| => IdleOp(p, c, coin, x))
  }

  function FakeOps(p: Plan, c: Chances, coin: real): (s: seq<(Op, bool)>)
    requires |c.held.batch| == |c.held.trues|
    ensures |s| == |p.keys| + 1
  {
    seq(|p.keys| + 1, x requires 0 <= x <= |p.keys| => FakeOp(p, c, coin, x))
  }

  lemma SlotsInKeyOrder(p: Plan, c: Chances, coin: real)
    requires p.Smooth() && Fair(p, c, coin)
    ensures |p.keys| == |p.probs| == |c.clients| && |c.held.batch| == |c.held.trues|
    ensures InKeyOrder(p, BusyOps(p, c, coin), true) && OnKeys(p, BusyOps(p, c, coin))
    ensures InKeyOrder(p, IdleOps(p, c, coin), false) && OnKeys(p, IdleOps(p, c, coin))
    ensures InKeyOrder(p, FakeOps(p, c, coin), false) && OnKeys(p, FakeOps(p, c, coin))
  {
    hide BusyOp, IdleOp, FakeOp, Bijection;
    SlotOps(p, c, coin);
    InKeyOrderOnKeys(p, BusyOps(p, c, coin), true);
    InKeyOrderOnKeys(p, IdleOps(p, c, coin), false);
    InKeyOrderOnKeys(p, FakeOps(p, c, coin), false);
  }

  /** The probability that the slot touches replica j of key q: the coin says real with probability `coin`, and then
      an operation is waiting with probability `busy`, whose key is distributed like the real distribution. */
  ghost function SlotTouch(p: Plan, missing: Entries, w: seq<real>, c: Chances, coin: real, busy: real, q: nat, j: nat)
    : real
    requires p.Smooth() && p.Transition(missing) && q <= |p.keys| && Fair(p, c, coin)
    requires |w| == |p.keys| + 1 && Sum(w) != 0.0
  {
    SlotsInKeyOrder(p, c, coin);
    coin * (busy * MeanMass(p, missing, p.probs, BusyOps(p, c, coin), q, j)
            + (1.0 - busy) * MeanMass(p, missing, p.probs, IdleOps(p, c, coin), q, j))
    + (1.0 - coin) * MeanMass(p, missing, Normalised(w), FakeOps(p, c, coin), q, j)
  }

  // ------------------------------------------------------------------ the masses of the smoothing theorem

  lemma KeyAtMost(p: Plan, q: nat, x: nat)
    requires p.Smooth() && q <= |p.keys| && x <= |p.keys|
    ensures KeyAt(p, x) == KeyAt(p, q) <==> x == q
  {
    hide Bijection;
    if KeyAt(p, x) == KeyAt(p, q) {
      SameKeyAt(p, x, q);
    }
  }

  /** Of a sum over keys only the term of the key itself is left. */
  lemma OwnTerm(row: seq<real>, q: nat, x: real)
    requires forall k :: 0 <= k < |row| ==> row[k] == if k == q then x else 0.0
    ensures Sum(row) == if q < |row| then x else 0.0
  {
    if q < |row| {
      SumSingle(row, q);
    } else {
      SumZero(row);
    }
  }

  lemma MeanMassIs(p: Plan, missing: Entries, weights: seq<real>, ops: seq<(Op, bool)>, isTrue: bool, q: nat, j: nat)
    requires p.Smooth() && p.Transition(missing) && q <= |p.keys| && |weights| == |ops|
    requires InKeyOrder(p, ops, isTrue) && OnKeys(p, ops)
    requires KeyAt(p, q) in p.Counts() && j < p.Counts()[KeyAt(p, q)]
    ensures MeanMass(p, missing, weights, ops, q, j)
            == if q < |ops| then weights[q] * ShareOf(p, missing, q, isTrue, j) else 0.0
  {
    hide Plan.Smooth, Plan.Transition, AccessMass, ShareOf, KeyAt;
    var row := Terms(p, missing, weights, ops, q, j);
    forall x | 0 <= x < |row|
      ensures row[x] == if x == q then weights[x] * ShareOf(p, missing, q, isTrue, j) else 0.0
    {
      KeyAtMost(p, q, x);
      AccessMassIs(p, missing, ops[x].0, isTrue, q, j);
    }
    OwnTerm(row, q, if q < |ops| then weights[q] * ShareOf(p, missing, q, isTrue, j) else 0.0);
  }

  lemma MixIs(coin: real, prob: real, busy: real, x: real, y: real, fake: real)
    ensures coin * (busy * (prob * x) + (1.0 - busy) * (prob * y)) + (1.0 - coin) * (fake * y)
            == Mix(coin, prob, busy, x, y, fake)
  {
    assert busy * (prob * x) + (1.0 - busy) * (prob * y) == prob * (busy * x + (1.0 - busy) * y);
    assert coin * (prob * (busy * x + (1.0 - busy) * y)) == coin * prob * (busy * x + (1.0 - busy) * y);
  }

  /** The bridge.  In every state of the proxy, whatever is queued behind a client's operation and whatever the slots
      before hold: the probability with which a slot, filled as `create_security_batch` fills it and accessed as
      `execute_batch` accesses it, touches a replica is the mass that the smoothing theorem is about. */
  lemma SlotTouchIs(p: Plan, missing: Entries, w: seq<real>, c: Chances, busy: real, q: nat, j: nat)
    requires p.Smooth() && p.Weighted() && p.Transition(missing) && |p.frequency| > 0
    requires p.pMax > 0.0 && |p.keys| == |p.probs| && q <= |p.keys|
    requires KeyAt(p, q) in p.Counts() && j < p.Counts()[KeyAt(p, q)]
    requires var s := SlotOf(p, missing, busy); DrawnFrom(w, s) && Fair(p, c, s.coin)
    ensures var s := SlotOf(p, missing, busy);
            s.Valid() && SlotTouch(p, missing, w, c, s.coin, busy, q, j) == Touch(s, q, j)
  {
    hide Plan.Smooth, Plan.Weighted, Plan.Transition, MeanMass, Mix, Weight, Fair, Share, Coin, OnKeys, InKeyOrder;
    hide BusyOps, IdleOps, FakeOps;
    var s := SlotOf(p, missing, busy);
    SlotIsValid(p, missing, busy);
    SlotFits(s);
    KeyDrawable(p, missing, q);
    SlotsInKeyOrder(p, c, s.coin);
    MeanMassIs(p, missing, p.probs, BusyOps(p, c, s.coin), true, q, j);
    MeanMassIs(p, missing, p.probs, IdleOps(p, c, s.coin), false, q, j);
    MeanMassIs(p, missing, Normalised(w), FakeOps(p, c, s.coin), false, q, j);
    if q < |p.keys| {
      MixIs(s.coin, p.probs[q], busy, ShareOf(p, missing, q, true, j), ShareOf(p, missing, q, false, j),
            Normalised(w)[q]);
    } else {
      MixIs(s.coin, 0.0, busy, 0.0, 1.0 / p.dummies as real, Normalised(w)[q]);
    }
  }

  // ------------------------------------------------------------------ the weights that are drawn from

  /** The weights that a redistribution builds are such weights. */
  lemma NewWeightsDrawn(p: Plan, missing: Entries, busy: real, w: seq<real>)
    requires p.Smooth() && p.Weighted() && p.Transition(missing) && |p.frequency| > 0
    requires p.pMax > 0.0 && |p.keys| == |p.probs|
    requires Reweighted(w, p.keys, p.probs, p.replicas, p.dummies, p.pMax)
    ensures DrawnFrom(w, SlotOf(p, missing, busy))
  {
    hide Plan.Smooth, Plan.Weighted, Plan.Transition, Weight, Normalised;
    FakeMassIsDrawn(p, missing, busy, w, 0);
    forall x | 0 <= x < |w|
      ensures var s := SlotOf(p, missing, busy);
              Normalised(w)[x] == (if x < |s.keys| then Weight(s.keys[x].replicas, s.keys[x].prob, s.pMax)
                                   else Weight(s.dummies, 0.0, s.pMax)) / s.FakeTotal()
    {
      FakeMassIsDrawn(p, missing, busy, w, x);
    }
  }

  /** So are those that creation builds. */
  lemma StartWeightsDrawn(p: Plan, missing: Entries, busy: real, delta: real, w: seq<real>)
    requires p.Smooth() && p.Weighted() && p.Transition(missing) && |p.frequency| > 0
    requires p.pMax == p.alpha > 0.0 && |p.keys| == |p.probs| && IsDistribution(p.probs)
    requires Divides(delta) && delta == 1.0 / (Labels(p.size) * p.alpha) && StartWeights(w, p.probs, p.alpha, delta)
    ensures DrawnFrom(w, SlotOf(p, missing, busy))
  {
    hide Plan.Smooth, Plan.Weighted, Plan.Transition, Weight;
    StartFakeMassIsDrawn(p, missing, busy, delta, w, 0);
    forall x | 0 <= x < |w|
      ensures var s := SlotOf(p, missing, busy);
              Normalised(w)[x] == (if x < |s.keys| then Weight(s.keys[x].replicas, s.keys[x].prob, s.pMax)
                                   else Weight(s.dummies, 0.0, s.pMax)) / s.FakeTotal()
    {
      StartFakeMassIsDrawn(p, missing, busy, delta, w, x);
      OverOne(w[x]);
    }
  }

  lemma OverOne(x: real)
    ensures x / 1.0 == x
  {
  }

  // ------------------------------------------------------------------ uniformity, of what is really touched

  ghost predicate TouchedUniformly(p: Plan, missing: Entries, w: seq<real>, c: Chances, coin: real, busy: real)
    requires p.Smooth() && p.Transition(missing) && Fair(p, c, coin) && |w| == |p.keys| + 1 && Sum(w) != 0.0
    requires p.size > 0
  {
    forall q: nat, j: nat | q <= |p.keys| && j < At(p.Counts(), KeyAt(p, q)) ::
      SlotTouch(p, missing, w, c, coin, busy, q, j) == 1.0 / Labels(p.size)
  }

  /** The smoothing theorem for what the code does with a slot: filled and accessed with the weights that the proxy
      has built and the coin it flips, the slot touches every replica, dummies included, with probability 1/(2n) if
      and only if the dummy has no entry in `key_to_frequency_` and, while a key is in transition, real draws find a
      client operation. */
  lemma SlotsTouchUniformly(p: Plan, missing: Entries, w: seq<real>, c: Chances, busy: real)
    requires p.Smooth() && p.Weighted() && p.Transition(missing) && |p.frequency| > 0
    requires p.pMax > 0.0 && |p.keys| == |p.probs| == p.size > 0
    requires var s := SlotOf(p, missing, busy); DrawnFrom(w, s) && Fair(p, c, s.coin)
    ensures |w| == |p.keys| + 1 && Sum(w) != 0.0
    ensures TouchedUniformly(p, missing, w, c, SlotOf(p, missing, busy).coin, busy)
            <==> p.dummyKey !in p.frequency && (busy == 1.0 || !InTransition(SlotOf(p, missing, busy)))
  {
    hide Plan.Smooth, Plan.Weighted, Plan.Transition, InTransition, Coin, Fair, DrawnFrom, Place, TouchedUniformly;
    hide AllLabelsUniform, Fits, Slot.Valid;
    DrawnFromNeeds(p, missing, w, busy);
    ProxyIsSmooth(p, missing, busy);
    if TouchedUniformly(p, missing, w, c, SlotOf(p, missing, busy).coin, busy) {
      TouchedMakeLabels(p, missing, w, c, busy);
    }
    if AllLabelsUniform(SlotOf(p, missing, busy), Place(p)) {
      LabelsMakeTouched(p, missing, w, c, busy);
    }
  }

  lemma DrawnFromNeeds(p: Plan, missing: Entries, w: seq<real>, busy: real)
    requires |p.keys| == |p.probs| && |p.frequency| > 0 && p.pMax > 0.0
    requires DrawnFrom(w, SlotOf(p, missing, busy))
    ensures |w| == |p.keys| + 1 && Sum(w) != 0.0
  {
  }

  lemma LabelsMakeTouched(p: Plan, missing: Entries, w: seq<real>, c: Chances, busy: real)
    requires p.Smooth() && p.Weighted() && p.Transition(missing) && |p.frequency| > 0
    requires p.pMax > 0.0 && |p.keys| == |p.probs| == p.size > 0 && |w| == |p.keys| + 1 && Sum(w) != 0.0
    requires var s := SlotOf(p, missing, busy);
             && DrawnFrom(w, s) && Fair(p, c, s.coin) && s.Valid() && Fits(s, Place(p)) && AllLabelsUniform(s, Place(p))
    ensures TouchedUniformly(p, missing, w, c, SlotOf(p, missing, busy).coin, busy)
  {
    hide Plan.Smooth, Plan.Weighted, Plan.Transition, SlotTouch, Coin, Fair, DrawnFrom, Place, Slot.Valid, Fits;
    hide LabelMass, KeyAt;
    forall q: nat, j: nat | q <= |p.keys| && j < At(p.Counts(), KeyAt(p, q))
      ensures SlotTouch(p, missing, w, c, SlotOf(p, missing, busy).coin, busy, q, j) == 1.0 / Labels(p.size)
    {
      OneTouched(p, missing, w, c, busy, q, j);
    }
  }

  lemma TouchedMakeLabels(p: Plan, missing: Entries, w: seq<real>, c: Chances, busy: real)
    requires p.Smooth() && p.Weighted() && p.Transition(missing) && |p.frequency| > 0
    requires p.pMax > 0.0 && |p.keys| == |p.probs| == p.size > 0 && |w| == |p.keys| + 1 && Sum(w) != 0.0
    requires var s := SlotOf(p, missing, busy);
             DrawnFrom(w, s) && Fair(p, c, s.coin) && s.Valid() && Fits(s, Place(p))
    requires TouchedUniformly(p, missing, w, c, SlotOf(p, missing, busy).coin, busy)
    ensures AllLabelsUniform(SlotOf(p, missing, busy), Place(p))
  {
    hide Plan.Smooth, Plan.Weighted, Plan.Transition, SlotTouch, Coin, Fair, DrawnFrom, Place, Slot.Valid, Fits;
    hide LabelMass, KeyAt;
    var s := SlotOf(p, missing, busy);
    forall l: nat | l < 2 * |s.keys|
      ensures LabelMass(s, Place(p), l) == 1.0 / Labels(|s.keys|)
    {
      var q, j := OwnerAt(p, l);
      OneTouched(p, missing, w, c, busy, q, j);
      assert SlotTouch(p, missing, w, c, s.coin, busy, q, j) == 1.0 / Labels(p.size);
    }
  }

  lemma OwnerAt(p: Plan, l: nat) returns (q: nat, j: nat)
    requires p.Smooth() && l < 2 * p.size
    ensures q <= |p.keys| && |Place(p)| == |p.keys| + 1 && j < |Place(p)[q]| == At(p.Counts(), KeyAt(p, q))
    ensures Place(p)[q][j] == l
  {
    hide Bijection;
    PlacedOneToOne(p);
    assert Placed(Place(p), l);
    q, j :| 0 <= q < |Place(p)| && 0 <= j < |Place(p)[q]| && Place(p)[q][j] == l;
  }

  lemma OneTouched(p: Plan, missing: Entries, w: seq<real>, c: Chances, busy: real, q: nat, j: nat)
    requires p.Smooth() && p.Weighted() && p.Transition(missing) && |p.frequency| > 0
    requires p.pMax > 0.0 && |p.keys| == |p.probs| == p.size > 0
    requires var s := SlotOf(p, missing, busy); DrawnFrom(w, s) && Fair(p, c, s.coin)
    requires q <= |p.keys| && j < At(p.Counts(), KeyAt(p, q)) && |w| == |p.keys| + 1 && Sum(w) != 0.0
    ensures |Place(p)| == |p.keys| + 1 && j < |Place(p)[q]| && Place(p)[q][j] < 2 * p.size
    ensures var s := SlotOf(p, missing, busy);
            && s.Valid() && Fits(s, Place(p))
            && SlotTouch(p, missing, w, c, s.coin, busy, q, j) == LabelMass(s, Place(p), Place(p)[q][j])
  {
    hide Plan.Weighted, Plan.Transition, SlotTouch, Coin, Fair, DrawnFrom, LabelMass, Bijection, Fitting;
    var s := SlotOf(p, missing, busy);
    SlotIsValid(p, missing, busy);
    SlotFitsPlace(p, missing, busy);
    PlacedOneToOne(p);
    SlotTouchIs(p, missing, w, c, busy, q, j);
    LabelMassIsTouch(s, Place(p), q, j);
  }
}
