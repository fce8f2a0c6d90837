/** The replicas that a batch draws: how often each, and whether they lie inside the cached vectors. */
module Draws {
  import opened Wrappers
  import opened Smoothing
  import opened SlotMass
  import opened UpdateCache
  import opened Storage
  import opened Refinement
  import opened Hazards
  import opened Plans

  // ------------------------------------------------------------------ how often

  /** How many of the values 0..n-1 of `rand()` lead to replica j. */
  function Hits(missing: Entries, key: string, r: nat, isReal: bool, f: real, pMax: real, u: real, n: nat, j: nat): nat
    requires r > 0 && u < 1.0
    requires key in missing ==> 0 < LeadingZeros(missing[key].bits) <= r && Weight(r, f, pMax) > 0.0
  {
    |set rnd: nat | rnd < n && SampleReplica(missing, key, r, isReal, f, pMax, u, rnd) == j|
  }

  /** Of q*a consecutive values, q have any given remainder. */
  lemma {:induction false} Remainders(q: nat, a: nat, j: nat) returns (s: set<nat>)
    requires j < a
    ensures |s| == q && forall x: nat :: x in s <==> x < q * a && x % a == j
  {
    if q == 0 {
      s := {};
    } else {
      var t := Remainders(q - 1, a, j);
      NextRemainder(q - 1, a, j);
      s := t + {(q - 1) * a + j};
      assert q * a == (q - 1) * a + a;
      forall x: nat
        ensures x in s <==> x < q * a && x % a == j
      {
        if (q - 1) * a <= x < q * a {
          RemainderOf(x, q - 1, a);
        }
      }
    }
  }

  lemma RemainderOf(x: nat, q: nat, a: nat)
    requires q * a <= x < q * a + a && a > 0
    ensures x % a == x - q * a
  {
    var p := x / a;
    assert x == p * a + x % a;
    if p > q {
      AtLeastOneMore(p, q, a);
    } else if p < q {
      AtLeastOneMore(q, p, a);
    }
  }

  lemma {:induction false} AtLeastOneMore(p: nat, q: nat, a: nat)
    requires p > q
    ensures p * a >= q * a + a
  {
    assert p * a == (p - 1) * a + a;
    if p > q + 1 {
      AtLeastOneMore(p - 1, q, a);
    }
  }

  lemma NextRemainder(q: nat, a: nat, j: nat)
    requires j < a
    ensures (q * a + j) % a == j && q * a + j < (q + 1) * a
  {
    RemainderOf(q * a + j, q, a);
  }

  /** Every replica of a key that is not in transition is drawn equally often. */
  lemma EvenHits(missing: Entries, key: string, r: nat, isReal: bool, f: real, pMax: real, u: real, q: nat, j: nat)
    requires key !in missing && j < r && u < 1.0
    ensures Hits(missing, key, r, isReal, f, pMax, u, q * r, j) == q
  {
    var s := Remainders(q, r, j);
    assert s == set rnd: nat | rnd < q * r && SampleReplica(missing, key, r, isReal, f, pMax, u, rnd) == j;
  }

  /** A draw that stays on the initialised replicas. */
  lemma StayingHits(missing: Entries, key: string, r: nat, isReal: bool, f: real, pMax: real, u: real, q: nat, j: nat)
    requires key in missing && u < 1.0 && Weight(r, f, pMax) > 0.0
    requires var a := LeadingZeros(missing[key].bits); 0 < a <= r && (isReal || u < PInitialised(a, r, f, pMax))
    ensures Hits(missing, key, r, isReal, f, pMax, u, q * LeadingZeros(missing[key].bits), j)
            == if j < LeadingZeros(missing[key].bits) then q else 0
  {
    hide PInitialised, Weight;
    var a := LeadingZeros(missing[key].bits);
    var hits := set rnd: nat | rnd < q * a && SampleReplica(missing, key, r, isReal, f, pMax, u, rnd) == j;
    if j < a {
      var s := Remainders(q, a, j);
      assert s == hits;
    } else {
      assert hits == {};
    }
  }

  /** A draw that leaves them. */
  lemma LeavingHits(missing: Entries, key: string, r: nat, f: real, pMax: real, u: real, q: nat, j: nat)
    requires key in missing && u < 1.0 && Weight(r, f, pMax) > 0.0
    requires var a := LeadingZeros(missing[key].bits); 0 < a < r && u >= PInitialised(a, r, f, pMax)
    ensures Hits(missing, key, r, false, f, pMax, u, q * (r - LeadingZeros(missing[key].bits)), j)
            == if LeadingZeros(missing[key].bits) <= j < r then q else 0
  {
    hide PInitialised, Weight;
    var a := LeadingZeros(missing[key].bits);
    var hits := set rnd: nat | rnd < q * (r - a) && SampleReplica(missing, key, r, false, f, pMax, u, rnd) == j;
    if a <= j < r {
      var s := Remainders(q, r - a, j - a);
      assert s == hits;
    } else {
      assert hits == {};
    }
  }

  /** The part of the values 0..n-1 of `rand()` that leads to replica j. */
  function Part(missing: Entries, key: string, r: nat, isReal: bool, f: real, pMax: real, u: real, n: nat, j: nat): real
    requires r > 0 && u < 1.0 && n > 0
    requires key in missing ==> 0 < LeadingZeros(missing[key].bits) <= r && Weight(r, f, pMax) > 0.0
  {
    Hits(missing, key, r, isReal, f, pMax, u, n, j) as real / n as real
  }

  lemma PartOf(q: nat, a: nat)
    requires q > 0 && a > 0
    ensures q * a > 0 && q as real / (q * a) as real == 1.0 / a as real
  {
    ProductPositive(q, a);
    var x, y := q as real, a as real;
    assert (q * a) as real == x * y;
    Cancels(x, y);
  }

  lemma ProductPositive(q: nat, a: nat)
    requires q > 0 && a > 0
    ensures q * a > 0
  {
  }

  lemma Cancels(x: real, y: real)
    requires x > 0.0 && y > 0.0
    ensures x * y > 0.0 && x / (x * y) == 1.0 / y
  {
    var t := 1.0 / y;
    assert t * y == 1.0;
    assert t * (x * y) == x;
  }

  /** What the smoothing theorem takes as a replica's share is what `sample_a_replica` draws: a key that
      is not in transition. */
  lemma EvenShare(k: KeyView, missing: Entries, key: string, isReal: bool, pMax: real, u: real, q: nat, j: nat)
    requires k.initialised == None && key !in missing && j < k.replicas && u < 1.0 && q > 0
    ensures q * k.replicas > 0
    ensures Part(missing, key, k.replicas, isReal, k.passed, pMax, u, q * k.replicas, j) == Share(k, isReal, pMax, j)
  {
    EvenHits(missing, key, k.replicas, isReal, k.passed, pMax, u, q, j);
    PartOf(q, k.replicas);
  }

  /** And a key in transition, for any number of values of `rand()` that a and r - a divide.  A uniform u
      lies below p_initialized with that probability: the average over u is the share. */
  lemma TransitionShare(k: KeyView, missing: Entries, key: string, isReal: bool, pMax: real, u: real, v: real, m: nat,
                        j: nat)
    requires key in missing && k.initialised == Some(LeadingZeros(missing[key].bits)) && j < k.replicas && m > 0
    requires 0 < LeadingZeros(missing[key].bits) < k.replicas && Weight(k.replicas, k.passed, pMax) > 0.0
    requires u < PInitialised(k.initialised.value, k.replicas, k.passed, pMax) <= v < 1.0
    ensures var (a, r) := (k.initialised.value, k.replicas);
            var (n, stay) := (m * a * (r - a), PInitialised(a, r, k.passed, pMax));
            && n > 0
            && stay * Part(missing, key, r, isReal, k.passed, pMax, u, n, j)
               + (1.0 - stay) * Part(missing, key, r, isReal, k.passed, pMax, v, n, j)
               == Share(k, isReal, pMax, j)
  {
    hide PInitialised, Weight, Part;
    var a, r := k.initialised.value, k.replicas;
    StayingPart(missing, key, r, isReal, k.passed, pMax, u, m, j);
    if isReal {
      StayingPart(missing, key, r, true, k.passed, pMax, v, m, j);
    } else {
      LeavingPart(missing, key, r, k.passed, pMax, v, m, j);
    }
    Averaged(PInitialised(a, r, k.passed, pMax), a, r - a);
  }

  lemma Averaged(stay: real, a: nat, b: nat)
    requires a > 0 && b > 0
    ensures stay * (1.0 / a as real) + (1.0 - stay) * (1.0 / a as real) == 1.0 / a as real
    ensures stay * (1.0 / a as real) + (1.0 - stay) * 0.0 == stay / a as real
    ensures stay * 0.0 + (1.0 - stay) * (1.0 / b as real) == (1.0 - stay) / b as real
    ensures stay * 0.0 + (1.0 - stay) * 0.0 == (1.0 - 1.0) / b as real
  {
    TimesInverse(stay, a as real);
    TimesInverse(1.0 - stay, b as real);
    Distribute(stay, 1.0 - stay, 1.0 / a as real);
  }

  lemma TimesInverse(x: real, y: real)
    requires y > 0.0
    ensures x * (1.0 / y) == x / y && 0.0 / y == 0.0
  {
  }

  lemma StayingPart(missing: Entries, key: string, r: nat, isReal: bool, f: real, pMax: real, u: real, m: nat, j: nat)
    requires key in missing && u < 1.0 && Weight(r, f, pMax) > 0.0 && m > 0
    requires var a := LeadingZeros(missing[key].bits); 0 < a < r && (isReal || u < PInitialised(a, r, f, pMax))
    ensures var a := LeadingZeros(missing[key].bits);
            var n := m * a * (r - a);
            n > 0 && Part(missing, key, r, isReal, f, pMax, u, n, j) == if j < a then 1.0 / a as real else 0.0
  {
    hide PInitialised, Weight, Hits;
    var a := LeadingZeros(missing[key].bits);
    CommonMultiple(m, a, r - a);
    StayingHits(missing, key, r, isReal, f, pMax, u, m * (r - a), j);
    PartOf(m * (r - a), a);
  }

  lemma LeavingPart(missing: Entries, key: string, r: nat, f: real, pMax: real, u: real, m: nat, j: nat)
    requires key in missing && u < 1.0 && Weight(r, f, pMax) > 0.0 && m > 0
    requires var a := LeadingZeros(missing[key].bits); 0 < a < r && u >= PInitialised(a, r, f, pMax)
    ensures var a := LeadingZeros(missing[key].bits);
            var n := m * a * (r - a);
            && n > 0
            && Part(missing, key, r, false, f, pMax, u, n, j) == if a <= j < r then 1.0 / (r - a) as real else 0.0
  {
    hide PInitialised, Weight, Hits;
    var a := LeadingZeros(missing[key].bits);
    CommonMultiple(m, a, r - a);
    LeavingHits(missing, key, r, f, pMax, u, m * a, j);
    PartOf(m * a, r - a);
  }

  lemma CommonMultiple(m: nat, a: nat, b: nat)
    requires m > 0 && a > 0 && b > 0
    ensures m * a > 0 && m * b > 0 && m * a * b > 0
    ensures m * a * b == (m * b) * a == (m * a) * b
  {
  }

  // ------------------------------------------------------------------ batches that stay in bounds

  /** A request for a batch whose operations are all registered. */
  ghost predicate IsRequest(p: Plan, ops: seq<Op>, trues: seq<bool>, draws: seq<(real, nat)>) {
    && Registered(p, ops) && |ops| == |trues| == |draws|
    && forall i :: 0 <= i < |draws| ==> 0.0 <= draws[i].0 < 1.0
  }

  /** The accesses of the batch, with the replicas that are drawn. */
  ghost function Drawn(p: Plan, missing: Entries, ops: seq<Op>, trues: seq<bool>, draws: seq<(real, nat)>)
    : (s: seq<Access>)
    requires p.Smooth() && p.Transition(missing) && IsRequest(p, ops, trues, draws)
    ensures |s| == |ops| && forall i :: 0 <= i < |s| ==> p.Now().Has(s[i])
  {
    AllDrawable(p, missing, ops);
    Sampled(p.Counts(), missing, p.frequency, p.pMax, ops, trues, draws)
  }

  /** The batch indexes inside the vectors it finds. */
  ghost predicate DrawsStay(p: Plan, w: World, ops: seq<Op>, trues: seq<bool>, draws: seq<(real, nat)>)
    requires p.Smooth() && p.Transition(w.missing) && IsRequest(p, ops, trues, draws)
  {
    StaysInBounds(p.Now(), w, Drawn(p, w.missing, ops, trues, draws))
  }

  ghost predicate AllDrawsStay(p: Plan, w: World)
    requires p.Smooth() && p.Transition(w.missing)
  {
    forall ops, trues, draws | IsRequest(p, ops, trues, draws) :: DrawsStay(p, w, ops, trues, draws)
  }

  /** Every replica can be drawn, by a real or by another access. */
  lemma EveryReplicaDrawn(p: Plan, missing: Entries, key: string, j: nat) returns (isTrue: bool, draw: (real, nat))
    requires p.Smooth() && p.Transition(missing) && key in p.Counts() && j < p.Counts()[key]
    ensures 0.0 <= draw.0 < 1.0 && Drawable(p.Counts(), missing, p.frequency, p.pMax, key)
    ensures SampledOne(p.Counts(), missing, p.frequency, p.pMax, Op(key, ""), isTrue, draw)
            == Access(Op(key, ""), isTrue, j)
  {
    RegisteredDrawable(p, missing, key);
    isTrue, draw := AnyReplica(missing, key, p.Counts()[key], FrequencyOf(p.frequency, key), p.pMax, j);
  }

  lemma AnyReplica(missing: Entries, key: string, r: nat, f: real, pMax: real, j: nat)
    returns (isTrue: bool, draw: (real, nat))
    requires j < r && pMax > 0.0
    requires key in missing ==> 0 < LeadingZeros(missing[key].bits) <= r && Weight(r, f, pMax) > 0.0
    ensures 0.0 <= draw.0 < 1.0 && SampleReplica(missing, key, r, isTrue, f, pMax, draw.0, draw.1) == j
  {
    hide PInitialised, Weight;
    if key !in missing || j < LeadingZeros(missing[key].bits) {
      isTrue, draw := true, (0.0, j);
      RemainderOf(j, 0, if key in missing then LeadingZeros(missing[key].bits) else r);
    } else {
      var a := LeadingZeros(missing[key].bits);
      MissingMayBeDrawn(a, r, f, pMax);
      var stay := PInitialised(a, r, f, pMax);
      isTrue, draw := false, (if stay > 0.0 then stay else 0.0, j - a);
      RemainderOf(j - a, 0, r - a);
    }
  }

  lemma MissingMayBeDrawn(a: nat, r: nat, f: real, pMax: real)
    requires a < r && Weight(r, f, pMax) > 0.0 && pMax > 0.0
    ensures PInitialised(a, r, f, pMax) < 1.0
  {
    Scale(a as real, r as real, pMax);
    LessThanOne(Weight(a, f, pMax), Weight(r, f, pMax));
  }

  lemma LessThanOne(x: real, y: real)
    requires x < y && y > 0.0
    ensures x / y < 1.0
  {
    assert x / y * y == x;
  }

  /** When a batch can index past a cached vector: exactly if some cached key has more replicas than
      its cached vector has bits. */
  lemma DrawsStayExactly(p: Plan, w: World, shards: seq<Shard>, hash: Hash)
    requires Sound(p, w.missing, shards, hash, w.store)
    ensures AllDrawsStay(p, w) <==> Wide(p.Now(), w.cache)
  {
    BatchPlayable(p, w, shards, hash, []);
    BoundsExactly(p.Now(), w);
    if AllDrawsStay(p, w) {
      forall k | k in w.cache && k in p.Counts()
        ensures |w.cache[k].bits| >= p.Counts()[k]
      {
        if |w.cache[k].bits| < p.Counts()[k] {
          LaterReplicaDrawn(p, w, k);
        }
      }
    }
  }

  lemma LaterReplicaDrawn(p: Plan, w: World, k: string)
    requires p.Smooth() && p.Transition(w.missing) && Playable(p.Now(), w, [])
    requires k in w.cache && k in p.Counts() && |w.cache[k].bits| < p.Counts()[k]
    ensures !AllDrawsStay(p, w)
  {
    var isTrue, draw := EveryReplicaDrawn(p, w.missing, k, |w.cache[k].bits|);
    var ops, trues, draws := [Op(k, "")], [isTrue], [draw];
    assert IsRequest(p, ops, trues, draws);
    assert Drawn(p, w.missing, ops, trues, draws) == [Access(Op(k, ""), isTrue, |w.cache[k].bits|)];
    PastTheEnd(p.Now(), w, k, isTrue, |w.cache[k].bits|);
    assert !DrawsStay(p, w, ops, trues, draws);
  }

  /** After a redistribution: if the cached vectors had the sizes of the old counts, batches stay inside
      them exactly if no cached key has grown. */
  lemma BatchesAfterwards(p: Plan, q: Plan, w: World, shards: seq<Shard>, hash: Hash)
    requires Sized(p.Now(), w.cache) && Sound(q, w.missing, shards, hash, w.store)
    ensures AllDrawsStay(q, w)
            <==> forall k :: k in w.cache && k in q.Counts() ==> q.Counts()[k] <= p.Counts()[k]
  {
    DrawsStayExactly(q, w, shards, hash);
  }

  // ------------------------------------------------------------------ for the method

  /** What the first loop of `execute_batch` needs. */
  lemma MayDraw(p: Plan, w: World, shards: seq<Shard>, hash: Hash, ops: seq<Op>, trues: seq<bool>,
                draws: seq<(real, nat)>)
    requires Sound(p, w.missing, shards, hash, w.store) && IsRequest(p, ops, trues, draws)
    ensures p.Smooth() && p.Transition(w.missing) && p.Now().Valid() && Playable(p.Now(), w, [])
    ensures Registered(p, ops) && |ops| == |trues| == |draws| && Represents(shards, hash, w.store)
    ensures forall i :: 0 <= i < |ops| ==>
              Drawable(p.Counts(), w.missing, p.frequency, p.pMax, ops[i].key) && draws[i].0 < 1.0
    ensures Drawn(p, w.missing, ops, trues, draws)
            == Sampled(p.Counts(), w.missing, p.frequency, p.pMax, ops, trues, draws)
  {
    BatchPlayable(p, w, shards, hash, ops);
  }

  lemma DrawnInBounds(p: Plan, w: World, ops: seq<Op>, trues: seq<bool>, draws: seq<(real, nat)>,
                      accesses: seq<Access>)
    requires p.Smooth() && p.Transition(w.missing) && IsRequest(p, ops, trues, draws) && Playable(p.Now(), w, [])
    requires DrawsStay(p, w, ops, trues, draws) && accesses == Drawn(p, w.missing, ops, trues, draws)
    ensures Playable(p.Now(), w, accesses) && BatchInBounds(p.Now(), w, accesses)
  {
    PlayableWith(p.Now(), w, accesses);
  }

  /** Vectors that are long enough stay so. */
  lemma StaysWide(p: Plan, w: World, accesses: seq<Access>)
    requires Playable(p.Now(), w, accesses) && p.Transition(w.missing)
    ensures Wide(p.Now(), w.cache) ==> Wide(p.Now(), AfterBatch(p.Now(), w, accesses).cache)
  {
    if Wide(p.Now(), w.cache) {
      BatchKeepsWide(p.Now(), w, accesses);
    }
  }

  /** What a batch leaves. */
  lemma BatchLeaves(p: Plan, q: Plan, w: World, w': World, accesses: seq<Access>, ops: seq<Op>, shards: seq<Shard>,
                    shards': seq<Shard>, hash: Hash)
    requires Sound(p, w.missing, shards, hash, w.store) && Registered(p, ops) && p.Transition(w.missing)
    requires q == p.(frequency := Looked(p.frequency, ops)) && Playable(p.Now(), w, accesses)
    requires w' == AfterBatch(p.Now(), w, accesses) && Represents(shards', hash, w'.store)
    ensures Sound(q, w'.missing, shards', hash, w'.store)
    ensures Wide(p.Now(), w.cache) ==> Wide(q.Now(), w'.cache)
  {
    hide Sound, Represents, Wide, AfterBatch, Playable;
    BatchKeepsSound(p, q, w, accesses, ops, shards, shards', hash);
    StaysWide(p, w, accesses);
  }
}
