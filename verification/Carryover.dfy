/** When the replicas of real keys stay coherent across a redistribution. */
module Carryover {
  import opened Sums
  import opened Naming
  import opened Directory
  import opened UpdateCache
  import opened Refinement
  import opened Hazards
  import opened Plans
  import opened Redistribution

  /** Every replica of the key holds, or waits for, its current value. */
  ghost predicate KeyCoherent(e: Epoch, w: World, l: Logical, k: string)
    requires e.Valid() && k in e.counts
  {
    && (forall j: nat :: j < e.counts[k] ==> ReplicaCoherent(e, w.cache, w.missing, w.store, l, k, j))
    && EntryCurrent(w.cache, l, k)
  }

  lemma KeyByKey(e: Epoch, w: World, l: Logical, ks: set<string>)
    requires e.Valid()
    ensures Coherent(e, w.cache, w.missing, w.store, l, ks)
            <==> forall k :: k in ks && k in e.counts ==> KeyCoherent(e, w, l, k)
  {
    if Coherent(e, w.cache, w.missing, w.store, l, ks) {
      forall k | k in ks && k in e.counts
        ensures KeyCoherent(e, w, l, k)
      {
        assert EntryCurrent(w.cache, l, k);
      }
    } else {
      assert exists k :: k in ks && k in e.counts && !KeyCoherent(e, w, l, k);
    }
  }

  /** Counts can be computed for the distribution. */
  ghost predicate HasCounts(q: Plan) {
    q.alpha > 0.0 && |q.keys| == |q.probs| && forall i :: 0 <= i < |q.probs| ==> q.probs[i] > 0.0
  }

  /** The world after the redistribution: only the record of missing replicas has changed. */
  ghost function Carried(p: Plan, q: Plan, w: World): World
    requires HasCounts(q)
  {
    w.(missing := Grown(w.missing, q.keys, NatCounts(q.probs, q.alpha), p.Counts()))
  }

  /** No key in transition shrinks, and no two of the new replicas share a name.  Cached vectors may have
      any size. */
  ghost predicate Carries(p: Plan, q: Plan, w: World) {
    && p.Smooth() && p.Transition(w.missing) && Follows(p, q) && Apart(q.Counts()) && Playable(p.Now(), w, [])
    && NoneShrinks(p.Counts(), w.missing, q.keys, NatCounts(q.probs, q.alpha))
  }

  /** Every new replica of one of the keys is waited for: the key is in transition already, or its cached
      vector is longer than its count and has the replica pending. */
  ghost predicate GrowersKnown(p: Plan, q: Plan, w: World, ks: set<string>) {
    forall k, j: nat :: k in ks && At(p.Counts(), k) <= j < At(q.Counts(), k) ==> WaitedFor(w, k, j)
  }

  predicate WaitedFor(w: World, k: string, j: nat) {
    k in w.missing || j in Pending(w.cache, k)
  }

  lemma CarriesNeeds(p: Plan, q: Plan, w: World)
    requires Carries(p, q, w)
    ensures HasCounts(q)
    ensures p.Now().Valid() && q.Smooth() && q.Now().Valid()
    ensures SurvivorsStay(p.labels, p.Counts(), q.labels, q.Counts())
  {
    hide Bijection, Apart, SurvivorsStay, Redistributed, Playable, Follows, Plan.Smooth, Plan.Transition;
    RedistributedPlan(p, q);
    CountsApart(p);
    CountsApart(q);
    FollowsCounts(p, q);
  }

  lemma FollowsCounts(p: Plan, q: Plan)
    requires p.Smooth() && Follows(p, q)
    ensures HasCounts(q)
  {
  }

  lemma CountAt(p: Plan, q: Plan, i: nat)
    requires p.Smooth() && Follows(p, q) && i < |q.keys| == |NatCounts(q.probs, q.alpha)|
    ensures q.keys[i] in q.Counts() && q.Counts()[q.keys[i]] == NatCounts(q.probs, q.alpha)[i]
    ensures q.keys[i] in p.Counts() && q.keys[i] != q.dummyKey
  {
    assert q.keys[i] in q.keys;
    assert q.keys[i] in p.keys;
  }

  // ------------------------------------------------------------------ the missing replicas

  lemma {:induction false} GrownIs(missing: Entries, keys: seq<string>, news: seq<nat>, was: Counts, p: nat)
    requires p < |keys| == |news| && Distinct(keys) && news[p] > At(was, keys[p])
    ensures keys[p] in Grown(missing, keys, news, was)
    ensures Grown(missing, keys, news, was)[keys[p]] == EditBitVectorSize(missing, keys[p], news[p])[keys[p]]
  {
    var m := |keys| - 1;
    if p < m {
      GrownIs(missing, keys[..m], news[..m], was, p);
    } else {
      assert keys[m] !in keys[..m];
      GrownOther(missing, keys[..m], news[..m], was, keys[m]);
    }
  }

  /** The missing replicas of a key after the redistribution. */
  lemma PendingCarried(missing: Entries, keys: seq<string>, news: seq<nat>, was: Counts, i: nat, j: nat)
    requires i < |keys| == |news| && Distinct(keys) && SizesMatch(missing, was) && NoneShrinks(was, missing, keys, news)
    requires j < news[i]
    ensures var pending := Pending(Grown(missing, keys, news, was), keys[i]);
            j in pending <==> j in Pending(missing, keys[i]) || (j >= At(was, keys[i]) && keys[i] in missing)
  {
    if news[i] > At(was, keys[i]) {
      GrownIs(missing, keys, news, was, i);
    } else {
      GrownAtKey(missing, keys, news, was, i);
    }
  }

  // ------------------------------------------------------------------ one key

  lemma SurvivorAddr(p: Plan, q: Plan, w: World, k: string, j: nat)
    requires Carries(p, q, w) && k in p.Counts() && k in q.Counts() && j < p.Counts()[k] && j < q.Counts()[k]
    ensures Name(k, j) in p.labels && Name(k, j) in q.labels && q.labels[Name(k, j)] == p.labels[Name(k, j)]
  {
    CarriesNeeds(p, q, w);
    assert Stays(p.labels, q.labels, k, j);
  }

  /** A key that is coherent stays so if its new replicas are waited for. */
  lemma KeyCarried(p: Plan, q: Plan, w: World, l: Logical, i: nat)
    requires Carries(p, q, w) && i < |q.keys| && p.Now().Valid() && q.Now().Valid()
    requires q.keys[i] in p.Counts() && q.keys[i] in q.Counts() && KeyCoherent(p.Now(), w, l, q.keys[i])
    requires forall j: nat :: p.Counts()[q.keys[i]] <= j < q.Counts()[q.keys[i]] ==> WaitedFor(w, q.keys[i], j)
    ensures HasCounts(q)
    ensures KeyCoherent(q.Now(), Carried(p, q, w), l, q.keys[i])
  {
    CarriesNeeds(p, q, w);
    var k := q.keys[i];
    forall j: nat | j < q.Counts()[k]
      ensures ReplicaCoherent(q.Now(), w.cache, Carried(p, q, w).missing, w.store, l, k, j)
    {
      ReplicaCarried(p, q, w, l, i, j);
    }
  }

  lemma ReplicaCarried(p: Plan, q: Plan, w: World, l: Logical, i: nat, j: nat)
    requires Carries(p, q, w) && i < |q.keys| && p.Now().Valid() && q.Now().Valid()
    requires q.keys[i] in p.Counts() && q.keys[i] in q.Counts() && KeyCoherent(p.Now(), w, l, q.keys[i])
    requires p.Counts()[q.keys[i]] <= j ==> WaitedFor(w, q.keys[i], j)
    requires HasCounts(q)
    requires j < q.Counts()[q.keys[i]]
    ensures ReplicaCoherent(q.Now(), w.cache, Carried(p, q, w).missing, w.store, l, q.keys[i], j)
  {
    hide Plan.Smooth, Bijection, Redistributed, Apart;
    var k := q.keys[i];
    CountAt(p, q, i);
    PendingCarried(w.missing, q.keys, NatCounts(q.probs, q.alpha), p.Counts(), i, j);
    AddrDefined(q.Now(), k, j);
    if j < p.Counts()[k] {
      assert ReplicaCoherent(p.Now(), w.cache, w.missing, w.store, l, k, j);
      SurvivorAddr(p, q, w, k, j);
    } else {
      OneReplicaAtLeast(p, q.keys, i);
      assert ReplicaCoherent(p.Now(), w.cache, w.missing, w.store, l, k, 0);
    }
  }

  // ------------------------------------------------------------------ a key that grows unnoticed

  ghost predicate OfKey(e: Epoch, k: string, x: string)
    requires e.Valid() && k in e.counts
  {
    exists j: nat :: j < e.counts[k] && IsAddrOf(e, k, j, x)
  }

  ghost predicate IsAddrOf(e: Epoch, k: string, j: nat, x: string)
    requires e.Valid() && k in e.counts && j < e.counts[k]
  {
    AddrDefined(e, k, j);
    Addr(e, k, j) == x
  }

  lemma OfOneKey(e: Epoch, k: string, c: string, j: nat)
    requires e.Valid() && k in e.counts && c in e.counts && j < e.counts[c] && Name(c, j) in e.labels
    ensures OfKey(e, k, Addr(e, c, j)) <==> c == k
  {
    if c == k {
      assert IsAddrOf(e, k, j, Addr(e, c, j));
    } else if OfKey(e, k, Addr(e, c, j)) {
      var i: nat :| i < e.counts[k] && IsAddrOf(e, k, i, Addr(e, c, j));
      AddrDefined(e, k, i);
      AddrInjective(e, k, i, c, j);
    }
  }

  function TextOf(c: string, k: string): string {
    if c == k then "a" else "b"
  }

  /** The same vectors; the key has the value "a" everywhere, all others "b". */
  ghost function TwoTexts(e: Epoch, w: World, k: string): World
    requires e.Valid() && k in e.counts
  {
    World(map c | c in w.cache :: Entry(TextOf(c, k), w.cache[c].bits), w.missing,
          map x | x in w.store :: if OfKey(e, k, x) then "a" else "b")
  }

  function TwoValues(e: Epoch, k: string): Logical {
    map c | c in e.counts :: TextOf(c, k)
  }

  lemma TwoTextsPossible(e: Epoch, w: World, k: string, ks: set<string>)
    requires Playable(e, w, []) && k in e.counts
    ensures Possible(e, w, [], TwoTexts(e, w, k), TwoValues(e, k), ks)
  {
    hide Bijection, Apart;
    var w', l := TwoTexts(e, w, k), TwoValues(e, k);
    forall c, j: nat | c in e.counts && j < e.counts[c]
      ensures AddrStored(e, w'.store, c, j)
      ensures ReplicaCoherent(e, w'.cache, w'.missing, w'.store, l, c, j)
    {
      assert AddrStored(e, w.store, c, j);
      AddrDefined(e, c, j);
      OfOneKey(e, k, c, j);
    }
  }

  /** The label that a grown key gets held the text of another key. */
  lemma ForeignLabel(p: Plan, q: Plan, w: World, k: string, j: nat)
    requires Carries(p, q, w) && p.Now().Valid() && q.Now().Valid()
    requires k in p.Counts() && k in q.Counts() && p.Counts()[k] <= j < q.Counts()[k]
    ensures Name(k, j) in q.labels
    ensures var x := Addr(q.Now(), k, j); x in w.store && !OfKey(p.Now(), k, x)
  {
    CarriesNeeds(p, q, w);
    AddrDefined(q.Now(), k, j);
    var c, i := OwnerOf(p, q.labels[Name(k, j)]);
    assert AddrStored(p.Now(), w.store, c, i);
    if c == k {
      SurvivorAddr(p, q, w, k, i);
      AddrInjective(q.Now(), k, i, k, j);
      assert false;
    }
    OfOneKey(p.Now(), k, c, i);
  }

  lemma OwnerOf(p: Plan, id: nat) returns (c: string, i: nat)
    requires p.Smooth() && id < 2 * p.size
    ensures c in p.Counts() && i < p.Counts()[c] && Name(c, i) in p.labels && p.labels[Name(c, i)] == id
  {
    assert id in p.labels.Values;
    var s :| s in p.labels && p.labels[s] == id;
    assert s in Names(p.Counts());
    c, i :| c in p.Counts().Keys && 0 <= i < p.Counts()[c] && s == Name(c, i);
  }

  lemma KeyLost(p: Plan, q: Plan, w: World, i: nat, j: nat)
    requires Carries(p, q, w) && i < |q.keys| && p.Now().Valid() && q.Now().Valid()
    requires q.keys[i] in p.Counts() && q.keys[i] in q.Counts()
    requires p.Counts()[q.keys[i]] <= j < q.Counts()[q.keys[i]] && !WaitedFor(w, q.keys[i], j)
    requires HasCounts(q)
    ensures !KeyCoherent(q.Now(), Carried(p, q, TwoTexts(p.Now(), w, q.keys[i])), TwoValues(p.Now(), q.keys[i]),
                         q.keys[i])
  {
    hide Bijection, Apart, Grown, NatCounts;
    var k, e := q.keys[i], p.Now();
    var w2 := TwoTexts(e, w, k);
    CountAt(p, q, i);
    ForeignLabel(p, q, w, k, j);
    PendingCarried(w.missing, q.keys, NatCounts(q.probs, q.alpha), p.Counts(), i, j);
    assert !ReplicaCoherent(q.Now(), w2.cache, Carried(p, q, w2).missing, w2.store, TwoValues(e, k), k, j);
  }

  // ------------------------------------------------------------------ the exact condition

  lemma ShapeCarries(p: Plan, q: Plan, w: World, w2: World, l: Logical, ks: set<string>)
    requires Carries(p, q, w) && Possible(p.Now(), w, [], w2, l, ks)
    ensures Carries(p, q, w2) && forall k, j: nat :: WaitedFor(w2, k, j) <==> WaitedFor(w, k, j)
  {
    hide Follows, Plan.Smooth, Coherent, Playable;
  }

  /** For fixed vectors and any set of real keys: their replicas are coherent after the redistribution for
      every choice of stored texts, cached values and map with which they were coherent before, if and only
      if every new replica of those keys is waited for.  A key that grows for the first time is given labels
      that hold other keys' texts, and nothing marks them. */
  lemma CarriedOverExactly(p: Plan, q: Plan, w: World, ks: set<string>)
    requires Carries(p, q, w) && ks <= Elems(q.keys)
    ensures q.Now().Valid() && HasCounts(q)
    ensures GrowersKnown(p, q, w, ks)
            <==> forall w2, l :: Possible(p.Now(), w, [], w2, l, ks) ==> CarriedCoherent(p, q, w2, l, ks)
  {
    hide Follows, Plan.Smooth, Bijection, Plan.Transition, Carried, NoneShrinks, Coherent, Playable, SameShape;
    CarriesNeeds(p, q, w);
    if GrowersKnown(p, q, w, ks) {
      forall w2, l | Possible(p.Now(), w, [], w2, l, ks)
        ensures CarriedCoherent(p, q, w2, l, ks)
      {
        ShapeCarries(p, q, w, w2, l, ks);
        AllCarried(p, q, w2, l, ks);
      }
    } else {
      var k, j: nat :| k in ks && At(p.Counts(), k) <= j < At(q.Counts(), k) && !WaitedFor(w, k, j);
      var i :| 0 <= i < |q.keys| && q.keys[i] == k;
      CountAt(p, q, i);
      KeyLost(p, q, w, i, j);
      TwoTextsPossible(p.Now(), w, k, ks);
      KeyByKey(q.Now(), Carried(p, q, TwoTexts(p.Now(), w, k)), TwoValues(p.Now(), k), ks);
    }
  }

  /** The keys are coherent with l in the world after the redistribution. */
  ghost predicate CarriedCoherent(p: Plan, q: Plan, w: World, l: Logical, ks: set<string>)
    requires q.Now().Valid() && HasCounts(q)
  {
    var w' := Carried(p, q, w);
    Coherent(q.Now(), w'.cache, w'.missing, w'.store, l, ks)
  }

  lemma AllCarried(p: Plan, q: Plan, w: World, l: Logical, ks: set<string>)
    requires Carries(p, q, w) && ks <= Elems(q.keys) && GrowersKnown(p, q, w, ks)
    requires p.Now().Valid() && Coherent(p.Now(), w.cache, w.missing, w.store, l, ks)
    ensures q.Now().Valid() && HasCounts(q) && CarriedCoherent(p, q, w, l, ks)
  {
    hide Plan.Smooth, Plan.Transition, Follows, Coherent;
    CarriesNeeds(p, q, w);
    KeyByKey(p.Now(), w, l, ks);
    KeyByKey(q.Now(), Carried(p, q, w), l, ks);
    forall k | k in ks && k in q.Counts()
      ensures KeyCoherent(q.Now(), Carried(p, q, w), l, k)
    {
      var i :| 0 <= i < |q.keys| && q.keys[i] == k;
      CountAt(p, q, i);
      KeyCarried(p, q, w, l, i);
    }
  }
}
