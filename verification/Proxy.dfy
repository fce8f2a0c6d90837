/** The proxy object: creation of the replicas, change of the distribution, execution of batches. */
module Proxy {
  import opened Naming
  import opened Sums
  import opened Smoothing
  import opened SlotMass
  import opened Directory
  import opened UpdateCache
  import opened Storage
  import opened Refinement
  import opened Hazards
  import opened Plans
  import opened Redistribution
  import opened PlanSmoothing
  import opened Draws

  /** The fake distribution of `create_replicas`, weight by weight. */
  method FakeDistribution(probs: seq<real>, alpha: real, delta: real) returns (w: seq<real>)
    requires IsDistribution(probs) && Enough(alpha, |probs|) && Divides(delta)
    ensures StartWeights(w, probs, alpha, delta)
  {
    BudgetOf(probs, |probs|, alpha);
    w := [];
    for i := 0 to |probs|
      invariant |w| == i
      invariant forall j :: 0 <= j < i ==> w[j] == KeyFake(probs[j], alpha, 1.0 / delta - 1.0)
    {
      w := w + [KeyFake(probs[i], alpha, 1.0 / delta - 1.0)];
    }
    w := w + [DummyFake(DummyCount(probs, alpha), alpha, 1.0 / delta - 1.0)];
  }

  /** `ceil(pi / alpha)`, which is positive for a positive probability. */
  method NewCount(pi: real, alpha: real) returns (r: nat)
    requires pi > 0.0 && alpha > 0.0
    ensures r == ReplicaCount(pi, alpha) > 0
  {
    CountCovers(pi, alpha);
    r := ReplicaCount(pi, alpha);
  }

  /** The loop of `recompute_fake_distribution` over the new keys. */
  method NewFakeDistribution(keys: seq<string>, probs: seq<real>, counts: Counts, dummies: nat, pMax: real)
    returns (w: seq<real>)
    requires |keys| == |probs|
    ensures Reweighted(w, keys, probs, counts, dummies, pMax)
  {
    w := [];
    for i := 0 to |keys|
      invariant |w| == i
      invariant forall j :: 0 <= j < i ==> w[j] == Weight(At(counts, keys[j]), probs[j], pMax)
    {
      w := w + [Weight(At(counts, keys[i]), probs[i], pMax)];
    }
    w := w + [Weight(dummies, 0.0, pMax)];
  }

  method FlipCoin(n: nat, pMax: real, u: real) returns (real_: bool)
    requires n > 0 && pMax > 0.0
    ensures real_ <==> u < Coin(n, pMax)
  {
    CoinOfSize(n, pMax);
    real_ := u < 1.0 / (2.0 * pMax * n as real);
  }

  /** `pancake_proxy`.  `labels` is `replica_to_label_`; `replicas` is `key_to_number_of_replicas_`
      for the real keys, the dummy's count being `dummies`; `stored` is what the store represents. */
  class PancakeProxy {
    const alpha: real
    const delta: real
    const dummyKey: string
    const size: nat
    var keys: seq<string>
    var probs: seq<real>
    var frequency: map<string, real>
    var replicas: Counts
    var dummies: nat
    var labels: map<string, nat>
    var labelCount: nat
    var pMax: real
    var fakeWeights: seq<real>
    var newFrequency: map<string, real>
    var cache: Cache
    var missing: Cache
    var store: RocksDb
    ghost var stored: map<string, string>

    ghost function ThePlan(): Plan
      reads this
    {
      Plan(keys, probs, frequency, replicas, dummies, labels, pMax, alpha, dummyKey, size)
    }

    ghost function Now(): Epoch
      reads this
    {
      ThePlan().Now()
    }

    ghost function State(): World
      reads this, cache, missing
    {
      World(cache.entries, missing.entries, stored)
    }

    ghost predicate Valid()
      reads this, cache, missing, store
    {
      && cache != missing && newFrequency.Keys <= Elems(keys)
      && Sound(ThePlan(), missing.entries, store.shards, store.hash, stored)
    }

    /** `insert_replicas`: labels are handed out in order, and storage is written in chunks of 50
        labels, the last one of whatever is left. */
    method InsertReplicas(key: string, num: nat, value: string) returns (ghost chunks: seq<nat>)
      requires Represents(store.shards, store.hash, stored)
      modifies this`labels, this`labelCount, this`stored, store
      ensures Represents(store.shards, store.hash, stored)
      ensures Labelled(old(labels), labels, key, num, old(labelCount))
      ensures labelCount == old(labelCount) + num
      ensures stored == Overwritten(old(stored), LabelTexts(old(labelCount), num), Repeat(value, num))
      ensures Chunks(chunks, num)
    {
      hide Represents, Labelled, Waiting, Written, AllFull, Chunks, Total;
      var buffer: seq<string> := [];
      ghost var was, first := stored, labelCount;
      ghost var done: nat := 0;
      NothingInserted(labels, key, was, first, value);
      chunks := [];
      var i := 0;
      while i < num
        invariant i <= num && labelCount == first + i && done + |buffer| == i && |buffer| < 50
        invariant Represents(store.shards, store.hash, stored) && Written(was, stored, first, done, value)
        invariant Labelled(old(labels), labels, key, i, first) && Waiting(buffer, first + done)
        invariant AllFull(chunks) && Total(chunks) == done
      {
        buffer := AddLabel(key, i, buffer, old(labels), first, done);
        if |buffer| >= 50 {
          WriteChunk(buffer, value, was, first, done);
          FullChunk(chunks);
          chunks, done := chunks + [50], done + 50;
          buffer := [];
          NothingWaits(first + done);
        }
        i := i + 1;
      }
      if buffer != [] {
        WriteChunk(buffer, value, was, first, done);
      }
      LastChunk(chunks, done, |buffer|);
      chunks := chunks + if buffer != [] then [|buffer|] else [];
      AllWritten(was, stored, first, num, value);
    }

    /** One turn of its loop, up to the write. */
    method AddLabel(key: string, i: nat, buffer: seq<string>, ghost was: map<string, nat>, ghost first: nat,
                    ghost done: nat) returns (buffer': seq<string>)
      requires Labelled(was, labels, key, i, first) && labelCount == first + i && done + |buffer| == i
      requires Waiting(buffer, first + done)
      modifies this`labels, this`labelCount
      ensures Labelled(was, labels, key, i + 1, first) && labelCount == first + i + 1
      ensures |buffer'| == |buffer| + 1 && Waiting(buffer', first + done)
    {
      hide Labelled, Waiting;
      LabelOne(was, labels, key, i, first, labelCount);
      OneWaits(buffer, first + done);
      labels := labels[Name(key, i) := labelCount];
      buffer' := buffer + [Decimal(labelCount)];
      labelCount := labelCount + 1;
    }

    method WriteChunk(buffer: seq<string>, value: string, ghost was: map<string, string>, ghost first: nat,
                      ghost done: nat)
      requires Represents(store.shards, store.hash, stored)
      requires Waiting(buffer, first + done) && Written(was, stored, first, done, value)
      modifies this`stored, store
      ensures Represents(store.shards, store.hash, stored) && Written(was, stored, first, done + |buffer|, value)
    {
      hide Represents;
      WrittenAfter(was, first, done, |buffer|, value);
      WriteAll(buffer, Repeat(value, |buffer|));
    }

    /** `put_batch`, with every request accepted. */
    method WriteAll(addrs: seq<string>, values: seq<string>)
      requires Represents(store.shards, store.hash, stored) && |addrs| <= |values|
      modifies this`stored, store
      ensures Represents(store.shards, store.hash, stored)
      ensures stored == Overwritten(old(stored), addrs, values)
      ensures store.calls == old(store.calls) + WriteCalls(addrs)
    {
      PutAllRefines(store.shards, store.hash, stored, addrs, values);
      stored := Overwritten(stored, addrs, values);
      var r, done := store.PutBatch(addrs, values, seq(|addrs|, _ => true));
      assert addrs[..|addrs|] == addrs;
    }

    /** The state after `create_replicas` has handled the first m keys. */
    ghost predicate Creating(fill: map<string, string>, m: nat)
      reads this, store
    {
      && Elems(keys + [dummyKey]) <= fill.Keys
      && m <= |keys| == |probs| && alpha > 0.0 && (forall i :: 0 <= i < |probs| ==> probs[i] > 0.0)
      && Represents(store.shards, store.hash, stored)
      && BuiltIfApart(labels, replicas, stored, labelCount, fill)
      && Covers(replicas, frequency, keys, NatCounts(probs, alpha), probs, m)
      && labelCount == PrefixTotal(NatCounts(probs, alpha), m)
    }

    /** `create_replicas` for the real keys: counts, frequencies, directory and storage grow key by
        key in the order of the distribution. */
    method CreateRealReplicas(fill: map<string, string>) returns (created: nat)
      requires Creating(fill, 0) && Fitting(keys, probs, alpha, dummyKey, size)
      modifies this`labels, this`labelCount, this`replicas, this`frequency, this`stored, store
      ensures Creating(fill, |keys|) && created == labelCount
    {
      hide BuiltIfApart, Covers, Represents;
      created := 0;
      var index := 0;
      while index < |keys|
        invariant Creating(fill, index) && created == labelCount
      {
        var r := CreateKey(index, fill);
        created := created + r;
        index := index + 1;
      }
    }

    /** One turn of the loop. */
    method CreateKey(m: nat, fill: map<string, string>) returns (r: nat)
      requires Creating(fill, m) && m < |keys| && Fitting(keys, probs, alpha, dummyKey, size)
      modifies this`labels, this`labelCount, this`replicas, this`frequency, this`stored, store
      ensures Creating(fill, m + 1)
      ensures r == ReplicaCount(probs[m], alpha) && labelCount == old(labelCount) + r
    {
      hide BuiltIfApart, Represents, Distinct, FirstKeys;
      NextKey(replicas, frequency, keys, NatCounts(probs, alpha), probs, m);
      assert keys[m] == (keys + [dummyKey])[m];
      CoverOne(replicas, frequency, keys, NatCounts(probs, alpha), probs, m);
      CountCovers(probs[m], alpha);
      r := ReplicaCount(probs[m], alpha);
      AddKey(keys[m], probs[m], r, fill);
    }

    method AddKey(key: string, pi: real, r: nat, fill: map<string, string>)
      requires BuiltIfApart(labels, replicas, stored, labelCount, fill) && key !in replicas
      requires key in fill && Represents(store.shards, store.hash, stored)
      modifies this`labels, this`labelCount, this`replicas, this`frequency, this`stored, store
      ensures Represents(store.shards, store.hash, stored)
      ensures BuiltIfApart(labels, replicas, stored, labelCount, fill) && labelCount == old(labelCount) + r
      ensures replicas == old(replicas)[key := r] && frequency == old(frequency)[key := pi]
    {
      frequency := frequency[key := pi];
      AddReplicas(key, r, fill, replicas);
      replicas := replicas[key := r];
    }

    /** Replicas for one more key, on top of what is built for `counts`. */
    method AddReplicas(key: string, r: nat, fill: map<string, string>, ghost counts: Counts)
      requires BuiltIfApart(labels, counts, stored, labelCount, fill) && key !in counts
      requires key in fill && Represents(store.shards, store.hash, stored)
      modifies this`labels, this`labelCount, this`stored, store
      ensures Represents(store.shards, store.hash, stored)
      ensures BuiltIfApart(labels, counts[key := r], stored, labelCount, fill) && labelCount == old(labelCount) + r
    {
      ghost var chunks := InsertReplicas(key, r, fill[key]);
      WrittenIsFilled(old(stored), old(labelCount), r, fill[key]);
      BuildKeyIfApart(old(labels), counts, old(stored), old(labelCount), fill, key, r, labels, stored, labelCount);
    }

    /** The counts of the distribution are known, the dummy's too. */
    ghost predicate CountsKnown()
      reads this
    {
      && Fitting(keys, probs, alpha, dummyKey, size)
      && Covers(replicas, frequency, keys, NatCounts(probs, alpha), probs, |keys|)
      && dummies == DummyCount(probs, alpha)
    }

    /** Every key and the dummy have their replicas. */
    ghost predicate Created(fill: map<string, string>)
      reads this, store
    {
      && CountsKnown() && Represents(store.shards, store.hash, stored)
      && BuiltIfApart(labels, replicas[dummyKey := dummies], stored, 2 * size, fill)
    }

    /** The dummies are to fill the directory up to 2n labels. */
    method CountDummies(fill: map<string, string>)
      requires Fitting(keys, probs, alpha, dummyKey, size) && Creating(fill, |keys|)
      modifies this`dummies
      ensures CountsKnown() && labelCount + dummies == 2 * size
      ensures dummyKey !in replicas && dummyKey in fill && dummyKey !in frequency
    {
      LabelsLeft(probs, size, alpha, labelCount);
      CoversAll(replicas, frequency, keys, NatCounts(probs, alpha), probs);
      LastKey(keys, dummyKey);
      dummies := 2 * size - labelCount;
    }

    /** The replica part of `create_replicas`. */
    method FillDirectory(fill: map<string, string>)
      requires Fitting(keys, probs, alpha, dummyKey, size) && Elems(keys + [dummyKey]) <= fill.Keys
      requires labels == map[] && labelCount == 0 && replicas == map[] && frequency == map[]
      requires Represents(store.shards, store.hash, stored)
      modifies this`labels, this`labelCount, this`replicas, this`frequency, this`stored, this`dummies, store
      ensures Created(fill) && labelCount == 2 * size && dummyKey !in frequency
    {
      hide BuiltIfApart, Represents, Fitting, Covers, PrefixTotal, NatCounts;
      FittingNeeds(keys, probs, alpha, dummyKey, size);
      NothingCovered(keys, NatCounts(probs, alpha), probs);
      NothingBuilt(stored, fill);
      var created := CreateRealReplicas(fill);
      CountDummies(fill);
      CreateDummies(fill);
    }

    method CreateDummies(fill: map<string, string>)
      requires BuiltIfApart(labels, replicas, stored, labelCount, fill) && Represents(store.shards, store.hash, stored)
      requires CountsKnown() && labelCount + dummies == 2 * size
      requires dummyKey !in replicas && dummyKey in fill
      modifies this`labels, this`labelCount, this`stored, store
      ensures Created(fill) && labelCount == 2 * size
    {
      AddReplicas(dummyKey, dummies, fill, replicas);
    }

    /** What creation leaves, whatever the names: weights and cached vectors fit.  The proxy is usable, and
        every key has one value, exactly if no two of the planned replicas share a name. */
    ghost predicate Started(fill: map<string, string>)
      reads this, cache, missing, store
    {
      && Sized(Now(), cache.entries) && AllQuiet(ThePlan().Counts(), cache.entries)
      && ThePlan().Weighted() && missing.entries == map[] && pMax == alpha
      && (Valid() <==> Usable(keys, probs, alpha, dummyKey, size))
      && (Valid() ==> Coherent(Now(), cache.entries, map[], stored, fill, ThePlan().Counts().Keys))
    }

    /** The update cache starts with one vector of zeros per key. */
    method StartCache(fill: map<string, string>)
      requires Created(fill) && pMax == alpha && missing.entries == map[] && FillsKeys(fill) && newFrequency == map[]
      modifies this`cache
      ensures fresh(cache) && Started(fill)
    {
      hide Bijection, Apart, Distinct, Represents, BuiltIfApart, Coherent, Covers, FillsKeys, Playable, Sized;
      hide Plan.Weighted, Plan.Smooth, InitialEntries, Plan.Transition, Usable, Fitting, AllQuiet;
      FittingNeeds(keys, probs, alpha, dummyKey, size);
      cache := new Cache.FromPairs(Pairs(keys, NatCounts(probs, alpha)) + [(dummyKey, dummies)]);
      StartIsValid(ThePlan(), stored, cache.entries, fill);
    }

    /** Before `create_replicas`. */
    ghost predicate Blank()
      reads this, missing, store
    {
      && Fitting(keys, probs, alpha, dummyKey, size) && pMax == alpha && missing.entries == map[]
      && labels == map[] && labelCount == 0 && replicas == map[] && frequency == map[] && newFrequency == map[]
      && Represents(store.shards, store.hash, stored)
    }

    /** `create_replicas`: from any positive distribution, whatever is stored already, the proxy starts in a
        state in which the directory is a bijection onto the 2n labels, every label is stored, and clients
        find one value per key - exactly if no two of the replicas share a name.  `fill` gives the random
        value that all replicas of a key start with. */
    method CreateReplicas(fill: map<string, string>)
      requires Blank() && FillsKeys(fill) && Elems(keys + [dummyKey]) <= fill.Keys
      modifies this`labels, this`labelCount, this`replicas, this`frequency, this`stored, this`dummies, this`cache, store
      ensures fresh(cache) && labelCount == 2 * size && dummyKey !in frequency && Started(fill)
    {
      hide Fitting, FillsKeys, Represents, BuiltIfApart, Covers, Started;
      FillDirectory(fill);
      StartCache(fill);
    }

    // ---------------------------------------------------------------- a new distribution

    /** `prepare_for_swapping`: asks for the labels of a key that grows, and marks its new replicas
        as missing unless it is the dummy; gives up the labels of a key that shrinks. */
    method PrepareForSwapping(key: string, rNew: nat, rOld: nat, free: seq<nat>, needs: seq<(string, nat)>)
      returns (free': seq<nat>, needs': seq<(string, nat)>)
      requires rNew < rOld ==> Range(key, rNew, rOld) <= labels.Keys
      modifies this`labels, missing
      ensures Swap(labels, free', needs') == Prepare(Swap(old(labels), free, needs), key, rNew, rOld)
      ensures missing.entries == if rNew > rOld && key != dummyKey
                                 then EditBitVectorSize(old(missing.entries), key, rNew) else old(missing.entries)
    {
      free', needs' := free, needs;
      if rNew > rOld {
        var i := rOld;
        while i < rNew
          invariant rOld <= i <= rNew
          invariant Request(Swap(labels, free, needs'), key, i, rNew)
                    == Request(Swap(labels, free, needs), key, rOld, rNew)
        {
          needs' := needs' + [(key, i)];
          i := i + 1;
        }
        if key != dummyKey {
          missing.EditSize(key, rNew);
        }
      } else if rNew < rOld {
        free' := ReleaseLabels(key, rNew, rOld, free, needs);
      }
    }

    method ReleaseLabels(key: string, rNew: nat, rOld: nat, free: seq<nat>, ghost needs: seq<(string, nat)>)
      returns (free': seq<nat>)
      requires rNew <= rOld && Range(key, rNew, rOld) <= labels.Keys
      modifies this`labels
      ensures Swap(labels, free', needs) == Release(Swap(old(labels), free, needs), key, rNew, rOld)
    {
      free' := free;
      var i := rNew;
      while i < rOld
        invariant rNew <= i <= rOld && Range(key, i, rOld) <= labels.Keys
        invariant Release(Swap(labels, free', needs), key, i, rOld)
                  == Release(Swap(old(labels), free, needs), key, rNew, rOld)
      {
        RangeSplit(key, i, rOld);
        assert Name(key, i) in labels;
        free' := free' + [labels[Name(key, i)]];
        labels := labels - {Name(key, i)};
        i := i + 1;
      }
    }

    /** `perform_swapping` */
    method PerformSwapping(free: seq<nat>, needs: seq<(string, nat)>) returns (swaps: nat)
      requires |needs| <= |free|
      modifies this`labels
      ensures labels == Assign(old(labels), free, needs, |needs|) && swaps == |needs|
    {
      for i := 0 to |needs|
        invariant labels == Assign(old(labels), free, needs, i)
      {
        labels := labels[Name(needs[i].0, needs[i].1) := free[i]];
      }
      swaps := |needs|;
    }

    /** The loop of `recompute_fake_distribution` over the keys in transition, in any order. */
    method LargestMissing(n: nat) returns (ok: bool, largest: real)
      requires n > 0
      modifies this`newFrequency
      ensures ok <==> SizesMatch(missing.entries, replicas)
      ensures ok ==> newFrequency == LookedUp(old(newFrequency), missing.entries)
      ensures ok ==> IsPMax(largest, n, missing.entries, newFrequency)
    {
      hide LookedUp, IsPMax, Seen;
      ok, largest := true, MainAlpha(n);
      var entries := missing.entries;
      var todo := entries.Keys;
      ghost var freq := newFrequency;
      NoneSeen(freq, entries, n);
      while todo != {}
        invariant todo <= entries.Keys && entries == missing.entries
        invariant forall k :: k in entries && k !in todo ==> |entries[k].bits| == At(replicas, k)
        invariant newFrequency == LookedUp(freq, Seen(entries, todo))
        invariant IsPMax(largest, n, Seen(entries, todo), freq)
        decreases |todo|
      {
        var key :| key in todo;
        if |entries[key].bits| != At(replicas, key) {
          return false, largest;
        }
        SeenNext(freq, entries, todo, key, largest, n);
        if key !in newFrequency {
          newFrequency := newFrequency[key := 0.0];
        }
        var prob := newFrequency[key];
        largest := if largest > prob then largest else prob;
        todo := todo - {key};
      }
      AllSeen(largest, n, entries, freq);
    }

    /** What `update_distribution` works on. */
    ghost function Work(free: seq<nat>, needs: seq<(string, nat)>): Moves
      reads this, missing
    {
      Moves(Swap(labels, free, needs), missing.entries, replicas, newFrequency)
    }

    /** One turn of its loop. */
    method MoveKey(key: string, pi: real, free: seq<nat>, needs: seq<(string, nat)>)
      returns (rNew: nat, free': seq<nat>, needs': seq<(string, nat)>)
      requires pi > 0.0 && alpha > 0.0
      requires ReplicaCount(pi, alpha) < At(replicas, key)
               ==> Range(key, ReplicaCount(pi, alpha), At(replicas, key)) <= labels.Keys
      modifies this`labels, this`replicas, this`newFrequency, missing
      ensures rNew == ReplicaCount(pi, alpha) > 0
      ensures Work(free', needs') == Move(old(Work(free, needs)), key, pi, rNew, dummyKey)
    {
      hide ReplicaCount, Prepare, EditBitVectorSize;
      newFrequency := newFrequency[key := pi];
      var rOld := if key in replicas then replicas[key] else 0;
      rNew := NewCount(pi, alpha);
      replicas := replicas[key := rNew];
      free', needs' := PrepareForSwapping(key, rNew, rOld, free, needs);
    }

    /** Its loop over the new keys. */
    method MoveKeys(newKeys: seq<string>, newProbs: seq<real>, ghost p: Plan, ghost s: Moves)
      returns (total: nat, free: seq<nat>, needs: seq<(string, nat)>)
      requires p == ThePlan() && MayMoveTo(p, Target(newKeys, newProbs)) && s == Work([], [])
      modifies this`labels, this`replicas, this`newFrequency, missing
      ensures total == Total(News(p, Target(newKeys, newProbs)))
      ensures Work(free, needs)
              == MoveFirst(s, Target(newKeys, newProbs), News(p, Target(newKeys, newProbs)), dummyKey, |newKeys|)
    {
      hide Move, ReplicaCount, Range, MayMoveTo, Plan.Smooth, Total;
      ghost var t := Target(newKeys, newProbs);
      MayMoveNeeds(p, t);
      total, free, needs := 0, [], [];
      var index := 0;
      while index < |newKeys|
        invariant index <= |newKeys|
        invariant Work(free, needs) == MoveFirst(s, t, News(p, t), dummyKey, index)
        invariant total == PrefixTotal(News(p, t), index)
      {
        TurnReleases(p, t, News(p, t), s, index);
        var r;
        r, free, needs := MoveKey(newKeys[index], newProbs[index], free, needs);
        total := total + r;
        index := index + 1;
      }
      PrefixTotalIs(News(p, t), |newKeys|);
      assert News(p, t)[..|newKeys|] == News(p, t);
    }

    /** The dummy comes last, with the labels that are left for it. */
    method MoveDummies(total: nat, n: nat, free: seq<nat>, needs: seq<(string, nat)>)
      returns (free': seq<nat>, needs': seq<(string, nat)>)
      requires total < 2 * n
      requires 2 * n - total < dummies ==> Range(dummyKey, 2 * n - total, dummies) <= labels.Keys
      modifies this`labels, this`dummies, missing
      ensures dummies == 2 * n - total
      ensures Work(free', needs') == MoveDummy(old(Work(free, needs)), dummyKey, 2 * n - total, old(dummies))
    {
      hide Prepare, EditBitVectorSize;
      var rOld := dummies;
      dummies := 2 * n - total;
      free', needs' := PrepareForSwapping(dummyKey, dummies, rOld, free, needs);
    }

    /** All calls of `prepare_for_swapping`; the assertion on the number of replicas comes before the
        dummy's. */
    method PrepareSwaps(newKeys: seq<string>, newProbs: seq<real>, ghost p: Plan, ghost s: Moves)
      returns (ok: bool, free: seq<nat>, needs: seq<(string, nat)>)
      requires p == ThePlan() && MayMoveTo(p, Target(newKeys, newProbs)) && s == Work([], [])
      modifies this`newFrequency, this`replicas, this`dummies, this`labels, missing
      ensures ok <==> Total(News(p, Target(newKeys, newProbs))) < 2 * |newKeys|
      ensures ok ==> dummies == 2 * |newKeys| - Total(News(p, Target(newKeys, newProbs)))
      ensures ok ==> Work(free, needs) == Prepared(p, Target(newKeys, newProbs), News(p, Target(newKeys, newProbs)), s)
    {
      hide Apart, Bijection, MoveFirst, MoveDummy, Range, News;
      ghost var t := Target(newKeys, newProbs);
      var total;
      total, free, needs := MoveKeys(newKeys, newProbs, p, s);
      ok := total < 2 * |newKeys|;
      if ok {
        DummyTurnReleases(p, t, News(p, t), s);
        free, needs := MoveDummies(total, |newKeys|, free, needs);
      }
    }

    /** `recompute_fake_distribution`; it fails if a vector does not have the size of its key's new
        count. */
    method RecomputeFakeDistribution(newKeys: seq<string>, newProbs: seq<real>) returns (ok: bool)
      requires 0 < |newKeys| == |newProbs|
      modifies this`pMax, this`fakeWeights, this`newFrequency
      ensures ok <==> SizesMatch(missing.entries, replicas)
      ensures ok ==> newFrequency == LookedUp(old(newFrequency), missing.entries)
      ensures ok ==> IsPMax(pMax, |newKeys|, missing.entries, newFrequency)
      ensures ok ==> Reweighted(fakeWeights, newKeys, newProbs, replicas, dummies, pMax)
    {
      var largest;
      ok, largest := LargestMissing(|newKeys|);
      if ok {
        pMax := largest;
        fakeWeights := NewFakeDistribution(newKeys, newProbs, replicas, dummies, pMax);
      }
    }

    /** The new distribution takes effect; if there is a label for every request, they are served. */
    method Commit(newKeys: seq<string>, newProbs: seq<real>, free: seq<nat>, needs: seq<(string, nat)>)
      returns (ok: bool)
      modifies this`keys, this`probs, this`frequency, this`labels
      ensures keys == newKeys && probs == newProbs && frequency == newFrequency
      ensures ok <==> |needs| == |free|
      ensures ok ==> labels == Assign(old(labels), free, needs, |needs|)
    {
      keys, probs, frequency := newKeys, newProbs, newFrequency;
      ok := |needs| == |free|;
      if ok {
        var swaps := PerformSwapping(free, needs);
      }
    }

    /** What a redistribution needs, and leaves whatever the new keys are. */
    ghost predicate Ready()
      reads this, missing
    {
      ThePlan().AllFiled() && Matching(ThePlan(), missing.entries)
    }

    lemma ValidIsReady()
      requires Valid()
      ensures Ready()
    {
      hide Bijection, Apart;
      CountsApart(ThePlan());
      TransitionMatches(ThePlan(), missing.entries);
    }

    /** `update_distribution` to any new distribution, over the same keys or others, and also after such
        redistributions.  It passes its assertions exactly under the conditions of `Passes`.  Then the fake
        weights fit the new plan, and the proxy is ready for a further redistribution - the directory being
        a bijection onto the same labels - exactly if no two replicas share a name; surviving replicas then
        keep their labels.  If moreover the keys are the same, everything that holds between two operations
        holds again. */
    method UpdateDistribution(newKeys: seq<string>, newProbs: seq<real>) returns (ok: bool)
      requires Ready() && IsTarget(Target(newKeys, newProbs), dummyKey)
      modifies this`keys, this`probs, this`frequency, this`newFrequency, this`replicas, this`dummies, this`labels
      modifies this`pMax, this`fakeWeights, missing
      ensures ok <==> Passes(old(ThePlan()), Target(newKeys, newProbs), old(missing.entries))
      ensures ok ==> Moved(old(ThePlan()), Target(newKeys, newProbs), old(missing.entries), ThePlan(), missing.entries)
      ensures ok ==> Reweighted(fakeWeights, keys, probs, replicas, dummies, pMax)
      ensures ok ==> FrequenciesLeft(old(newFrequency), Target(newKeys, newProbs), missing.entries, frequency)
                     && newFrequency == frequency
      ensures ok ==> (Ready() <==> Apart(ThePlan().Counts()))
      ensures ok && Ready() ==>
                SurvivorsStay(old(labels), old(ThePlan().Counts()), labels, ThePlan().Counts())
      ensures ok && old(Valid()) && SameKeys(old(keys), newKeys) ==>
                && Follows(old(ThePlan()), ThePlan()) && (Valid() <==> Apart(ThePlan().Counts()))
                && dummyKey !in frequency && (IsAlpha(alpha, size) ==> ThePlan().Weighted())
    {
      hide Sound, MayMoveTo, Passes, Moved, Prepared, SizesMatch, Reweighted, News, SameKeys, IsDistribution;
      hide Plan.Weighted, Plan.Smooth, Plan.AllFiled, Along, Total, SurvivorsStay, Matching, Apart, Follows;
      ghost var p, s, t := ThePlan(), Work([], []), Target(newKeys, newProbs);
      ReadyMoves(p, t, s.missing);
      MayMoveNeeds(p, t);
      var free, needs;
      ok, free, needs := PrepareSwaps(newKeys, newProbs, p, s);
      Decided(p, t, s);
      if ok {
        ok := FinishUpdate(newKeys, newProbs, free, needs, p, s);
      }
    }

    /** What follows once the swaps are prepared: weights, the new distribution, and the swaps. */
    method FinishUpdate(newKeys: seq<string>, newProbs: seq<real>, free: seq<nat>, needs: seq<(string, nat)>,
                        ghost p: Plan, ghost s: Moves) returns (ok: bool)
      requires MayMoveTo(p, Target(newKeys, newProbs)) && Matching(p, s.missing)
      requires s.sw == Swap(p.labels, [], []) && s.replicas == p.replicas
      requires Total(News(p, Target(newKeys, newProbs))) < 2 * |newKeys|
      requires Work(free, needs) == Prepared(p, Target(newKeys, newProbs), News(p, Target(newKeys, newProbs)), s)
      requires dummies == 2 * |newKeys| - Total(News(p, Target(newKeys, newProbs)))
      requires p.alpha == alpha && p.dummyKey == dummyKey && p.size == size
      modifies this`keys, this`probs, this`frequency, this`newFrequency, this`labels, this`pMax, this`fakeWeights
      ensures ok <==> Passes(p, Target(newKeys, newProbs), s.missing)
      ensures ok ==> Achieved(p, Target(newKeys, newProbs), s.missing, ThePlan(), missing.entries, store.shards,
                              store.hash, stored, s.freq)
      ensures ok ==> keys == newKeys && newFrequency == frequency
      ensures ok ==> Reweighted(fakeWeights, keys, probs, replicas, dummies, pMax)
    {
      hide MayMoveTo, Passes, Prepared, SizesMatch, IsPMax, Reweighted, Assign, News, LookedUp, Achieved, Matching;
      hide IsDistribution, Total;
      ghost var t := Target(newKeys, newProbs);
      MayMoveNeeds(p, t);
      Decided(p, t, s);
      ok := RecomputeFakeDistribution(newKeys, newProbs);
      if ok {
        ghost var s' := Work(free, needs);
        ok := Commit(newKeys, newProbs, free, needs);
        if ok {
          Concluded(p, t, s, s', pMax, ThePlan(), store.shards, store.hash, stored);
        }
      }
    }

    // ---------------------------------------------------------------- a batch

    /** `is_true_distribution`, with the uniform draw u of `prob`. */
    method IsTrueDistribution(u: real) returns (real_: bool)
      requires Valid()
      ensures |frequency| > 0 && pMax > 0.0 && (real_ <==> u < Coin(|frequency|, pMax))
    {
      hide Coin;
      FrequencyEntries(ThePlan());
      real_ := FlipCoin(|frequency|, pMax, u);
    }

    /** `key_to_number_of_replicas_[key]`, with `dummy_keys_` for the dummy. */
    method CountOf(key: string) returns (n: nat)
      requires key in ThePlan().Counts()
      ensures n == ThePlan().Counts()[key]
    {
      n := if key == dummyKey then dummies else replicas[key];
    }

    /** One turn of the first loop of `execute_batch`. */
    method DrawReplica(op: Op, isTrue: bool, draw: (real, nat)) returns (a: Access)
      requires Drawable(ThePlan().Counts(), missing.entries, frequency, pMax, op.key) && draw.0 < 1.0
      modifies this`frequency
      ensures a == SampledOne(ThePlan().Counts(), missing.entries, old(frequency), pMax, op, isTrue, draw)
      ensures frequency == old(frequency)[op.key := FrequencyOf(old(frequency), op.key)]
    {
      var n := CountOf(op.key);
      if op.key !in frequency {
        frequency := frequency[op.key := 0.0];
      }
      var j := missing.Sample(op.key, n, isTrue, frequency[op.key], pMax, draw.0, draw.1);
      a := Access(op, isTrue, j);
    }

    /** The first loop: all replicas are drawn, and their labels collected. */
    method DrawReplicas(ops: seq<Op>, trues: seq<bool>, draws: seq<(real, nat)>)
      returns (accesses: seq<Access>, addrs: seq<string>)
      requires |ops| == |trues| == |draws| && Now().Valid()
      requires forall i :: 0 <= i < |ops| ==>
                 Drawable(ThePlan().Counts(), missing.entries, frequency, pMax, ops[i].key) && draws[i].0 < 1.0
      modifies this`frequency
      ensures accesses == Sampled(ThePlan().Counts(), missing.entries, old(frequency), pMax, ops, trues, draws)
      ensures (forall i :: 0 <= i < |accesses| ==> Now().Has(accesses[i])) && addrs == Addrs(Now(), accesses)
      ensures frequency == Looked(old(frequency), ops)
    {
      hide Drawable, SampledOne, IsAddr, Bijection, Apart, Looked, FrequencyOf;
      LookedNone(frequency, ops);
      accesses, addrs := [], [];
      var i := 0;
      while i < |ops|
        invariant i <= |ops| && |accesses| == |addrs| == i
        invariant frequency == Looked(old(frequency), ops[..i])
        invariant forall j :: 0 <= j < i ==>
                    accesses[j] == SampledOne(ThePlan().Counts(), missing.entries, old(frequency), pMax, ops[j],
                                              trues[j], draws[j])
        invariant forall j :: 0 <= j < i ==> IsAddr(Now(), accesses[j], addrs[j])
      {
        LookedNext(old(frequency), ops, i);
        DrawnAlike(ThePlan().Counts(), missing.entries, old(frequency), pMax, ops[..i], ops[i], trues[i], draws[i]);
        var a := DrawReplica(ops[i], trues[i], draws[i]);
        AddrOfDraw(Now(), a);
        accesses := accesses + [a];
        addrs := addrs + [Decimal(labels[Name(a.op.key, a.replica)])];
        i := i + 1;
      }
      assert ops[..|ops|] == ops;
      AddrsOfDraws(Now(), accesses, addrs);
    }

    /** One turn of the second loop; `texts` are the plaintexts of the earlier turns. */
    method Serve(a: Access, response: string, ghost texts: seq<string>) returns (text: string)
      requires cache != missing && Now().Has(a) && InBounds(Now(), Progress(cache.entries, missing.entries, texts), a)
      modifies cache, missing
      ensures var p' := Step(Now(), old(Progress(cache.entries, missing.entries, texts)), a, response);
              cache.entries == p'.cache && missing.entries == p'.missing && texts + [text] == p'.texts
    {
      var key := a.op.key;
      if a.op.value != "" {
        var n := CountOf(key);
        var inserted := cache.Populate(key, a.op.value, n);
      }
      var update := cache.CheckUpdate(key, a.replica);
      text := if update == "" then response else update;
      missing.CheckMissing(key, text, cache);
    }

    /** The second loop: `delivered` is what the promises of the true accesses receive. */
    method ServeAll(accesses: seq<Access>, responses: seq<string>) returns (texts: seq<string>, delivered: seq<string>)
      requires cache != missing && |responses| >= |accesses|
      requires forall i :: 0 <= i < |accesses| ==> Now().Has(accesses[i])
      requires RunInBounds(Now(), Progress(cache.entries, missing.entries, []), accesses, responses)
      modifies cache, missing
      ensures var p' := RunSteps(Now(), old(Progress(cache.entries, missing.entries, [])), accesses, responses);
              cache.entries == p'.cache && missing.entries == p'.missing && texts == p'.texts
      ensures delivered == Delivered(accesses, texts)
    {
      hide Step, RunSteps, InBounds, RunInBounds, Bijection, Apart;
      ghost var e, p0 := Now(), Progress(cache.entries, missing.entries, []);
      RunNothing(e, p0, accesses, responses);
      texts, delivered := [], [];
      var i := 0;
      while i < |accesses|
        invariant i <= |accesses| && e == Now() && |texts| == i
        invariant forall j :: 0 <= j < i ==> e.Has(accesses[..i][j])
        invariant Progress(cache.entries, missing.entries, texts) == RunSteps(e, p0, accesses[..i], responses)
        invariant delivered == Delivered(accesses[..i], texts)
      {
        TurnInBounds(e, p0, accesses, responses, i);
        TurnRuns(e, p0, accesses, responses, i);
        var text := Serve(accesses[i], responses[i], texts);
        DeliveredNext(accesses, texts, text, i);
        texts := texts + [text];
        if accesses[i].isTrue {
          delivered := delivered + [text];
        }
        i := i + 1;
      }
      assert accesses[..|accesses|] == accesses;
    }

    /** `execute_batch`: storage is read once, the loop runs over both caches, and storage is written
        once; `accesses` are the operations with the replicas that were drawn.  All that the servers see is
        that the label of each access is read, and then that it is written: whether an access is a client's,
        and whether it is a get or a put, makes no difference.  The batch has to stay
        inside the cached vectors, as it always does if they are long enough. */
    method ExecuteBatch(ops: seq<Op>, trues: seq<bool>, draws: seq<(real, nat)>)
      returns (delivered: seq<string>, accesses: seq<Access>)
      requires Valid() && IsRequest(ThePlan(), ops, trues, draws)
      requires DrawsStay(ThePlan(), State(), ops, trues, draws)
      modifies this`frequency, this`stored, cache, missing, store
      ensures Valid() && (old(Wide(Now(), cache.entries)) ==> Wide(Now(), cache.entries))
      ensures frequency == Looked(old(frequency), ops)
      ensures accesses == old(Drawn(ThePlan(), missing.entries, ops, trues, draws))
      ensures Playable(Now(), old(State()), accesses)
      ensures var w' := AfterBatch(Now(), old(State()), accesses);
              cache.entries == w'.cache && missing.entries == w'.missing && stored == w'.store
      ensures delivered == Delivered(accesses, Played(Now(), old(State()), accesses).texts)
      ensures store.calls
              == old(store.calls) + ReadCalls(Addrs(Now(), accesses)) + WriteCalls(Addrs(Now(), accesses))
    {
      hide Sound, Bijection, Apart, Drawable, Represents, AddrStored, Looked, Wide, IsRequest, Registered;
      hide BatchInBounds, Playable, AfterBatch, Played, Sampled, Drawn, DrawsStay, Addrs, Delivered;
      hide Plan.Smooth, Plan.Transition;
      ghost var p, w, shards := ThePlan(), State(), store.shards;
      MayDraw(p, w, shards, store.hash, ops, trues, draws);
      var addrs;
      accesses, addrs := DrawReplicas(ops, trues, draws);
      DrawnInBounds(p, w, ops, trues, draws, accesses);
      delivered := PlayBatch(accesses, addrs);
      BatchLeaves(p, ThePlan(), w, State(), accesses, ops, shards, store.shards, store.hash);
    }

    /** Read once, run the second loop, write once. */
    method PlayBatch(accesses: seq<Access>, addrs: seq<string>) returns (delivered: seq<string>)
      requires cache != missing && Represents(store.shards, store.hash, stored)
      requires Playable(Now(), State(), accesses) && addrs == Addrs(Now(), accesses)
      requires BatchInBounds(Now(), State(), accesses)
      modifies this`stored, cache, missing, store
      ensures Represents(store.shards, store.hash, stored)
      ensures var w' := AfterBatch(Now(), old(State()), accesses);
              cache.entries == w'.cache && missing.entries == w'.missing && stored == w'.store
      ensures delivered == Delivered(accesses, Played(Now(), old(State()), accesses).texts)
      ensures store.calls == old(store.calls) + ReadCalls(addrs) + WriteCalls(addrs)
    {
      hide Bijection, Apart, Represents, AddrStored;
      AddrsStored(Now(), State(), accesses);
      var responses := FetchAll(addrs);
      assert responses == Responses(Now(), stored, accesses);
      var texts;
      texts, delivered := ServeAll(accesses, responses);
      WriteAll(addrs, texts);
    }

    /** `get_batch` for labels that are stored. */
    method FetchAll(addrs: seq<string>) returns (values: seq<string>)
      requires Represents(store.shards, store.hash, stored) && forall i :: 0 <= i < |addrs| ==> addrs[i] in stored
      modifies store`calls
      ensures store.calls == old(store.calls) + ReadCalls(addrs)
      ensures |values| == |addrs| && forall i :: 0 <= i < |addrs| ==> values[i] == stored[addrs[i]]
    {
      forall k | k in addrs
        ensures Get(store.shards, store.hash, k).Some?
      {
        assert Shows(store.shards, store.hash, stored, k);
      }
      var r := store.GetBatch(addrs);
      values := r.value;
      forall i | 0 <= i < |addrs|
        ensures values[i] == stored[addrs[i]]
      {
        assert Shows(store.shards, store.hash, stored, addrs[i]);
      }
    }

    /** What `init` sets before it creates the replicas, and the fake distribution. */
    constructor (keys: seq<string>, probs: seq<real>, size: nat, alpha: real, delta: real, dummyKey: string,
                 store: RocksDb, ghost stored: map<string, string>)
      requires Fitting(keys, probs, alpha, dummyKey, size) && Divides(delta)
      requires Represents(store.shards, store.hash, stored)
      ensures this.keys == keys && this.probs == probs && this.alpha == alpha && this.size == size
      ensures this.dummyKey == dummyKey && this.store == store && this.delta == delta
      ensures StartWeights(fakeWeights, probs, alpha, delta)
      ensures Blank() && fresh(missing)
    {
      this.keys, this.probs, this.size := keys, probs, size;
      this.alpha, this.delta, this.dummyKey := alpha, delta, dummyKey;
      frequency, newFrequency, replicas, dummies := map[], map[], map[], 0;
      labels, labelCount, pMax := map[], 0, alpha;
      var weights := FakeDistribution(probs, alpha, delta);
      fakeWeights := weights;
      cache := new Cache();
      missing := new Cache();
      this.store, this.stored := store, stored;
    }
  }

  /** `init`, on a store that may hold data already. */
  method Init(keys: seq<string>, probs: seq<real>, size: nat, alpha: real, delta: real, dummyKey: string,
              fill: map<string, string>, store: RocksDb, ghost stored: map<string, string>)
    returns (proxy: PancakeProxy)
    requires Fitting(keys, probs, alpha, dummyKey, size) && Divides(delta)
    requires FillsKeys(fill) && Elems(keys + [dummyKey]) <= fill.Keys
    requires Represents(store.shards, store.hash, stored)
    modifies store
    ensures fresh(proxy) && proxy.store == store && proxy.keys == keys && proxy.probs == probs
    ensures proxy.size == size && proxy.alpha == alpha && proxy.delta == delta && proxy.dummyKey == dummyKey
    ensures StartWeights(proxy.fakeWeights, probs, alpha, delta)
    ensures proxy.Started(fill)
  {
    hide Fitting, FillsKeys, Represents, StartWeights, PancakeProxy.Started;
    proxy := new PancakeProxy(keys, probs, size, alpha, delta, dummyKey, store, stored);
    proxy.CreateReplicas(fill);
  }
}
