/** The sharded stores: every key lives on the client `hash(key) % clients.size()`. */
module Storage {
  import opened Wrappers
  import opened Sums

  type Shard = map<string, string>
  type Hash = string -> nat

  function Route(hash: Hash, clients: nat, key: string): (id: nat)
    requires clients > 0
    ensures id < clients
  {
    hash(key) % clients
  }

  function Put(shards: seq<Shard>, hash: Hash, key: string, value: string): (r: seq<Shard>)
    requires |shards| > 0
    ensures |r| == |shards|
  {
    var id := Route(hash, |shards|, key);
    shards[id := shards[id][key := value]]
  }

  function Get(shards: seq<Shard>, hash: Hash, key: string): Option<string>
    requires |shards| > 0
  {
    var shard := shards[Route(hash, |shards|, key)];
    if key in shard then Some(shard[key]) else None
  }

  /** Putting the pairs one by one. */
  function PutAll(shards: seq<Shard>, hash: Hash, keys: seq<string>, values: seq<string>): (r: seq<Shard>)
    requires |shards| > 0 && |keys| <= |values|
    ensures |r| == |shards|
    decreases |keys|
  {
    if keys == [] then shards
    else
      var m := |keys| - 1;
      Put(PutAll(shards, hash, keys[..m], values), hash, keys[m], values[m])
  }

  /** The same on one plain map: the last of several pairs with the same key wins. */
  function Overwritten(m: map<string, string>, keys: seq<string>, values: seq<string>): map<string, string>
    requires |keys| <= |values|
    decreases |keys|
  {
    if keys == [] then m
    else Overwritten(m, keys[..|keys| - 1], values)[keys[|keys| - 1] := values[|keys| - 1]]
  }

  /** The shards behave as the single map m. */
  ghost predicate Represents(shards: seq<Shard>, hash: Hash, m: map<string, string>) {
    |shards| > 0 && forall k :: Shows(shards, hash, m, k)
  }

  ghost predicate Shows(shards: seq<Shard>, hash: Hash, m: map<string, string>, k: string)
    requires |shards| > 0
  {
    Get(shards, hash, k) == if k in m then Some(m[k]) else None
  }

  lemma PutRefines(shards: seq<Shard>, hash: Hash, m: map<string, string>, key: string, value: string)
    requires Represents(shards, hash, m)
    ensures Represents(Put(shards, hash, key, value), hash, m[key := value])
  {
    var shards', m' := Put(shards, hash, key, value), m[key := value];
    forall k
      ensures Shows(shards', hash, m', k)
    {
      assert Shows(shards, hash, m, k);
    }
  }

  /** A batch of puts on the sharded store is the batch of overwrites on the map. */
  lemma {:induction false} PutAllRefines(shards: seq<Shard>, hash: Hash, m: map<string, string>,
                                         keys: seq<string>, values: seq<string>)
    requires Represents(shards, hash, m) && |keys| <= |values|
    ensures Represents(PutAll(shards, hash, keys, values), hash, Overwritten(m, keys, values))
    decreases |keys|
  {
    if keys != [] {
      var n := |keys| - 1;
      PutAllRefines(shards, hash, m, keys[..n], values);
      PutRefines(PutAll(shards, hash, keys[..n], values), hash, Overwritten(m, keys[..n], values), keys[n], values[n]);
    }
  }

  /** A key that is not in the batch keeps its value. */
  lemma {:induction false} OthersKept(m: map<string, string>, keys: seq<string>, values: seq<string>, k: string)
    requires |keys| <= |values| && k !in keys
    ensures k in Overwritten(m, keys, values) <==> k in m
    ensures k in m ==> Overwritten(m, keys, values)[k] == m[k]
    decreases |keys|
  {
    if keys != [] {
      assert keys[|keys| - 1] in keys;
      OthersKept(m, keys[..|keys| - 1], values, k);
    }
  }

  /** A key of the batch has the value of its last occurrence. */
  lemma {:induction false} LastPairWins(m: map<string, string>, keys: seq<string>, values: seq<string>, p: nat)
    requires p < |keys| <= |values| && keys[p] !in keys[p + 1..]
    ensures keys[p] in Overwritten(m, keys, values) && Overwritten(m, keys, values)[keys[p]] == values[p]
    decreases |keys|
  {
    var n := |keys| - 1;
    if p < n {
      assert keys[n] == keys[p + 1..][n - p - 1];
      assert keys[..n][p + 1..] <= keys[p + 1..];
      LastPairWins(m, keys[..n], values, p);
    }
  }

  /** `get_batch` after `put_batch`: a key of the batch has the value of its last pair, on whichever
      client it lives. */
  lemma ReadAfterPuts(shards: seq<Shard>, hash: Hash, m: map<string, string>, keys: seq<string>, values: seq<string>,
                      p: nat)
    requires Represents(shards, hash, m) && p < |keys| <= |values| && keys[p] !in keys[p + 1..]
    ensures Get(PutAll(shards, hash, keys, values), hash, keys[p]) == Some(values[p])
  {
    PutAllRefines(shards, hash, m, keys, values);
    LastPairWins(m, keys, values, p);
    assert Shows(PutAll(shards, hash, keys, values), hash, Overwritten(m, keys, values), keys[p]);
  }

  /** Any other key reads as before. */
  lemma OthersReadAsBefore(shards: seq<Shard>, hash: Hash, m: map<string, string>, keys: seq<string>,
                           values: seq<string>, key: string)
    requires Represents(shards, hash, m) && |keys| <= |values| && key !in keys
    ensures Get(PutAll(shards, hash, keys, values), hash, key) == Get(shards, hash, key)
  {
    PutAllRefines(shards, hash, m, keys, values);
    OthersKept(m, keys, values, key);
    assert Shows(shards, hash, m, key)
           && Shows(PutAll(shards, hash, keys, values), hash, Overwritten(m, keys, values), key);
  }

  // ------------------------------------------------------------------ where a pair goes

  /** Client `id` after a batch, key by key: a key whose hash modulo the number of clients is `id` holds the
      value of its last pair, and nothing else has changed. */
  ghost predicate AtHome(was: Shard, shard: Shard, hash: Hash, clients: nat, keys: seq<string>, values: seq<string>,
                         id: nat)
    requires clients > 0 && |keys| <= |values|
  {
    && (forall p :: 0 <= p < |keys| && hash(keys[p]) % clients == id ==> LastPairHeld(shard, keys, values, p))
    && (forall k :: k !in keys || hash(k) % clients != id ==> Unchanged(was, shard, k))
  }

  /** If no later pair has its key, the pair is what the client holds. */
  predicate LastPairHeld(shard: Shard, keys: seq<string>, values: seq<string>, p: nat)
    requires p < |keys| <= |values|
  {
    keys[p] !in keys[p + 1..] ==> keys[p] in shard && shard[keys[p]] == values[p]
  }

  predicate Unchanged(was: Shard, shard: Shard, k: string) {
    (k in shard <==> k in was) && (k in shard ==> shard[k] == was[k])
  }

  /** Putting pairs one by one brings each to the client that its key's hash selects. */
  lemma {:induction false} PutsAtHome(shards: seq<Shard>, hash: Hash, keys: seq<string>, values: seq<string>, id: nat)
    requires id < |shards| && |keys| <= |values|
    ensures AtHome(shards[id], PutAll(shards, hash, keys, values)[id], hash, |shards|, keys, values, id)
    decreases |keys|
  {
    hide AtHome;
    if keys == [] {
      NobodyHome(shards[id], hash, |shards|, values, id);
    } else {
      var m := |keys| - 1;
      var front := PutAll(shards, hash, keys[..m], values);
      PutsAtHome(shards, hash, keys[..m], values, id);
      PutIsRouted(front, hash, keys[m], values[m], id);
      OneMorePut(shards[id], front[id], hash, |shards|, keys, values, id);
    }
  }

  lemma PutNone(shards: seq<Shard>, hash: Hash, keys: seq<string>, values: seq<string>)
    requires |shards| > 0
    ensures PutAll(shards, hash, keys[..0], values) == shards && WriteCalls(keys[..0]) == []
  {
  }

  lemma PutAllSnoc(shards: seq<Shard>, hash: Hash, keys: seq<string>, values: seq<string>, i: nat)
    requires |shards| > 0 && i < |keys| <= |values|
    ensures PutAll(shards, hash, keys[..i + 1], values)
            == Put(PutAll(shards, hash, keys[..i], values), hash, keys[i], values[i])
  {
    assert keys[..i + 1][..i] == keys[..i];
  }

  /** So it is for every client. */
  ghost predicate EachAtHome(was: seq<Shard>, shards: seq<Shard>, hash: Hash, keys: seq<string>, values: seq<string>) {
    && 0 < |was| == |shards| && |keys| <= |values|
    && forall id: nat :: id < |was| ==> AtHome(was[id], shards[id], hash, |was|, keys, values, id)
  }

  lemma AllAtHome(shards: seq<Shard>, hash: Hash, keys: seq<string>, values: seq<string>)
    requires |shards| > 0 && |keys| <= |values|
    ensures EachAtHome(shards, PutAll(shards, hash, keys, values), hash, keys, values)
  {
    hide AtHome;
    forall id: nat | id < |shards|
      ensures AtHome(shards[id], PutAll(shards, hash, keys, values)[id], hash, |shards|, keys, values, id)
    {
      PutsAtHome(shards, hash, keys, values, id);
    }
  }

  lemma NobodyHome(shard: Shard, hash: Hash, clients: nat, values: seq<string>, id: nat)
    requires clients > 0
    ensures AtHome(shard, shard, hash, clients, [], values, id)
  {
  }

  lemma PutIsRouted(shards: seq<Shard>, hash: Hash, key: string, value: string, id: nat)
    requires id < |shards|
    ensures Put(shards, hash, key, value)[id]
            == if hash(key) % |shards| == id then shards[id][key := value] else shards[id]
  {
  }

  lemma OneMorePut(was: Shard, shard: Shard, hash: Hash, clients: nat, keys: seq<string>, values: seq<string>, id: nat)
    requires clients > 0 && 0 < |keys| <= |values|
    requires AtHome(was, shard, hash, clients, keys[..|keys| - 1], values, id)
    ensures var (k, v) := (keys[|keys| - 1], values[|keys| - 1]);
            AtHome(was, if hash(k) % clients == id then shard[k := v] else shard, hash, clients, keys, values, id)
  {
    hide LastPairHeld;
    var m := |keys| - 1;
    var k, v := keys[m], values[m];
    var shard' := if hash(k) % clients == id then shard[k := v] else shard;
    forall p | 0 <= p < |keys| && hash(keys[p]) % clients == id
      ensures LastPairHeld(shard', keys, values, p)
    {
      if p < m {
        assert keys[..m][p] == keys[p];
      }
      HeldAfter(shard, shard', keys, values, p);
    }
    forall x | x !in keys || hash(x) % clients != id
      ensures Unchanged(was, shard', x)
    {
      FrontKeys(keys, x);
      assert Unchanged(was, shard, x);
    }
  }

  /** What is held stays so when the next pair is put, if it is put here at all. */
  lemma HeldAfter(shard: Shard, shard': Shard, keys: seq<string>, values: seq<string>, p: nat)
    requires p < |keys| <= |values|
    requires p < |keys| - 1 ==> LastPairHeld(shard, keys[..|keys| - 1], values, p)
    requires p == |keys| - 1 ==> shard' == shard[keys[p] := values[p]]
    requires shard' == shard || shard' == shard[keys[|keys| - 1] := values[|keys| - 1]]
    ensures LastPairHeld(shard', keys, values, p)
  {
    var m := |keys| - 1;
    if p < m {
      assert keys[p + 1..] == keys[..m][p + 1..] + [keys[m]];
    }
  }

  lemma FrontKeys(keys: seq<string>, x: string)
    requires keys != []
    ensures x in keys <==> x in keys[..|keys| - 1] || x == keys[|keys| - 1]
  {
    assert keys == keys[..|keys| - 1] + [keys[|keys| - 1]];
  }

  // ------------------------------------------------------------------ buckets

  /** The pairs of the batch that belong on client `id`, in batch order. */
  function Bucket(hash: Hash, clients: nat, keys: seq<string>, values: seq<string>, id: nat): seq<(string, string)>
    requires clients > 0 && |keys| <= |values|
    decreases |keys|
  {
    if keys == [] then []
    else
      var m := |keys| - 1;
      Bucket(hash, clients, keys[..m], values, id)
      + if Route(hash, clients, keys[m]) == id then [(keys[m], values[m])] else []
  }

  /** `mset` */
  function MSet(shard: Shard, pairs: seq<(string, string)>): Shard {
    if pairs == [] then shard
    else MSet(shard, pairs[..|pairs| - 1])[pairs[|pairs| - 1].0 := pairs[|pairs| - 1].1]
  }

  lemma MSetSnoc(shard: Shard, pairs: seq<(string, string)>, p: (string, string))
    ensures MSet(shard, pairs + [p]) == MSet(shard, pairs)[p.0 := p.1]
  {
    assert (pairs + [p])[..|pairs|] == pairs;
  }

  /** One `mset` per bucket, in the order in which the bucket map happens to be iterated. */
  function SetBuckets(shards: seq<Shard>, buckets: map<nat, seq<(string, string)>>, order: seq<nat>): (r: seq<Shard>)
    requires forall i :: 0 <= i < |order| ==> order[i] in buckets && order[i] < |shards|
    ensures |r| == |shards|
  {
    if order == [] then shards
    else
      var id := order[|order| - 1];
      var rest := SetBuckets(shards, buckets, order[..|order| - 1]);
      rest[id := MSet(rest[id], buckets[id])]
  }

  lemma SetBucketsSnoc(shards: seq<Shard>, buckets: map<nat, seq<(string, string)>>, order: seq<nat>, id: nat)
    requires forall i :: 0 <= i < |order| ==> order[i] in buckets && order[i] < |shards|
    requires id in buckets && id < |shards|
    ensures var rest := SetBuckets(shards, buckets, order);
            SetBuckets(shards, buckets, order + [id]) == rest[id := MSet(rest[id], buckets[id])]
  {
    assert (order + [id])[..|order|] == order;
  }

  lemma PutExtendsBucket(rest: seq<Shard>, clients: nat, hash: Hash, key: string, value: string, id: nat,
                         shard: Shard, bucket: seq<(string, string)>)
    requires id < |rest| == clients && rest[id] == MSet(shard, bucket)
    ensures Put(rest, hash, key, value)[id]
            == MSet(shard, bucket + if Route(hash, clients, key) == id then [(key, value)] else [])
  {
    var home := Route(hash, clients, key);
    if home == id {
      MSetSnoc(shard, bucket, (key, value));
    } else {
      assert bucket + [] == bucket;
    }
  }

  lemma {:induction false} ShardAfterPuts(shards: seq<Shard>, hash: Hash, keys: seq<string>, values: seq<string>,
                                          id: nat)
    requires |shards| > 0 && |keys| <= |values| && id < |shards|
    ensures PutAll(shards, hash, keys, values)[id] == MSet(shards[id], Bucket(hash, |shards|, keys, values, id))
    decreases |keys|
  {
    if keys != [] {
      var m := |keys| - 1;
      ShardAfterPuts(shards, hash, keys[..m], values, id);
      PutExtendsBucket(PutAll(shards, hash, keys[..m], values), |shards|, hash, keys[m], values[m], id,
                       shards[id], Bucket(hash, |shards|, keys[..m], values, id));
    }
  }

  lemma {:induction false} ShardAfterBuckets(shards: seq<Shard>, buckets: map<nat, seq<(string, string)>>,
                                             order: seq<nat>, id: nat)
    requires forall i :: 0 <= i < |order| ==> order[i] in buckets && order[i] < |shards|
    requires Distinct(order) && id < |shards|
    ensures SetBuckets(shards, buckets, order)[id] == if id in order then MSet(shards[id], buckets[id]) else shards[id]
  {
    if order != [] {
      var front, last := order[..|order| - 1], order[|order| - 1];
      assert order == front + [last];
      ShardAfterBuckets(shards, buckets, front, id);
    }
  }

  /** The buckets that `put_batch` builds. */
  ghost predicate Grouped(buckets: map<nat, seq<(string, string)>>, hash: Hash, clients: nat,
                          keys: seq<string>, values: seq<string>)
    requires clients > 0 && |keys| <= |values|
  {
    && (forall id: nat :: id in buckets <==> Bucket(hash, clients, keys, values, id) != [])
    && forall id :: id in buckets ==> id < clients && buckets[id] == Bucket(hash, clients, keys, values, id)
  }

  lemma NothingGrouped(hash: Hash, clients: nat, keys: seq<string>, values: seq<string>)
    requires clients > 0 && |keys| <= |values|
    ensures Grouped(map[], hash, clients, keys[..0], values)
  {
  }

  lemma GroupOne(buckets: map<nat, seq<(string, string)>>, hash: Hash, clients: nat, keys: seq<string>,
                 values: seq<string>, i: nat)
    requires clients > 0 && i < |keys| <= |values| && Grouped(buckets, hash, clients, keys[..i], values)
    ensures var id := Route(hash, clients, keys[i]);
            Grouped(buckets[id := (if id in buckets then buckets[id] else []) + [(keys[i], values[i])]], hash, clients,
                    keys[..i + 1], values)
  {
    hide Route;
    var id := Route(hash, clients, keys[i]);
    assert keys[..i + 1][..i] == keys[..i];
    forall b: nat
      ensures Bucket(hash, clients, keys[..i + 1], values, b)
              == Bucket(hash, clients, keys[..i], values, b) + if b == id then [(keys[i], values[i])] else []
    {
    }
  }

  /** If only some buckets are written, each shard is as after all puts or as before. */
  lemma WrittenShard(shards: seq<Shard>, hash: Hash, keys: seq<string>, values: seq<string>,
                     buckets: map<nat, seq<(string, string)>>, order: seq<nat>, id: nat)
    requires |shards| > 0 && |keys| <= |values| && id < |shards|
    requires Grouped(buckets, hash, |shards|, keys, values)
    requires Distinct(order) && forall i :: 0 <= i < |order| ==> order[i] in buckets && order[i] < |shards|
    ensures SetBuckets(shards, buckets, order)[id]
            == if id in order || id !in buckets then PutAll(shards, hash, keys, values)[id] else shards[id]
  {
    ShardAfterPuts(shards, hash, keys, values, id);
    ShardAfterBuckets(shards, buckets, order, id);
  }

  /** For any hash, any number of clients and any iteration order of the buckets, the bucketed
      batch leaves the same shards as putting the pairs one by one. */
  lemma BucketedEqualsSequential(shards: seq<Shard>, hash: Hash, keys: seq<string>, values: seq<string>,
                                 buckets: map<nat, seq<(string, string)>>, order: seq<nat>)
    requires |shards| > 0 && |keys| <= |values|
    requires Grouped(buckets, hash, |shards|, keys, values)
    requires Distinct(order) && forall id :: id in order <==> id in buckets
    ensures SetBuckets(shards, buckets, order) == PutAll(shards, hash, keys, values)
  {
    assert forall i :: 0 <= i < |order| ==> order[i] in order;
    forall id: nat | id < |shards|
      ensures SetBuckets(shards, buckets, order)[id] == PutAll(shards, hash, keys, values)[id]
    {
      WrittenShard(shards, hash, keys, values, buckets, order, id);
    }
  }

  /** The clients that carry out their part have it as after all puts; the others are as before. */
  ghost predicate PutWhere(was: seq<Shard>, hash: Hash, keys: seq<string>, values: seq<string>, accepted: nat -> bool,
                           shards: seq<Shard>)
    requires |was| > 0 && |keys| <= |values|
  {
    && |shards| == |was|
    && forall id: nat :: id < |was| ==>
         shards[id] == if accepted(id) then PutAll(was, hash, keys, values)[id] else was[id]
  }

  lemma KeptIsPutWhere(was: seq<Shard>, hash: Hash, keys: seq<string>, values: seq<string>,
                       buckets: map<nat, seq<(string, string)>>, accepted: nat -> bool, kept: seq<nat>)
    requires |was| > 0 && |keys| <= |values| && Grouped(buckets, hash, |was|, keys, values)
    requires Distinct(kept) && forall id :: id in kept <==> id in buckets && accepted(id)
    requires forall i :: 0 <= i < |kept| ==> kept[i] in buckets && kept[i] < |was|
    ensures PutWhere(was, hash, keys, values, accepted, SetBuckets(was, buckets, kept))
  {
    forall id: nat | id < |was|
      ensures SetBuckets(was, buckets, kept)[id]
              == if accepted(id) then PutAll(was, hash, keys, values)[id] else was[id]
    {
      WrittenShard(was, hash, keys, values, buckets, kept, id);
      ShardAfterPuts(was, hash, keys, values, id);
    }
  }

  lemma AcceptedAtHome(was: seq<Shard>, hash: Hash, keys: seq<string>, values: seq<string>, accepted: nat -> bool,
                       shards: seq<Shard>)
    requires |was| > 0 && |keys| <= |values| && PutWhere(was, hash, keys, values, accepted, shards)
    ensures |shards| == |was|
    ensures forall id: nat :: id < |was| ==>
              if accepted(id) then AtHome(was[id], shards[id], hash, |was|, keys, values, id)
              else shards[id] == was[id]
  {
    hide AtHome;
    AllAtHome(was, hash, keys, values);
  }

  lemma BucketsOfKeys(hash: Hash, clients: nat, keys: seq<string>, values: seq<string>)
    requires clients > 0 && |keys| <= |values|
    ensures forall id: nat :: Bucket(hash, clients, keys, values, id) != []
                              <==> exists k :: k in keys && hash(k) % clients == id
  {
    forall id: nat
      ensures Bucket(hash, clients, keys, values, id) != [] <==> exists k :: k in keys && hash(k) % clients == id
    {
      BucketOfKeys(hash, clients, keys, values, id);
    }
  }

  /** A client is asked exactly if some key's hash selects it. */
  lemma {:induction false} BucketOfKeys(hash: Hash, clients: nat, keys: seq<string>, values: seq<string>, id: nat)
    requires clients > 0 && |keys| <= |values|
    ensures Bucket(hash, clients, keys, values, id) != [] <==> exists k :: k in keys && hash(k) % clients == id
    decreases |keys|
  {
    if keys != [] {
      var m := |keys| - 1;
      BucketOfKeys(hash, clients, keys[..m], values, id);
      assert keys == keys[..m] + [keys[m]];
      assert keys[m] in keys;
    }
  }

  /** The clients asked so far, their replies, and those that carried out their part. */
  ghost predicate Visited(ids: set<nat>, left: set<nat>, accepted: nat -> bool, futures: seq<bool>, order: seq<nat>,
                          kept: seq<nat>)
  {
    && Distinct(order) && (forall id :: id in order <==> id in ids && id !in left)
    && |futures| == |order| && (forall i :: 0 <= i < |order| ==> futures[i] == accepted(order[i]))
    && Distinct(kept) && (forall id :: id in kept <==> id in order && accepted(id))
  }

  lemma NothingVisited(shards: seq<Shard>, buckets: map<nat, seq<(string, string)>>, accepted: nat -> bool)
    ensures Visited(buckets.Keys, buckets.Keys, accepted, [], [], []) && shards == SetBuckets(shards, buckets, [])
  {
  }

  lemma VisitOne(ids: set<nat>, left: set<nat>, accepted: nat -> bool, futures: seq<bool>, order: seq<nat>,
                 kept: seq<nat>, id: nat)
    requires Visited(ids, left, accepted, futures, order, kept) && id in left && left <= ids
    ensures Visited(ids, left - {id}, accepted, futures + [accepted(id)], order + [id],
                    if accepted(id) then kept + [id] else kept)
  {
    assert id !in order && id !in kept;
  }

  lemma AllVisited(ids: set<nat>, accepted: nat -> bool, futures: seq<bool>, order: seq<nat>, kept: seq<nat>)
    requires Visited(ids, {}, accepted, futures, order, kept)
    ensures Distinct(order) && forall id :: id in order <==> id in ids
    ensures |futures| == |order| && forall i :: 0 <= i < |order| ==> futures[i] == accepted(order[i])
    ensures Distinct(kept) && forall id :: id in kept <==> id in ids && accepted(id)
  {
  }

  // ------------------------------------------------------------------ bucketed reads

  /** The keys of the batch that live on client `id`, in batch order. */
  function KeyBucket(hash: Hash, clients: nat, keys: seq<string>, id: nat): (r: seq<string>)
    requires clients > 0
  {
    if keys == [] then []
    else
      var m := |keys| - 1;
      KeyBucket(hash, clients, keys[..m], id) + if Route(hash, clients, keys[m]) == id then [keys[m]] else []
  }

  /** The buckets that `get_batch` builds. */
  ghost predicate GroupedKeys(buckets: map<nat, seq<string>>, hash: Hash, clients: nat, keys: seq<string>)
    requires clients > 0
  {
    && (forall id :: id in buckets <==> KeyBucket(hash, clients, keys, id) != [])
    && forall id :: id in buckets ==> id < clients && buckets[id] == KeyBucket(hash, clients, keys, id)
  }

  lemma NoKeysGrouped(hash: Hash, clients: nat, keys: seq<string>)
    requires clients > 0
    ensures GroupedKeys(map[], hash, clients, keys[..0])
  {
  }

  lemma OneMoreKey(buckets: map<nat, seq<string>>, hash: Hash, clients: nat, keys: seq<string>, i: nat)
    requires clients > 0 && i < |keys| && GroupedKeys(buckets, hash, clients, keys[..i])
    ensures var id := Route(hash, clients, keys[i]);
            GroupedKeys(buckets[id := (if id in buckets then buckets[id] else []) + [keys[i]]], hash, clients,
                        keys[..i + 1])
  {
    hide Route;
    assert keys[..i + 1][..i] == keys[..i];
  }

  /** `mget`: a key that is not stored gets a null reply. */
  function MGet(shard: Shard, keys: seq<string>): (r: seq<Option<string>>)
    ensures |r| == |keys|
    ensures forall i :: 0 <= i < |keys| ==> r[i] == if keys[i] in shard then Some(shard[keys[i]]) else None
  {
    seq(|keys|, i requires 0 <= i < |keys| => if keys[i] in shard then Some(shard[keys[i]]) else None)
  }

  /** One reply per client of `order`. */
  function Replies(shards: seq<Shard>, hash: Hash, keys: seq<string>, order: seq<nat>): (r: seq<seq<Option<string>>>)
    requires |shards| > 0 && forall i :: 0 <= i < |order| ==> order[i] < |shards|
    ensures |r| == |order|
    ensures forall i :: 0 <= i < |r| ==> |r[i]| == |KeyBucket(hash, |shards|, keys, order[i])|
  {
    seq(|order|, i requires 0 <= i < |order| => MGet(shards[order[i]], KeyBucket(hash, |shards|, keys, order[i])))
  }

  lemma RepliesSnoc(shards: seq<Shard>, hash: Hash, keys: seq<string>, order: seq<nat>, id: nat)
    requires |shards| > 0 && (forall i :: 0 <= i < |order| ==> order[i] < |shards|) && id < |shards|
    ensures Replies(shards, hash, keys, order + [id])
            == Replies(shards, hash, keys, order) + [MGet(shards[id], KeyBucket(hash, |shards|, keys, id))]
  {
  }

  function Flatten<T>(parts: seq<seq<T>>): seq<T> {
    if parts == [] then [] else Flatten(parts[..|parts| - 1]) + parts[|parts| - 1]
  }

  function Strings(values: seq<string>): (s: seq<Option<string>>)
    ensures |s| == |values| && forall i :: 0 <= i < |s| ==> s[i] == Some(values[i])
  {
    seq(|values|, i requires 0 <= i < |values| => Some(values[i]))
  }

  lemma FlattenPrefix<T>(parts: seq<seq<T>>, i: nat)
    requires i < |parts|
    ensures Flatten(parts[..i + 1]) == Flatten(parts[..i]) + parts[i]
  {
    assert parts[..i + 1][..i] == parts[..i];
  }

  /** An element of a part is an element of the whole. */
  lemma {:induction false} InFlatten<T>(parts: seq<seq<T>>, i: nat, j: nat) returns (p: nat)
    requires i < |parts| && j < |parts[i]|
    ensures p < |Flatten(parts)| && Flatten(parts)[p] == parts[i][j]
  {
    var m := |parts| - 1;
    if i == m {
      p := |Flatten(parts[..m])| + j;
    } else {
      p := InFlatten(parts[..m], i, j);
    }
  }

  lemma NullAt(parts: seq<seq<Option<string>>>, i: nat, j: nat)
    requires i < |parts| && j < |parts[i]| && parts[i][j] == None
    ensures exists p :: 0 <= p < |Flatten(parts)| && Flatten(parts)[p] == None
  {
    var p := InFlatten(parts, i, j);
  }

  /** `order` enumerates the clients that hold a key of the batch. */
  ghost predicate Covering(hash: Hash, clients: nat, keys: seq<string>, order: seq<nat>)
    requires clients > 0
  {
    && Distinct(order) && (forall i :: 0 <= i < |order| ==> order[i] < clients)
    && forall id :: id in order <==> KeyBucket(hash, clients, keys, id) != []
  }

  /** How many keys of the batch the first n clients of `order` hold. */
  function Held(hash: Hash, clients: nat, keys: seq<string>, order: seq<nat>, n: nat): nat
    requires clients > 0 && n <= |order|
  {
    if n == 0 then 0 else Held(hash, clients, keys, order, n - 1) + |KeyBucket(hash, clients, keys, order[n - 1])|
  }

  lemma {:induction false} HeldSnoc(hash: Hash, clients: nat, keys: seq<string>, key: string, order: seq<nat>, n: nat)
    requires clients > 0 && n <= |order| && Distinct(order)
    ensures Held(hash, clients, keys + [key], order, n)
            == Held(hash, clients, keys, order, n) + if Route(hash, clients, key) in order[..n] then 1 else 0
  {
    if n > 0 {
      HeldSnoc(hash, clients, keys, key, order, n - 1);
      BucketSnoc(hash, clients, keys, key, order[n - 1]);
      LastIsNew(order, n, Route(hash, clients, key));
    }
  }

  lemma BucketSnoc(hash: Hash, clients: nat, keys: seq<string>, key: string, id: nat)
    requires clients > 0
    ensures |KeyBucket(hash, clients, keys + [key], id)|
            == |KeyBucket(hash, clients, keys, id)| + if Route(hash, clients, key) == id then 1 else 0
  {
    assert (keys + [key])[..|keys|] == keys;
  }

  lemma LastIsNew(order: seq<nat>, n: nat, x: nat)
    requires 0 < n <= |order| && Distinct(order)
    ensures x in order[..n] <==> x in order[..n - 1] || x == order[n - 1]
    ensures order[n - 1] !in order[..n - 1]
  {
    assert order[..n] == order[..n - 1] + [order[n - 1]];
  }

  lemma {:induction false} RoutedBucket(hash: Hash, clients: nat, keys: seq<string>, i: nat)
    requires clients > 0 && i < |keys|
    ensures keys[i] in KeyBucket(hash, clients, keys, Route(hash, clients, keys[i]))
  {
    if i < |keys| - 1 {
      RoutedBucket(hash, clients, keys[..|keys| - 1], i);
    }
  }

  lemma {:induction false} HeldTotal(hash: Hash, clients: nat, keys: seq<string>, order: seq<nat>)
    requires clients > 0 && Distinct(order)
    requires forall i :: 0 <= i < |keys| ==> Route(hash, clients, keys[i]) in order
    ensures Held(hash, clients, keys, order, |order|) == |keys|
  {
    if keys == [] {
      HeldNone(hash, clients, order, |order|);
    } else {
      var m := |keys| - 1;
      HeldTotal(hash, clients, keys[..m], order);
      assert keys == keys[..m] + [keys[m]] && order[..|order|] == order;
      HeldSnoc(hash, clients, keys[..m], keys[m], order, |order|);
    }
  }

  lemma {:induction false} HeldNone(hash: Hash, clients: nat, order: seq<nat>, n: nat)
    requires clients > 0 && n <= |order|
    ensures Held(hash, clients, [], order, n) == 0
  {
    if n > 0 {
      HeldNone(hash, clients, order, n - 1);
    }
  }

  lemma {:induction false} HeldGrows(hash: Hash, clients: nat, keys: seq<string>, order: seq<nat>, m: nat, n: nat)
    requires clients > 0 && m < n <= |order|
    requires forall i :: 0 <= i < |order| ==> KeyBucket(hash, clients, keys, order[i]) != []
    ensures Held(hash, clients, keys, order, m) < Held(hash, clients, keys, order, n)
    decreases n
  {
    if m < n - 1 {
      HeldGrows(hash, clients, keys, order, m, n - 1);
    }
  }

  lemma {:induction false} FlattenCount(shards: seq<Shard>, hash: Hash, keys: seq<string>, order: seq<nat>, n: nat)
    requires |shards| > 0 && (forall i :: 0 <= i < |order| ==> order[i] < |shards|) && n <= |order|
    ensures |Flatten(Replies(shards, hash, keys, order[..n]))| == Held(hash, |shards|, keys, order, n)
  {
    if n == 0 {
      assert Replies(shards, hash, keys, order[..0]) == [];
    } else {
      FlattenCount(shards, hash, keys, order, n - 1);
      var r := Replies(shards, hash, keys, order[..n]);
      assert r[..n - 1] == Replies(shards, hash, keys, order[..n - 1]);
    }
  }

  /** What `redis::get_batch` reads - the first half of the replies - has one value per key exactly
      when the keys live on at most one client. */
  lemma HalfIsAllExactly(shards: seq<Shard>, hash: Hash, keys: seq<string>, order: seq<nat>)
    requires |shards| > 0 && Covering(hash, |shards|, keys, order)
    ensures |Flatten(Replies(shards, hash, keys, order[..(|order| + 1) / 2]))| == |keys| <==> |order| <= 1
  {
    forall i | 0 <= i < |keys|
      ensures Route(hash, |shards|, keys[i]) in order
    {
      RoutedBucket(hash, |shards|, keys, i);
    }
    assert forall i :: 0 <= i < |order| ==> order[i] in order;
    HeldTotal(hash, |shards|, keys, order);
    var half := (|order| + 1) / 2;
    FlattenCount(shards, hash, keys, order, half);
    if half < |order| {
      HeldGrows(hash, |shards|, keys, order, half, |order|);
    }
  }

  /** If all keys live on one client, its bucket is the batch. */
  lemma {:induction false} WholeBucket(hash: Hash, clients: nat, keys: seq<string>, id: nat)
    requires clients > 0 && forall i :: 0 <= i < |keys| ==> Route(hash, clients, keys[i]) == id
    ensures KeyBucket(hash, clients, keys, id) == keys
  {
    if keys != [] {
      WholeBucket(hash, clients, keys[..|keys| - 1], id);
      assert keys == keys[..|keys| - 1] + [keys[|keys| - 1]];
    }
  }

  /** The results are those of the keys, in order, if and only if at most one client is asked. */
  lemma PositionalExactly(shards: seq<Shard>, hash: Hash, keys: seq<string>, order: seq<nat>)
    requires |shards| > 0 && Covering(hash, |shards|, keys, order)
    ensures Positional(shards, hash, keys, Flatten(Replies(shards, hash, keys, order[..(|order| + 1) / 2])))
            <==> |order| <= 1
  {
    hide KeyBucket, Flatten, Distinct;
    HalfIsAllExactly(shards, hash, keys, order);
    if |order| == 0 {
      NobodyAsked(hash, |shards|, keys, order);
      NoParts<Option<string>>();
    } else if |order| == 1 {
      assert order[..1] == order;
      OneReply(shards, hash, keys, order);
      OnePart(MGet(shards[order[0]], keys));
    }
  }

  /** One reply per key: what is stored under it, or null. */
  ghost predicate Positional(shards: seq<Shard>, hash: Hash, keys: seq<string>, r: seq<Option<string>>)
    requires |shards| > 0
  {
    |r| == |keys| && forall i :: 0 <= i < |keys| ==> r[i] == Get(shards, hash, keys[i])
  }

  lemma AskedExactly(hash: Hash, clients: nat, keys: seq<string>, order: seq<nat>)
    requires clients > 0 && Covering(hash, clients, keys, order)
    ensures forall id: nat :: id in order <==> exists k :: k in keys && hash(k) % clients == id
  {
    forall id: nat
      ensures KeyBucket(hash, clients, keys, id) != [] <==> exists k :: k in keys && hash(k) % clients == id
    {
      BucketAsked(hash, clients, keys, id);
    }
  }

  lemma BucketAsked(hash: Hash, clients: nat, keys: seq<string>, id: nat)
    requires clients > 0
    ensures KeyBucket(hash, clients, keys, id) != [] <==> exists k :: k in keys && hash(k) % clients == id
  {
    hide KeyBucket;
    var bucket := KeyBucket(hash, clients, keys, id);
    if bucket != [] {
      BucketHolds(hash, clients, keys, id, bucket[0]);
    }
    if k :| k in keys && hash(k) % clients == id {
      BucketHolds(hash, clients, keys, id, k);
    }
  }

  /** A bucket holds the keys of the batch that its client is selected for. */
  lemma {:induction false} BucketHolds(hash: Hash, clients: nat, keys: seq<string>, id: nat, k: string)
    requires clients > 0
    ensures k in KeyBucket(hash, clients, keys, id) <==> k in keys && hash(k) % clients == id
  {
    if keys != [] {
      BucketHolds(hash, clients, keys[..|keys| - 1], id, k);
      FrontKeys(keys, k);
    }
  }

  lemma RoutedIsAsked(hash: Hash, clients: nat, keys: seq<string>, order: seq<nat>, i: nat)
    requires clients > 0 && Covering(hash, clients, keys, order) && i < |keys|
    ensures Route(hash, clients, keys[i]) in order
  {
    RoutedBucket(hash, clients, keys, i);
  }

  lemma NobodyAsked(hash: Hash, clients: nat, keys: seq<string>, order: seq<nat>)
    requires clients > 0 && Covering(hash, clients, keys, order) && order == []
    ensures keys == []
  {
    if keys != [] {
      RoutedIsAsked(hash, clients, keys, order, 0);
      assert false;
    }
  }

  lemma OneReply(shards: seq<Shard>, hash: Hash, keys: seq<string>, order: seq<nat>)
    requires |shards| > 0 && Covering(hash, |shards|, keys, order) && |order| == 1
    ensures Replies(shards, hash, keys, order) == [MGet(shards[order[0]], keys)]
    ensures forall i :: 0 <= i < |keys| ==> Route(hash, |shards|, keys[i]) == order[0]
  {
    hide KeyBucket, Distinct, Route;
    forall i | 0 <= i < |keys|
      ensures Route(hash, |shards|, keys[i]) == order[0]
    {
      RoutedIsAsked(hash, |shards|, keys, order, i);
    }
    WholeBucket(hash, |shards|, keys, order[0]);
  }

  lemma NoParts<T>()
    ensures Flatten<T>([]) == []
  {
  }

  lemma OnePart<T>(part: seq<T>)
    ensures Flatten([part]) == part
  {
    assert [part][..0] == [];
  }

  lemma AtMostOne(order: seq<nat>)
    requires Distinct(order) && forall i :: 0 <= i < |order| ==> order[i] < 1
    ensures |order| <= 1
  {
    if |order| > 1 {
      FirstTwoDiffer(order);
      assert false;
    }
  }

  lemma FirstTwoDiffer(order: seq<nat>)
    requires |order| > 1 && Distinct(order)
    ensures order[0] != order[1]
  {
  }

  // ------------------------------------------------------------------ classes

  /** What a server sees: that a key is read, or that it is written. */
  datatype StoreCall = ReadCall(key: string) | WriteCall(key: string)

  function ReadCalls(keys: seq<string>): (s: seq<StoreCall>)
    ensures |s| == |keys| && forall i :: 0 <= i < |keys| ==> s[i] == ReadCall(keys[i])
  {
    seq(|keys|, i requires 0 <= i < |keys| => ReadCall(keys[i]))
  }

  function WriteCalls(keys: seq<string>): (s: seq<StoreCall>)
    ensures |s| == |keys| && forall i :: 0 <= i < |keys| ==> s[i] == WriteCall(keys[i])
  {
    seq(|keys|, i requires 0 <= i < |keys| => WriteCall(keys[i]))
  }

  lemma CallsSnoc(keys: seq<string>, i: nat)
    requires i < |keys|
    ensures ReadCalls(keys[..i + 1]) == ReadCalls(keys[..i]) + [ReadCall(keys[i])]
    ensures WriteCalls(keys[..i + 1]) == WriteCalls(keys[..i]) + [WriteCall(keys[i])]
  {
  }

  /** `rocksdb`: one request per key.  `calls` records them, in order. */
  class RocksDb {
    var shards: seq<Shard>
    const hash: Hash
    ghost var calls: seq<StoreCall>

    constructor (hash: Hash, servers: nat)
      requires servers > 0
      ensures this.hash == hash && |shards| == servers && Represents(shards, hash, map[]) && calls == []
    {
      this.hash := hash;
      shards := seq(servers, _ => map[]);
      calls := [];
    }

    /** `accepted` is the status the server returns; any other than ok is thrown. */
    method PutOne(key: string, value: string, accepted: bool) returns (r: Result<()>)
      requires |shards| > 0
      modifies this
      ensures calls == old(calls) + [WriteCall(key)]
      ensures r.Ok? <==> accepted
      ensures shards == if accepted then Put(old(shards), hash, key, value) else old(shards)
      ensures |shards| == |old(shards)|
      ensures forall id :: 0 <= id < |shards| ==>
                shards[id] == if accepted && id == hash(key) % |shards| then old(shards)[id][key := value]
                              else old(shards)[id]
    {
      var idx := Route(hash, |shards|, key);
      calls := calls + [WriteCall(key)];
      if !accepted {
        return Err("status");
      }
      shards := shards[idx := shards[idx][key := value]];
      r := Ok(());
    }

    /** The reply, or the exception for a key that is not stored. */
    method GetOne(key: string) returns (r: Result<string>)
      requires |shards| > 0
      modifies this`calls
      ensures calls == old(calls) + [ReadCall(key)]
      ensures r == match Get(shards, hash, key) case Some(v) => Ok(v) case None => Err("not found")
      ensures var shard := shards[hash(key) % |shards|];
              r == if key in shard then Ok(shard[key]) else Err("not found")
    {
      var idx := Route(hash, |shards|, key);
      calls := calls + [ReadCall(key)];
      if key in shards[idx] {
        r := Ok(shards[idx][key]);
      } else {
        r := Err("not found");
      }
    }

    /** The first request that the server does not accept ends the call; the `done` pairs before it have
        been put. */
    method PutBatch(keys: seq<string>, values: seq<string>, accepted: seq<bool>)
      returns (r: Result<()>, ghost done: nat)
      requires |shards| > 0 && |keys| <= |values| && |keys| <= |accepted|
      modifies this
      ensures done <= |keys| && (forall i :: 0 <= i < done ==> accepted[i]) && (done < |keys| ==> !accepted[done])
      ensures r.Ok? <==> done == |keys|
      ensures calls == old(calls) + WriteCalls(keys[..if done < |keys| then done + 1 else done])
      ensures shards == PutAll(old(shards), hash, keys[..done], values)
      ensures EachAtHome(old(shards), shards, hash, keys[..done], values)
    {
      hide EachAtHome, Put, PutAll, Route, WriteCalls;
      PutNone(shards, hash, keys, values);
      var i := 0;
      while i < |keys|
        invariant i <= |keys| && |shards| > 0
        invariant forall j :: 0 <= j < i ==> accepted[j]
        invariant shards == PutAll(old(shards), hash, keys[..i], values)
        invariant calls == old(calls) + WriteCalls(keys[..i])
      {
        CallsSnoc(keys, i);
        PutAllSnoc(old(shards), hash, keys, values, i);
        var one := PutOne(keys[i], values[i], accepted[i]);
        if one.Err? {
          AllAtHome(old(shards), hash, keys[..i], values);
          return one, i;
        }
        i := i + 1;
      }
      r, done := Ok(()), i;
      AllAtHome(old(shards), hash, keys[..i], values);
    }

    /** The values in the order of the keys; the first key that is not stored ends the call. */
    method GetBatch(keys: seq<string>) returns (r: Result<seq<string>>)
      requires |shards| > 0
      modifies this`calls
      ensures r.Ok? ==> calls == old(calls) + ReadCalls(keys)
      ensures r.Ok? <==> forall k :: k in keys ==> Get(shards, hash, k).Some?
      ensures r.Ok? ==> |r.value| == |keys|
                        && forall i :: 0 <= i < |keys| ==> Get(shards, hash, keys[i]) == Some(r.value[i])
      ensures r.Ok? <==> forall k :: k in keys ==> k in shards[hash(k) % |shards|]
      ensures r.Ok? ==> forall i :: 0 <= i < |keys| ==> r.value[i] == shards[hash(keys[i]) % |shards|][keys[i]]
    {
      var values: seq<string> := [];
      var i := 0;
      while i < |keys|
        invariant i <= |keys| && |values| == i && calls == old(calls) + ReadCalls(keys[..i])
        invariant forall j :: 0 <= j < i ==> Get(shards, hash, keys[j]) == Some(values[j])
      {
        CallsSnoc(keys, i);
        var one := GetOne(keys[i]);
        if one.Err? {
          assert keys[i] in keys;
          return Err(one.reason);
        }
        values := values + [one.value];
        i := i + 1;
      }
      assert keys[..|keys|] == keys;
      r := Ok(values);
    }
  }

  /** `redis::put_batch`: one `mset` per client. */
  class Redis {
    var shards: seq<Shard>
    const hash: Hash

    constructor (hash: Hash, servers: nat)
      requires servers > 0
      ensures this.hash == hash && |shards| == servers && Represents(shards, hash, map[])
    {
      this.hash := hash;
      shards := seq(servers, _ => map[]);
    }

    method Group(keys: seq<string>, values: seq<string>) returns (buckets: map<nat, seq<(string, string)>>)
      requires |shards| > 0 && |keys| <= |values|
      ensures Grouped(buckets, hash, |shards|, keys, values)
    {
      hide Route, Bucket;
      NothingGrouped(hash, |shards|, keys, values);
      buckets := map[];
      var i := 0;
      while i < |keys|
        invariant i <= |keys|
        invariant Grouped(buckets, hash, |shards|, keys[..i], values)
      {
        GroupOne(buckets, hash, |shards|, keys, values, i);
        var id := Route(hash, |shards|, keys[i]);
        buckets := buckets[id := (if id in buckets then buckets[id] else []) + [(keys[i], values[i])]];
        i := i + 1;
      }
      assert keys[..|keys|] == keys;
    }

    /** `accepted` says which clients carry out their `mset`; the iteration order of the bucket map is
        arbitrary.  An error is thrown only if it is among the replies that are read. */
    method PutBatch(keys: seq<string>, values: seq<string>, accepted: nat -> bool)
      returns (r: Result<()>, ghost order: seq<nat>)
      requires |shards| > 0 && |keys| <= |values|
      modifies this
      ensures |shards| == |old(shards)| && Distinct(order)
      ensures forall id: nat :: id in order <==> Bucket(hash, |shards|, keys, values, id) != []
      ensures PutWhere(old(shards), hash, keys, values, accepted, shards)
      ensures forall id: nat :: id < |shards| && accepted(id) ==>
                AtHome(old(shards)[id], shards[id], hash, |shards|, keys, values, id)
      ensures forall id: nat :: id < |shards| && !accepted(id) ==> shards[id] == old(shards)[id]
      ensures forall id: nat :: id in order <==> exists k :: k in keys && hash(k) % |shards| == id
      ensures r.Ok? <==> forall i :: 0 <= i < (|order| + 1) / 2 ==> accepted(order[i])
    {
      hide PutWhere, Bucket, PutAll, SetBuckets, AtHome;
      var buckets := Group(keys, values);
      ghost var kept;
      var futures;
      futures, order, kept := SendBuckets(buckets, accepted);
      KeptIsPutWhere(old(shards), hash, keys, values, buckets, accepted, kept);
      AcceptedAtHome(old(shards), hash, keys, values, accepted, shards);
      BucketsOfKeys(hash, |shards|, keys, values);
      r := Await(futures);
    }

    /** One `mset` per client. */
    method SendBuckets(buckets: map<nat, seq<(string, string)>>, accepted: nat -> bool)
      returns (futures: seq<bool>, ghost order: seq<nat>, ghost kept: seq<nat>)
      requires forall id :: id in buckets ==> id < |shards|
      modifies this
      ensures Distinct(order) && forall id :: id in order <==> id in buckets
      ensures |futures| == |order| && forall i :: 0 <= i < |order| ==> futures[i] == accepted(order[i])
      ensures Distinct(kept) && (forall id :: id in kept <==> id in buckets && accepted(id))
      ensures forall i :: 0 <= i < |kept| ==> kept[i] in buckets && kept[i] < |old(shards)|
      ensures shards == SetBuckets(old(shards), buckets, kept)
    {
      hide SetBuckets, MSet, Visited;
      var left := buckets.Keys;
      futures, order, kept := [], [], [];
      NothingVisited(old(shards), buckets, accepted);
      while left != {}
        invariant left <= buckets.Keys && |shards| == |old(shards)|
        invariant Visited(buckets.Keys, left, accepted, futures, order, kept)
        invariant forall i :: 0 <= i < |kept| ==> kept[i] in buckets && kept[i] < |shards|
        invariant shards == SetBuckets(old(shards), buckets, kept)
        decreases left
      {
        var id :| id in left;
        VisitOne(buckets.Keys, left, accepted, futures, order, kept, id);
        if accepted(id) {
          shards := shards[id := MSet(shards[id], buckets[id])];
          SetBucketsSnoc(old(shards), buckets, kept, id);
          kept := kept + [id];
        }
        futures, order := futures + [accepted(id)], order + [id];
        left := left - {id};
      }
      AllVisited(buckets.Keys, accepted, futures, order, kept);
    }

    /** The loop that waits for the replies, with the bound that shrinks with the queue. */
    static method Await(futures: seq<bool>) returns (r: Result<()>)
      ensures r.Ok? <==> forall i :: 0 <= i < (|futures| + 1) / 2 ==> futures[i]
    {
      var queue := futures;
      var i := 0;
      while i < |queue|
        invariant i <= |futures| && queue == futures[i..] && 2 * i <= |futures| + 1
        invariant forall j :: 0 <= j < i ==> futures[j]
      {
        var reply := queue[0];
        queue := queue[1..];
        if !reply {
          return Err("reply");
        }
        i := i + 1;
      }
      r := Ok(());
    }

    /** The map of keys per client that `get_batch` builds. */
    method GroupKeys(keys: seq<string>) returns (buckets: map<nat, seq<string>>)
      requires |shards| > 0
      ensures GroupedKeys(buckets, hash, |shards|, keys)
    {
      hide Route, KeyBucket;
      NoKeysGrouped(hash, |shards|, keys);
      buckets := map[];
      for i := 0 to |keys|
        invariant GroupedKeys(buckets, hash, |shards|, keys[..i])
      {
        OneMoreKey(buckets, hash, |shards|, keys, i);
        var id := Route(hash, |shards|, keys[i]);
        buckets := buckets[id := (if id in buckets then buckets[id] else []) + [keys[i]]];
      }
      assert keys[..|keys|] == keys;
    }

    /** `get_batch`; `order` is the arbitrary iteration order of the map.  A null reply is no string and
        ends the call, if it is read. */
    method GetBatch(keys: seq<string>) returns (r: Result<seq<string>>, ghost order: seq<nat>)
      requires |shards| > 0
      ensures Covering(hash, |shards|, keys, order)
      ensures forall id: nat :: id in order <==> exists k :: k in keys && hash(k) % |shards| == id
      ensures var got := Flatten(Replies(shards, hash, keys, order[..(|order| + 1) / 2]));
              && (r.Ok? <==> forall i :: 0 <= i < |got| ==> got[i].Some?)
              && (r.Ok? ==> |r.value| == |got| && forall i :: 0 <= i < |got| ==> got[i] == Some(r.value[i]))
      ensures r.Ok? ==> (Positional(shards, hash, keys, Strings(r.value)) <==> |order| <= 1)
      ensures |shards| == 1 ==>
                && (r.Ok? <==> forall i :: 0 <= i < |keys| ==> Get(shards, hash, keys[i]).Some?)
                && (r.Ok? ==> Positional(shards, hash, keys, Strings(r.value)))
    {
      hide KeyBucket, Flatten, Get, Route;
      var futures;
      futures, order := Ask(keys);
      AskedExactly(hash, |shards|, keys, order);
      var read := ReadReplies(futures);
      assert read == Replies(shards, hash, keys, order[..(|order| + 1) / 2]);
      r := Collect(read);
      PositionalExactly(shards, hash, keys, order);
      if |shards| == 1 {
        AtMostOne(order);
      }
      if r.Ok? {
        assert Strings(r.value) == Flatten(read);
      }
    }

    /** The loop over the elements of each reply. */
    static method Collect(read: seq<seq<Option<string>>>) returns (r: Result<seq<string>>)
      ensures var got := Flatten(read);
              && (r.Ok? <==> forall i :: 0 <= i < |got| ==> got[i].Some?)
              && (r.Ok? ==> |r.value| == |got| && forall i :: 0 <= i < |got| ==> got[i] == Some(r.value[i]))
    {
      var values: seq<string> := [];
      for i := 0 to |read|
        invariant Strings(values) == Flatten(read[..i])
      {
        FlattenPrefix(read, i);
        var part := Strings(values);
        for j := 0 to |read[i]|
          invariant Strings(values) == part + read[i][..j]
        {
          if read[i][j].None? {
            NullAt(read, i, j);
            return Err("not a string");
          }
          values := values + [read[i][j].value];
        }
      }
      assert read[..|read|] == read;
      assert forall i :: 0 <= i < |values| ==> Strings(values)[i] == Some(values[i]);
      r := Ok(values);
    }

    /** One `mget` per client that holds a key. */
    method Ask(keys: seq<string>) returns (futures: seq<seq<Option<string>>>, ghost order: seq<nat>)
      requires |shards| > 0
      ensures Covering(hash, |shards|, keys, order) && futures == Replies(shards, hash, keys, order)
    {
      var buckets := GroupKeys(keys);
      var left := buckets.Keys;
      futures, order := [], [];
      while left != {}
        invariant left <= buckets.Keys && Distinct(order)
        invariant forall id :: id in order <==> id in buckets && id !in left
        invariant forall i :: 0 <= i < |order| ==> order[i] < |shards|
        invariant futures == Replies(shards, hash, keys, order)
        decreases left
      {
        var id :| id in left;
        RepliesSnoc(shards, hash, keys, order, id);
        futures := futures + [MGet(shards[id], buckets[id])];
        order := order + [id];
        left := left - {id};
      }
    }

    /** The loop that waits for the replies pops one future per turn while its bound is the
        shrinking queue: of m replies it reads the first half, rounded up. */
    static method ReadReplies<T>(futures: seq<T>) returns (read: seq<T>)
      ensures read == futures[..(|futures| + 1) / 2]
    {
      read := [];
      var queue := futures;
      var i := 0;
      while i < |queue|
        invariant i <= |futures| && queue == futures[i..] && read == futures[..i]
        invariant 2 * i <= |futures| + 1
      {
        read := read + [queue[0]];
        queue := queue[1..];
        i := i + 1;
      }
    }
  }
}
