/** Between two redistributions the proxy is a key-value map: lazily propagated writes, replica
    choices and batched storage accesses are invisible to clients. */
module Refinement {
  import opened Naming
  import opened Directory
  import opened UpdateCache
  import opened Storage

  /** An operation; the empty value means get. */
  datatype Op = Op(key: string, value: string)

  /** One access of a batch, after its replica has been drawn. */
  datatype Access = Access(op: Op, isTrue: bool, replica: nat)

  /** What stays fixed between two redistributions. */
  datatype Epoch = Epoch(counts: Counts, labels: map<string, nat>, size: nat)
  {
    ghost predicate Valid() {
      Bijection(labels, counts, size) && Apart(counts)
    }

    predicate Has(a: Access) {
      a.op.key in counts && a.replica < counts[a.op.key]
    }
  }

  /** The storage key of a replica: `std::to_string` of its label. */
  function Addr(e: Epoch, k: string, j: nat): string
    requires Name(k, j) in e.labels
  {
    Decimal(e.labels[Name(k, j)])
  }

  lemma AddrDefined(e: Epoch, k: string, j: nat)
    requires e.Valid() && k in e.counts && j < e.counts[k]
    ensures Name(k, j) in e.labels
  {
    assert Name(k, j) in Names(e.counts);
  }

  lemma AddrInjective(e: Epoch, k: string, j: nat, k': string, j': nat)
    requires e.Valid() && k in e.counts && j < e.counts[k] && k' in e.counts && j' < e.counts[k']
    requires Name(k, j) in e.labels && Name(k', j') in e.labels
    requires Addr(e, k, j) == Addr(e, k', j')
    ensures k == k' && j == j'
  {
    DecimalInjective(e.labels[Name(k, j)], e.labels[Name(k', j')]);
    ApartNames(e.counts, k, j, k', j');
  }

  // ------------------------------------------------------------------ the specification

  type Logical = map<string, string>

  function MapStep(l: Logical, op: Op): Logical {
    if op.value != "" then l[op.key := op.value] else l
  }

  /** What a plain map answers: a put answers the value it wrote. */
  function MapAnswer(l: Logical, op: Op): string {
    if op.key in MapStep(l, op) then MapStep(l, op)[op.key] else ""
  }

  function MapRun(l: Logical, ops: seq<Op>): Logical {
    if ops == [] then l else MapStep(MapRun(l, ops[..|ops| - 1]), ops[|ops| - 1])
  }

  function MapAnswers(l: Logical, ops: seq<Op>): (r: seq<string>)
    ensures |r| == |ops|
  {
    if ops == [] then []
    else MapAnswers(l, ops[..|ops| - 1]) + [MapAnswer(MapRun(l, ops[..|ops| - 1]), ops[|ops| - 1])]
  }

  // ------------------------------------------------------------------ one batch

  ghost predicate Sized(e: Epoch, c: Entries) {
    forall k :: k in c ==> k in e.counts && |c[k].bits| == e.counts[k]
  }

  /** The state of the second loop of `execute_batch`: both caches, the plaintexts written so
      far to `storage_values`, which are also what the promises of true accesses receive. */
  datatype Progress = Progress(cache: Entries, missing: Entries, texts: seq<string>)

  /** The cache when the access checks for an update. */
  function Populated(e: Epoch, cache: Entries, a: Access): Entries
    requires e.Has(a)
  {
    if a.op.value != "" then PopulateReplicaUpdates(cache, a.op.key, a.op.value, e.counts[a.op.key]) else cache
  }

  /** One turn of the loop; `response` is what the batch read from storage for this access. */
  function Step(e: Epoch, p: Progress, a: Access, response: string): (p': Progress)
    requires e.Has(a)
    ensures |p'.texts| == |p.texts| + 1
  {
    var key := a.op.key;
    var (cache, update) := CheckForUpdate(Populated(e, p.cache, a), key, a.replica);
    var text := if update == "" then response else update;
    var (missing', cache') := CheckIfMissing(p.missing, key, text, cache);
    Progress(cache', missing', p.texts + [text])
  }

  function RunSteps(e: Epoch, p: Progress, accesses: seq<Access>, responses: seq<string>): (p': Progress)
    requires |responses| >= |accesses|
    requires forall i :: 0 <= i < |accesses| ==> e.Has(accesses[i])
    ensures |p'.texts| == |p.texts| + |accesses|
    decreases |accesses|
  {
    if accesses == [] then p
    else
      var n := |accesses| - 1;
      Step(e, RunSteps(e, p, accesses[..n], responses), accesses[n], responses[n])
  }

  /** The access stays inside the vectors: its replica is in the cached vector that it checks, and the
      handoff of missing replicas marks no bit past the end of the cached vector. */
  predicate InBounds(e: Epoch, p: Progress, a: Access)
    requires e.Has(a)
  {
    var key, cache := a.op.key, Populated(e, p.cache, a);
    && (key in cache ==> a.replica < |cache[key].bits|)
    && HandoffFits(CheckForUpdate(cache, key, a.replica).0, p.missing, key)
  }

  predicate HandoffFits(cache: Entries, missing: Entries, key: string) {
    key in cache && key in missing ==> LongEnough(cache[key].bits, missing[key].bits)
  }

  /** Every access of the batch stays inside the vectors it finds. */
  ghost predicate RunInBounds(e: Epoch, p: Progress, accesses: seq<Access>, responses: seq<string>)
    requires |responses| >= |accesses|
    requires forall i :: 0 <= i < |accesses| ==> e.Has(accesses[i])
    decreases |accesses|
  {
    accesses != [] ==>
      var n := |accesses| - 1;
      && RunInBounds(e, p, accesses[..n], responses)
      && InBounds(e, RunSteps(e, p, accesses[..n], responses), accesses[n])
  }

  /** The storage keys of a batch. */
  function Addrs(e: Epoch, accesses: seq<Access>): (s: seq<string>)
    requires e.Valid() && forall i :: 0 <= i < |accesses| ==> e.Has(accesses[i])
    ensures |s| == |accesses|
  {
    seq(|accesses|, i requires 0 <= i < |accesses| =>
      assert e.Has(accesses[i]);
      AddrDefined(e, accesses[i].op.key, accesses[i].replica);
      Addr(e, accesses[i].op.key, accesses[i].replica))
  }

  // ------------------------------------------------------------------ coherence

  /** What each replica of the keys ks must hold: if its update is pending the cached value is current; if
      it is not a missing replica either, the stored value is current.  Other keys, such as the dummy,
      may hold anything. */
  ghost predicate Coherent(e: Epoch, cache: Entries, missing: Entries, store: map<string, string>, l: Logical,
                           ks: set<string>)
    requires e.Valid()
  {
    && (forall k, j: nat :: k in ks && k in e.counts && j < e.counts[k] ==>
          ReplicaCoherent(e, cache, missing, store, l, k, j))
    && (forall k :: k in ks && k in e.counts ==> EntryCurrent(cache, l, k))
  }

  /** A cached value that some replica still waits for is current. */
  ghost predicate EntryCurrent(cache: Entries, l: Logical, k: string) {
    k in cache && Pending(cache, k) != {} ==> k in l && cache[k].value == l[k]
  }

  ghost predicate ReplicaCoherent(e: Epoch, cache: Entries, missing: Entries, store: map<string, string>,
                                  l: Logical, k: string, j: nat)
    requires e.Valid() && k in e.counts && j < e.counts[k]
  {
    AddrDefined(e, k, j);
    && k in l && l[k] != ""
    && if j in Pending(cache, k) then cache[k].value == l[k]
       else j in Pending(missing, k) || (Addr(e, k, j) in store && store[Addr(e, k, j)] == l[k])
  }

  /** The access reads a value that is certainly current: its update is pending, or neither was
      an update of this label consumed earlier in the batch nor is the replica missing. */
  predicate Safe(e: Epoch, p: Progress, consumed: set<string>, a: Access)
    requires e.Has(a) && Name(a.op.key, a.replica) in e.labels
  {
    || a.replica in Pending(Populated(e, p.cache, a), a.op.key)
    || (Addr(e, a.op.key, a.replica) !in consumed && a.replica !in Pending(p.missing, a.op.key))
  }

  /** The labels whose pending update an access of the batch has taken from the cache. */
  function Consumed(e: Epoch, p: Progress, accesses: seq<Access>, responses: seq<string>): set<string>
    requires e.Valid() && |responses| >= |accesses|
    requires forall i :: 0 <= i < |accesses| ==> e.Has(accesses[i])
    decreases |accesses|
  {
    if accesses == [] then {}
    else
      var n := |accesses| - 1;
      var a := accesses[n];
      assert e.Has(a);
      AddrDefined(e, a.op.key, a.replica);
      Consumed(e, p, accesses[..n], responses)
      + if a.replica in Pending(Populated(e, RunSteps(e, p, accesses[..n], responses).cache, a), a.op.key)
        then {Addr(e, a.op.key, a.replica)} else {}
  }

  /** Every access to one of the keys ks is safe. */
  ghost predicate HazardFree(e: Epoch, p: Progress, accesses: seq<Access>, responses: seq<string>, ks: set<string>)
    requires e.Valid() && |responses| >= |accesses|
    requires forall i :: 0 <= i < |accesses| ==> e.Has(accesses[i])
    decreases |accesses|
  {
    accesses != [] ==>
      var n := |accesses| - 1;
      var a := accesses[n];
      assert e.Has(a);
      AddrDefined(e, a.op.key, a.replica);
      && HazardFree(e, p, accesses[..n], responses, ks)
      && (a.op.key in ks ==>
            Safe(e, RunSteps(e, p, accesses[..n], responses), Consumed(e, p, accesses[..n], responses), a))
  }

  /** If the text of an access to one of the keys is its current value, all their replicas stay coherent. */
  lemma StepKeepsCoherence(e: Epoch, p: Progress, a: Access, response: string,
                           store: map<string, string>, l: Logical, ks: set<string>)
    requires e.Valid() && e.Has(a) && Name(a.op.key, a.replica) in e.labels
    requires Coherent(e, p.cache, p.missing, store, l, ks) && InBounds(e, p, a)
    requires var p' := Step(e, p, a, response);
             a.op.key in ks ==> p'.texts[|p.texts|] == MapAnswer(l, a.op)
    ensures var p' := Step(e, p, a, response);
            Coherent(e, p'.cache, p'.missing,
                     store[Addr(e, a.op.key, a.replica) := p'.texts[|p.texts|]], MapStep(l, a.op), ks)
  {
    var key, r := a.op.key, a.replica;
    var p', l', addr := Step(e, p, a, response), MapStep(l, a.op), Addr(e, key, r);
    var store' := store[addr := p'.texts[|p.texts|]];
    forall k, j: nat | k in ks && k in e.counts && j < e.counts[k]
      ensures ReplicaCoherent(e, p'.cache, p'.missing, store', l', k, j)
    {
      if k != key {
        OtherKeyCoherent(e, p, a, response, store, l, k, j);
      } else {
        OwnKeyCoherent(e, p, a, response, store, l, j, ks);
      }
    }
    forall k | k in ks && k in e.counts
      ensures EntryCurrent(p'.cache, l', k)
    {
      assert EntryCurrent(p.cache, l, k);
      if k != key {
        OtherKeyStays(e, p, a, response, k);
      } else {
        assert ReplicaCoherent(e, p.cache, p.missing, store, l, key, r);
        OwnEntryCurrent(e, p, a, response, l);
      }
    }
  }

  lemma OtherKeyStays(e: Epoch, p: Progress, a: Access, response: string, k: string)
    requires e.Has(a) && k != a.op.key
    ensures var p' := Step(e, p, a, response);
            && (k in p'.cache <==> k in p.cache) && (k in p.cache ==> p'.cache[k] == p.cache[k])
            && Pending(p'.cache, k) == Pending(p.cache, k) && Pending(p'.missing, k) == Pending(p.missing, k)
  {
    CheckForUpdateEffect(Populated(e, p.cache, a), a.op.key, a.replica);
  }

  lemma OtherKeyCoherent(e: Epoch, p: Progress, a: Access, response: string,
                         store: map<string, string>, l: Logical, k: string, j: nat)
    requires e.Valid() && e.Has(a) && Name(a.op.key, a.replica) in e.labels
    requires k in e.counts && j < e.counts[k] && k != a.op.key && ReplicaCoherent(e, p.cache, p.missing, store, l, k, j)
    ensures var p' := Step(e, p, a, response);
            ReplicaCoherent(e, p'.cache, p'.missing,
                            store[Addr(e, a.op.key, a.replica) := p'.texts[|p.texts|]], MapStep(l, a.op), k, j)
  {
    OtherKeyStays(e, p, a, response, k);
    AddrDefined(e, k, j);
    if Addr(e, k, j) == Addr(e, a.op.key, a.replica) {
      AddrInjective(e, k, j, a.op.key, a.replica);
    }
  }

  /** What survives the check holds the current value. */
  lemma CheckedEntryCurrent(e: Epoch, cache: Entries, a: Access, l: Logical)
    requires e.Has(a) && EntryCurrent(cache, l, a.op.key) && a.op.key in l
    ensures var cache2 := CheckForUpdate(Populated(e, cache, a), a.op.key, a.replica).0;
            a.op.key in cache2 ==> cache2[a.op.key].value == MapStep(l, a.op)[a.op.key]
  {
    var cache1 := Populated(e, cache, a);
    CheckForUpdateEffect(cache1, a.op.key, a.replica);
    assert Pending(CheckForUpdate(cache1, a.op.key, a.replica).0, a.op.key) <= Pending(cache1, a.op.key);
  }

  /** The current value of the key is in the cache after the access, if anything is. */
  lemma OwnEntryCurrent(e: Epoch, p: Progress, a: Access, response: string, l: Logical)
    requires e.Has(a) && EntryCurrent(p.cache, l, a.op.key) && a.op.key in l
    requires var p' := Step(e, p, a, response); p'.texts[|p.texts|] == MapAnswer(l, a.op)
    ensures var p' := Step(e, p, a, response);
            a.op.key in p'.cache ==> p'.cache[a.op.key].value == MapStep(l, a.op)[a.op.key]
  {
    CheckedEntryCurrent(e, p.cache, a, l);
  }

  /** The key's replicas that are still pending afterwards: those that were, without the one touched,
      and those that were missing. */
  lemma OwnPending(e: Epoch, p: Progress, a: Access, response: string, j: nat)
    requires e.Has(a) && InBounds(e, p, a)
    ensures var p' := Step(e, p, a, response);
            && a.op.key !in p'.missing
            && (j in Pending(Populated(e, p.cache, a), a.op.key) && j != a.replica ==> j in Pending(p'.cache, a.op.key))
            && (j in Pending(p.missing, a.op.key) ==> j in Pending(p'.cache, a.op.key))
  {
    var cache1 := Populated(e, p.cache, a);
    CheckForUpdateEffect(cache1, a.op.key, a.replica);
    var cache2 := CheckForUpdate(cache1, a.op.key, a.replica).0;
    assert j in Pending(cache1, a.op.key) && j != a.replica ==> j in Pending(cache2, a.op.key);
    HandoffAdds(p.missing, a.op.key, Step(e, p, a, response).texts[|p.texts|], cache2, j);
  }

  lemma HandoffAdds(missing: Entries, key: string, text: string, cache: Entries, j: nat)
    requires HandoffFits(cache, missing, key)
    ensures var (missing', cache') := CheckIfMissing(missing, key, text, cache);
            key !in missing' && (j in Pending(cache, key) || j in Pending(missing, key) ==> j in Pending(cache', key))
  {
  }

  lemma OwnKeyCoherent(e: Epoch, p: Progress, a: Access, response: string,
                       store: map<string, string>, l: Logical, j: nat, ks: set<string>)
    requires e.Valid() && e.Has(a) && Name(a.op.key, a.replica) in e.labels
    requires j < e.counts[a.op.key] && InBounds(e, p, a)
    requires Coherent(e, p.cache, p.missing, store, l, ks) && a.op.key in ks
    requires var p' := Step(e, p, a, response); p'.texts[|p.texts|] == MapAnswer(l, a.op)
    ensures var p' := Step(e, p, a, response);
            ReplicaCoherent(e, p'.cache, p'.missing,
                            store[Addr(e, a.op.key, a.replica) := p'.texts[|p.texts|]], MapStep(l, a.op),
                            a.op.key, j)
  {
    var key, r := a.op.key, a.replica;
    AddrDefined(e, key, j);
    assert ReplicaCoherent(e, p.cache, p.missing, store, l, key, j);
    assert EntryCurrent(p.cache, l, key);
    OwnEntryCurrent(e, p, a, response, l);
    OwnPending(e, p, a, response, j);
    if j !in Pending(Step(e, p, a, response).cache, key) {
      assert j == r || (a.op.value == "" && j !in Pending(p.cache, key));
      if j != r && Addr(e, key, j) == Addr(e, key, r) {
        AddrInjective(e, key, j, key, r);
      }
    }
  }

  /** Only labels whose update was consumed differ from what the batch fetched. */
  ghost predicate Fresh(store: map<string, string>, snapshot: map<string, string>, consumed: set<string>) {
    forall x :: x in snapshot && x !in consumed ==> x in store && store[x] == snapshot[x]
  }

  /** A safe access reads the current value; an unsafe one reads whatever the batch fetched. */
  lemma TextOfAccess(e: Epoch, p: Progress, a: Access, store: map<string, string>, snapshot: map<string, string>,
                     consumed: set<string>, l: Logical, ks: set<string>)
    requires e.Valid() && e.Has(a) && Name(a.op.key, a.replica) in e.labels
    requires Coherent(e, p.cache, p.missing, store, l, ks)
    requires Addr(e, a.op.key, a.replica) in snapshot && Fresh(store, snapshot, consumed)
    ensures var text := Step(e, p, a, snapshot[Addr(e, a.op.key, a.replica)]).texts[|p.texts|];
            && (a.op.key in ks && Safe(e, p, consumed, a) ==> text == MapAnswer(l, a.op))
            && (Safe(e, p, consumed, a) || text == snapshot[Addr(e, a.op.key, a.replica)])
  {
    CheckForUpdateEffect(Populated(e, p.cache, a), a.op.key, a.replica);
    assert a.op.key in ks ==> ReplicaCoherent(e, p.cache, p.missing, store, l, a.op.key, a.replica);
  }

  /** The exact effect of one access to one of the keys: it answers like the map, and every replica stays coherent,
      if and only if it is safe or the fetched text happens to be the current value. */
  lemma StepExact(e: Epoch, p: Progress, a: Access, store: map<string, string>, snapshot: map<string, string>,
                  consumed: set<string>, l: Logical, ks: set<string>)
    requires e.Valid() && e.Has(a) && Name(a.op.key, a.replica) in e.labels
    requires Coherent(e, p.cache, p.missing, store, l, ks) && InBounds(e, p, a) && a.op.key in ks
    requires Addr(e, a.op.key, a.replica) in snapshot && Fresh(store, snapshot, consumed)
    ensures var addr := Addr(e, a.op.key, a.replica);
            var p' := Step(e, p, a, snapshot[addr]);
            var text := p'.texts[|p.texts|];
            && text == MapAnswer(l, a.op)
            && Coherent(e, p'.cache, p'.missing, store[addr := text], MapStep(l, a.op), ks)
            <==> Safe(e, p, consumed, a) || snapshot[addr] == MapAnswer(l, a.op)
  {
    var addr := Addr(e, a.op.key, a.replica);
    TextOfAccess(e, p, a, store, snapshot, consumed, l, ks);
    if Step(e, p, a, snapshot[addr]).texts[|p.texts|] == MapAnswer(l, a.op) {
      StepKeepsCoherence(e, p, a, snapshot[addr], store, l, ks);
    }
  }

  // ------------------------------------------------------------------ whole batches

  /** The proxy's data between two batches. */
  datatype World = World(cache: Entries, missing: Entries, store: map<string, string>)

  function Ops(accesses: seq<Access>): (s: seq<Op>)
    ensures |s| == |accesses|
  {
    seq(|accesses|, i requires 0 <= i < |accesses| => accesses[i].op)
  }

  ghost predicate Playable(e: Epoch, w: World, accesses: seq<Access>) {
    && e.Valid()
    && (forall i :: 0 <= i < |accesses| ==> e.Has(accesses[i]))
    && (forall k, j: nat :: k in e.counts && j < e.counts[k] ==> AddrStored(e, w.store, k, j))
  }

  ghost predicate AddrStored(e: Epoch, store: map<string, string>, k: string, j: nat)
    requires e.Valid() && k in e.counts && j < e.counts[k]
  {
    AddrDefined(e, k, j);
    Addr(e, k, j) in store
  }

  /** `get_batch` before the loop. */
  function Responses(e: Epoch, store: map<string, string>, accesses: seq<Access>): (s: seq<string>)
    requires e.Valid() && forall i :: 0 <= i < |accesses| ==> e.Has(accesses[i])
    requires forall i :: 0 <= i < |accesses| ==> Addrs(e, accesses)[i] in store
    ensures |s| == |accesses|
  {
    seq(|accesses|, i requires 0 <= i < |accesses| => store[Addrs(e, accesses)[i]])
  }

  lemma AddrsStored(e: Epoch, w: World, accesses: seq<Access>)
    requires Playable(e, w, accesses)
    ensures forall i :: 0 <= i < |accesses| ==> Addrs(e, accesses)[i] in w.store
  {
    forall i | 0 <= i < |accesses|
      ensures Addrs(e, accesses)[i] in w.store
    {
      assert e.Has(accesses[i]);
      assert AddrStored(e, w.store, accesses[i].op.key, accesses[i].replica);
    }
  }

  ghost function Played(e: Epoch, w: World, accesses: seq<Access>): (p: Progress)
    requires Playable(e, w, accesses)
    ensures |p.texts| == |accesses|
  {
    AddrsStored(e, w, accesses);
    RunSteps(e, Progress(w.cache, w.missing, []), accesses, Responses(e, w.store, accesses))
  }

  /** `execute_batch`: read once, run the loop, write once. */
  ghost function AfterBatch(e: Epoch, w: World, accesses: seq<Access>): World
    requires Playable(e, w, accesses)
  {
    var p := Played(e, w, accesses);
    World(p.cache, p.missing, Overwritten(w.store, Addrs(e, accesses), p.texts))
  }

  ghost predicate BatchHazardFree(e: Epoch, w: World, accesses: seq<Access>, ks: set<string>)
    requires Playable(e, w, accesses)
  {
    AddrsStored(e, w, accesses);
    HazardFree(e, Progress(w.cache, w.missing, []), accesses, Responses(e, w.store, accesses), ks)
  }

  ghost predicate BatchInBounds(e: Epoch, w: World, accesses: seq<Access>)
    requires Playable(e, w, accesses)
  {
    AddrsStored(e, w, accesses);
    RunInBounds(e, Progress(w.cache, w.missing, []), accesses, Responses(e, w.store, accesses))
  }

  /** One turn of the loop, safe if it accesses one of the keys, on whatever state the earlier turns
      left. */
  lemma LoopTurn(e: Epoch, p: Progress, a: Access, store: map<string, string>, snapshot: map<string, string>,
                 consumed: set<string>, l: Logical, ks: set<string>)
    requires e.Valid() && e.Has(a) && Name(a.op.key, a.replica) in e.labels
    requires Coherent(e, p.cache, p.missing, store, l, ks) && InBounds(e, p, a)
    requires Addr(e, a.op.key, a.replica) in snapshot && Fresh(store, snapshot, consumed)
    requires a.op.key in ks ==> Safe(e, p, consumed, a)
    ensures var addr := Addr(e, a.op.key, a.replica);
            var p' := Step(e, p, a, snapshot[addr]);
            var text := p'.texts[|p.texts|];
            var store' := store[addr := text];
            && p'.texts == p.texts + [text] && (a.op.key in ks ==> text == MapAnswer(l, a.op))
            && Coherent(e, p'.cache, p'.missing, store', MapStep(l, a.op), ks)
            && Fresh(store', snapshot,
                     consumed + if a.replica in Pending(Populated(e, p.cache, a), a.op.key) then {addr} else {})
  {
    var addr := Addr(e, a.op.key, a.replica);
    TextOfAccess(e, p, a, store, snapshot, consumed, l, ks);
    StepKeepsCoherence(e, p, a, snapshot[addr], store, l, ks);
    CheckForUpdateEffect(Populated(e, p.cache, a), a.op.key, a.replica);
  }

  /** The texts of accesses to the keys are what the map answers. */
  ghost predicate Answers(l: Logical, ks: set<string>, accesses: seq<Access>, texts: seq<string>) {
    |texts| == |accesses| && forall i :: 0 <= i < |accesses| ==> Answered(l, ks, accesses, texts, i)
  }

  ghost predicate Answered(l: Logical, ks: set<string>, accesses: seq<Access>, texts: seq<string>, i: nat)
    requires i < |accesses| == |texts|
  {
    accesses[i].op.key in ks ==> texts[i] == MapAnswers(l, Ops(accesses))[i]
  }

  lemma TextIsAnswer(l: Logical, ks: set<string>, accesses: seq<Access>, texts: seq<string>, i: nat)
    requires Answers(l, ks, accesses, texts) && i < |accesses| && accesses[i].op.key in ks
    ensures texts[i] == MapAnswers(l, Ops(accesses))[i]
  {
    assert Answered(l, ks, accesses, texts, i);
  }

  lemma AnswersSnoc(l: Logical, ks: set<string>, accesses: seq<Access>, texts: seq<string>, text: string)
    requires accesses != [] && Answers(l, ks, accesses[..|accesses| - 1], texts)
    requires var (n, a) := (|accesses| - 1, accesses[|accesses| - 1]);
             a.op.key in ks ==> text == MapAnswer(MapRun(l, Ops(accesses[..n])), a.op)
    ensures Answers(l, ks, accesses, texts + [text])
  {
    AnswersNext(l, accesses);
    forall i | 0 <= i < |accesses|
      ensures Answered(l, ks, accesses, texts + [text], i)
    {
      assert i < |accesses| - 1 ==> Answered(l, ks, accesses[..|accesses| - 1], texts, i);
    }
  }

  /** What holds after n turns: the texts of the keys are the map's answers, their replicas are coherent with
      storage as if the texts so far had been written, and the labels whose update was not
      consumed still store what was fetched. */
  ghost predicate LoopInvariant(e: Epoch, w: World, accesses: seq<Access>, responses: seq<string>, l: Logical,
                                ks: set<string>)
    requires e.Valid() && |responses| >= |accesses|
    requires forall i :: 0 <= i < |accesses| ==> e.Has(accesses[i])
  {
    var p0 := Progress(w.cache, w.missing, []);
    var p := RunSteps(e, p0, accesses, responses);
    var store := Overwritten(w.store, Addrs(e, accesses), p.texts);
    && Answers(l, ks, accesses, p.texts)
    && Coherent(e, p.cache, p.missing, store, MapRun(l, Ops(accesses)), ks)
    && Fresh(store, w.store, Consumed(e, p0, accesses, responses))
  }

  /** One turn takes the invariant of the earlier accesses to that of all. */
  lemma LoopNext(e: Epoch, w: World, accesses: seq<Access>, responses: seq<string>, l: Logical, ks: set<string>)
    requires e.Valid() && |responses| >= |accesses| > 0
    requires forall i :: 0 <= i < |accesses| ==> e.Has(accesses[i])
    requires forall i :: 0 <= i < |accesses| ==>
               Addrs(e, accesses)[i] in w.store && responses[i] == w.store[Addrs(e, accesses)[i]]
    requires HazardFree(e, Progress(w.cache, w.missing, []), accesses, responses, ks)
    requires RunInBounds(e, Progress(w.cache, w.missing, []), accesses, responses)
    requires LoopInvariant(e, w, accesses[..|accesses| - 1], responses, l, ks)
    ensures LoopInvariant(e, w, accesses, responses, l, ks)
  {
    hide Bijection, Safe, InBounds, Step, MapAnswers, Coherent, Answers;
    var p0, n := Progress(w.cache, w.missing, []), |accesses| - 1;
    var front, a := accesses[..n], accesses[n];
    assert e.Has(a);
    AddrsFront(e, accesses);
    AddrDefined(e, a.op.key, a.replica);
    var p := RunSteps(e, p0, front, responses);
    assert Addr(e, a.op.key, a.replica) == Addrs(e, accesses)[n];
    var l1 := MapRun(l, Ops(front));
    AnswersNext(l, accesses);
    LoopTurn(e, p, a, Overwritten(w.store, Addrs(e, front), p.texts), w.store, Consumed(e, p0, front, responses), l1,
             ks);
    assert RunSteps(e, p0, accesses, responses) == Step(e, p, a, responses[n]);
    AnswersSnoc(l, ks, accesses, p.texts, Step(e, p, a, responses[n]).texts[n]);
    StoreNext(e, w.store, accesses, p.texts, Step(e, p, a, responses[n]).texts[n]);
  }

  lemma AnswersNext(l: Logical, accesses: seq<Access>)
    requires accesses != []
    ensures var n := |accesses| - 1;
            var l1 := MapRun(l, Ops(accesses[..n]));
            && MapRun(l, Ops(accesses)) == MapStep(l1, accesses[n].op)
            && MapAnswers(l, Ops(accesses)) == MapAnswers(l, Ops(accesses[..n])) + [MapAnswer(l1, accesses[n].op)]
  {
    assert Ops(accesses)[..|accesses| - 1] == Ops(accesses[..|accesses| - 1]);
  }

  lemma StoreNext(e: Epoch, store: map<string, string>, accesses: seq<Access>, texts: seq<string>, text: string)
    requires e.Valid() && accesses != [] && |texts| == |accesses| - 1
    requires forall i :: 0 <= i < |accesses| ==> e.Has(accesses[i])
    ensures Overwritten(store, Addrs(e, accesses), texts + [text])
            == Overwritten(store, Addrs(e, accesses[..|accesses| - 1]),
                           texts)[Addrs(e, accesses)[|accesses| - 1] := text]
  {
    AddrsFront(e, accesses);
    OverwrittenPrefix(store, Addrs(e, accesses[..|accesses| - 1]), texts, texts + [text]);
  }

  lemma {:induction false} LoopHolds(e: Epoch, w: World, accesses: seq<Access>, responses: seq<string>, l: Logical,
                                     ks: set<string>)
    requires e.Valid() && |responses| >= |accesses|
    requires forall i :: 0 <= i < |accesses| ==> e.Has(accesses[i])
    requires Coherent(e, w.cache, w.missing, w.store, l, ks)
    requires forall i :: 0 <= i < |accesses| ==>
               Addrs(e, accesses)[i] in w.store && responses[i] == w.store[Addrs(e, accesses)[i]]
    requires HazardFree(e, Progress(w.cache, w.missing, []), accesses, responses, ks)
    requires RunInBounds(e, Progress(w.cache, w.missing, []), accesses, responses)
    ensures LoopInvariant(e, w, accesses, responses, l, ks)
    decreases |accesses|
  {
    hide Marked;
    if accesses != [] {
      AddrsFront(e, accesses);
      LoopHolds(e, w, accesses[..|accesses| - 1], responses, l, ks);
      LoopNext(e, w, accesses, responses, l, ks);
    }
  }

  lemma AddrsFront(e: Epoch, accesses: seq<Access>)
    requires e.Valid() && accesses != [] && forall i :: 0 <= i < |accesses| ==> e.Has(accesses[i])
    ensures Addrs(e, accesses)[..|accesses| - 1] == Addrs(e, accesses[..|accesses| - 1])
    ensures forall i :: 0 <= i < |accesses| - 1 ==> Addrs(e, accesses)[i] == Addrs(e, accesses[..|accesses| - 1])[i]
  {
  }

  lemma {:induction false} OverwrittenPrefix(m: map<string, string>, keys: seq<string>, v: seq<string>, w: seq<string>)
    requires |keys| <= |v| && |keys| <= |w| && forall i :: 0 <= i < |keys| ==> v[i] == w[i]
    ensures Overwritten(m, keys, v) == Overwritten(m, keys, w)
    decreases |keys|
  {
    if keys != [] {
      OverwrittenPrefix(m, keys[..|keys| - 1], v, w);
    }
  }

  lemma {:induction false} OverwrittenKeepsKeys(m: map<string, string>, keys: seq<string>, v: seq<string>)
    requires |keys| <= |v|
    ensures m.Keys <= Overwritten(m, keys, v).Keys
    decreases |keys|
  {
    if keys != [] {
      OverwrittenKeepsKeys(m, keys[..|keys| - 1], v);
    }
  }

  /** One batch that is hazard-free for the keys answers every access to them like the map, and leaves their
      replicas coherent with the map's new state. */
  lemma BatchRefines(e: Epoch, w: World, accesses: seq<Access>, l: Logical, ks: set<string>)
    requires Playable(e, w, accesses) && BatchInBounds(e, w, accesses) && BatchHazardFree(e, w, accesses, ks)
    requires Coherent(e, w.cache, w.missing, w.store, l, ks)
    ensures Answers(l, ks, accesses, Played(e, w, accesses).texts)
    ensures var w' := AfterBatch(e, w, accesses);
            Coherent(e, w'.cache, w'.missing, w'.store, MapRun(l, Ops(accesses)), ks)
  {
    AddrsStored(e, w, accesses);
    LoopHolds(e, w, accesses, Responses(e, w.store, accesses), l, ks);
  }

  lemma StoreKept(e: Epoch, w: World, accesses: seq<Access>)
    requires Playable(e, w, accesses)
    ensures Playable(e, AfterBatch(e, w, accesses), [])
  {
    OverwrittenKeepsKeys(w.store, Addrs(e, accesses), Played(e, w, accesses).texts);
    forall k, j: nat | k in e.counts && j < e.counts[k]
      ensures AddrStored(e, AfterBatch(e, w, accesses).store, k, j)
    {
      assert AddrStored(e, w.store, k, j);
    }
  }

  // ------------------------------------------------------------------ whole runs

  ghost predicate RunPlayable(e: Epoch, w: World, batches: seq<seq<Access>>) {
    Playable(e, w, []) && forall b, i :: 0 <= b < |batches| && 0 <= i < |batches[b]| ==> e.Has(batches[b][i])
  }

  ghost function AfterRun(e: Epoch, w: World, batches: seq<seq<Access>>): (w': World)
    requires RunPlayable(e, w, batches)
    ensures Playable(e, w', [])
  {
    if batches == [] then w
    else
      var b := |batches| - 1;
      var w' := AfterRun(e, w, batches[..b]);
      StoreKept(e, w', batches[b]);
      AfterBatch(e, w', batches[b])
  }

  ghost predicate RunHazardFree(e: Epoch, w: World, batches: seq<seq<Access>>, ks: set<string>)
    requires RunPlayable(e, w, batches)
  {
    batches != [] ==>
      var b := |batches| - 1;
      RunHazardFree(e, w, batches[..b], ks) && BatchHazardFree(e, AfterRun(e, w, batches[..b]), batches[b], ks)
  }

  ghost predicate AllInBounds(e: Epoch, w: World, batches: seq<seq<Access>>)
    requires RunPlayable(e, w, batches)
  {
    batches != [] ==>
      var b := |batches| - 1;
      AllInBounds(e, w, batches[..b]) && BatchInBounds(e, AfterRun(e, w, batches[..b]), batches[b])
  }

  /** All texts of the run, batch after batch. */
  ghost function Texts(e: Epoch, w: World, batches: seq<seq<Access>>): seq<string>
    requires RunPlayable(e, w, batches)
  {
    if batches == [] then []
    else
      var b := |batches| - 1;
      Texts(e, w, batches[..b]) + Played(e, AfterRun(e, w, batches[..b]), batches[b]).texts
  }

  function Flat(batches: seq<seq<Access>>): seq<Access> {
    if batches == [] then [] else Flat(batches[..|batches| - 1]) + batches[|batches| - 1]
  }

  lemma MapRunSnoc(l: Logical, ops: seq<Op>, op: Op)
    ensures MapRun(l, ops + [op]) == MapStep(MapRun(l, ops), op)
    ensures MapAnswers(l, ops + [op]) == MapAnswers(l, ops) + [MapAnswer(MapRun(l, ops), op)]
  {
    assert (ops + [op])[..|ops|] == ops;
  }

  lemma Regroup<T>(a: seq<T>, b: seq<T>, x: T)
    ensures a + (b + [x]) == (a + b) + [x]
  {
  }

  lemma {:induction false} MapRunConcat(l: Logical, a: seq<Op>, b: seq<Op>)
    ensures MapRun(l, a + b) == MapRun(MapRun(l, a), b)
    ensures MapAnswers(l, a + b) == MapAnswers(l, a) + MapAnswers(MapRun(l, a), b)
    decreases |b|
  {
    if b == [] {
      assert a + b == a;
    } else {
      hide MapRun, MapAnswers, MapStep, MapAnswer;
      var front, op := b[..|b| - 1], b[|b| - 1];
      MapRunConcat(l, a, front);
      MapRunSnoc(l, a + front, op);
      MapRunSnoc(MapRun(l, a), front, op);
      assert b == front + [op];
      Regroup(a, front, op);
      Regroup(MapAnswers(l, a), MapAnswers(MapRun(l, a), front), MapAnswer(MapRun(l, a + front), op));
    }
  }

  lemma AnswersExtend(l: Logical, before: seq<Access>, batch: seq<Access>)
    ensures MapRun(l, Ops(before + batch)) == MapRun(MapRun(l, Ops(before)), Ops(batch))
    ensures MapAnswers(l, Ops(before + batch))
            == MapAnswers(l, Ops(before)) + MapAnswers(MapRun(l, Ops(before)), Ops(batch))
  {
    assert Ops(before + batch) == Ops(before) + Ops(batch);
    MapRunConcat(l, Ops(before), Ops(batch));
  }

  lemma AnswersConcat(l: Logical, ks: set<string>, a: seq<Access>, u: seq<string>, b: seq<Access>, v: seq<string>)
    requires Answers(l, ks, a, u) && Answers(MapRun(l, Ops(a)), ks, b, v)
    ensures Answers(l, ks, a + b, u + v)
  {
    AnswersExtend(l, a, b);
    forall i | 0 <= i < |a + b|
      ensures Answered(l, ks, a + b, u + v, i)
    {
      if i < |a| {
        assert Answered(l, ks, a, u, i);
      } else {
        assert Answered(MapRun(l, Ops(a)), ks, b, v, i - |a|);
      }
    }
  }

  /** The refinement theorem.  Over any run of batches that is hazard-free for the keys, every access to
      them - of a client, of the fake distribution or sampled - gets exactly the answer of one plain map
      that executes all operations in the same order, and their replicas stay coherent with that map. */
  lemma {:induction false} RunRefines(e: Epoch, w: World, batches: seq<seq<Access>>, l: Logical, ks: set<string>)
    requires RunPlayable(e, w, batches) && AllInBounds(e, w, batches) && RunHazardFree(e, w, batches, ks)
    requires Coherent(e, w.cache, w.missing, w.store, l, ks)
    ensures Answers(l, ks, Flat(batches), Texts(e, w, batches))
    ensures var w' := AfterRun(e, w, batches);
            Coherent(e, w'.cache, w'.missing, w'.store, MapRun(l, Ops(Flat(batches))), ks)
  {
    if batches != [] {
      var b := |batches| - 1;
      RunRefines(e, w, batches[..b], l, ks);
      var before := Flat(batches[..b]);
      AnswersExtend(l, before, batches[b]);
      BatchRefines(e, AfterRun(e, w, batches[..b]), batches[b], MapRun(l, Ops(before)), ks);
      AnswersConcat(l, ks, before, Texts(e, w, batches[..b]), batches[b],
                    Played(e, AfterRun(e, w, batches[..b]), batches[b]).texts);
    }
  }

  // ------------------------------------------------------------------ what clients see

  /** Operations of true accesses, and the texts their promises receive. */
  function TrueOps(accesses: seq<Access>): seq<Op> {
    if accesses == [] then []
    else TrueOps(accesses[..|accesses| - 1])
         + if accesses[|accesses| - 1].isTrue then [accesses[|accesses| - 1].op] else []
  }

  function Delivered(accesses: seq<Access>, texts: seq<string>): seq<string>
    requires |texts| >= |accesses|
    decreases |accesses|
  {
    if accesses == [] then []
    else Delivered(accesses[..|accesses| - 1], texts)
         + if accesses[|accesses| - 1].isTrue then [texts[|accesses| - 1]] else []
  }

  lemma {:induction false} DeliveredPrefix(accesses: seq<Access>, v: seq<string>, w: seq<string>)
    requires |v| >= |accesses| && |w| >= |accesses| && forall i :: 0 <= i < |accesses| ==> v[i] == w[i]
    ensures Delivered(accesses, v) == Delivered(accesses, w)
    decreases |accesses|
  {
    if accesses != [] {
      DeliveredPrefix(accesses[..|accesses| - 1], v, w);
    }
  }

  lemma RunNothing(e: Epoch, p: Progress, accesses: seq<Access>, responses: seq<string>)
    requires |responses| >= |accesses|
    ensures RunSteps(e, p, accesses[..0], responses) == p && Delivered(accesses[..0], []) == []
  {
  }

  /** One turn of the second loop, on what the earlier turns left. */
  lemma TurnRuns(e: Epoch, p: Progress, accesses: seq<Access>, responses: seq<string>, i: nat)
    requires i < |accesses| <= |responses| && forall j :: 0 <= j < |accesses| ==> e.Has(accesses[j])
    ensures forall j :: 0 <= j < i ==> e.Has(accesses[..i][j])
    ensures var next := accesses[..i + 1]; forall j :: 0 <= j <= i ==> e.Has(next[j])
    ensures RunSteps(e, p, accesses[..i + 1], responses)
            == Step(e, RunSteps(e, p, accesses[..i], responses), accesses[i], responses[i])
  {
    assert accesses[..i + 1][..i] == accesses[..i];
  }

  lemma {:induction false} TurnInBounds(e: Epoch, p: Progress, accesses: seq<Access>, responses: seq<string>, i: nat)
    requires i < |accesses| <= |responses| && forall j :: 0 <= j < |accesses| ==> e.Has(accesses[j])
    requires RunInBounds(e, p, accesses, responses)
    ensures forall j :: 0 <= j < i ==> e.Has(accesses[..i][j])
    ensures InBounds(e, RunSteps(e, p, accesses[..i], responses), accesses[i])
    decreases |accesses|
  {
    hide RunSteps;
    var n := |accesses| - 1;
    if i < n {
      TurnInBounds(e, p, accesses[..n], responses, i);
      assert accesses[..n][..i] == accesses[..i];
    }
  }

  lemma DeliveredNext(accesses: seq<Access>, texts: seq<string>, text: string, i: nat)
    requires |texts| == i < |accesses|
    ensures Delivered(accesses[..i + 1], texts + [text])
            == Delivered(accesses[..i], texts) + if accesses[i].isTrue then [text] else []
  {
    assert accesses[..i + 1][..i] == accesses[..i];
    DeliveredPrefix(accesses[..i], texts, texts + [text]);
  }

  /** Fake, dummy and sampled accesses carry no value, so clients see exactly the map that executes
      the client operations alone. */
  lemma {:induction false} ClientsSeeTheMap(l: Logical, accesses: seq<Access>)
    requires forall i :: 0 <= i < |accesses| && !accesses[i].isTrue ==> accesses[i].op.value == ""
    ensures Delivered(accesses, MapAnswers(l, Ops(accesses))) == MapAnswers(l, TrueOps(accesses))
    ensures MapRun(l, Ops(accesses)) == MapRun(l, TrueOps(accesses))
    decreases |accesses|
  {
    if accesses != [] {
      var n := |accesses| - 1;
      var front, a := accesses[..n], accesses[n];
      assert accesses == front + [a];
      ClientsSeeTheMap(l, front);
      AnswersExtend(l, front, [a]);
      assert Ops([a]) == [a.op];
      SingleAnswer(MapRun(l, Ops(front)), a.op);
      DeliveredPrefix(front, MapAnswers(l, Ops(front)), MapAnswers(l, Ops(accesses)));
      MapRunConcat(l, TrueOps(front), if a.isTrue then [a.op] else []);
    }
  }

  /** If clients use the keys ks only, their promises receive what that map answers. */
  lemma ClientsAnswered(l: Logical, ks: set<string>, accesses: seq<Access>, texts: seq<string>)
    requires forall i :: 0 <= i < |accesses| && !accesses[i].isTrue ==> accesses[i].op.value == ""
    requires Answers(l, ks, accesses, texts) && TrueWithin(accesses, ks)
    ensures Delivered(accesses, texts) == MapAnswers(l, TrueOps(accesses))
    ensures MapRun(l, Ops(accesses)) == MapRun(l, TrueOps(accesses))
  {
    forall i | 0 <= i < |accesses| && accesses[i].isTrue
      ensures texts[i] == MapAnswers(l, Ops(accesses))[i]
    {
      assert Answered(l, ks, accesses, texts, i);
    }
    DeliveredAgree(accesses, texts, MapAnswers(l, Ops(accesses)));
    ClientsSeeTheMap(l, accesses);
  }

  /** Client operations use the keys ks. */
  ghost predicate TrueWithin(accesses: seq<Access>, ks: set<string>) {
    forall i :: 0 <= i < |accesses| && accesses[i].isTrue ==> accesses[i].op.key in ks
  }

  lemma {:induction false} DeliveredAgree(accesses: seq<Access>, v: seq<string>, w: seq<string>)
    requires |v| >= |accesses| && |w| >= |accesses|
    requires forall i :: 0 <= i < |accesses| && accesses[i].isTrue ==> v[i] == w[i]
    ensures Delivered(accesses, v) == Delivered(accesses, w)
    decreases |accesses|
  {
    if accesses != [] {
      DeliveredAgree(accesses[..|accesses| - 1], v, w);
    }
  }

  lemma SingleAnswer(l: Logical, op: Op)
    ensures MapAnswers(l, [op]) == [MapAnswer(l, op)] && MapRun(l, [op]) == MapStep(l, op)
  {
    assert [op][..0] == [];
  }

  // ------------------------------------------------------------------ when batches are hazard-free

  /** No replica of these keys occurs twice. */
  ghost predicate NoneTwice(accesses: seq<Access>, ks: set<string>) {
    forall i, j :: 0 <= i < j < |accesses| && accesses[i].op.key in ks ==>
      accesses[i].op.key != accesses[j].op.key || accesses[i].replica != accesses[j].replica
  }

  /** And none of them is missing. */
  ghost predicate Calm(w: World, accesses: seq<Access>, ks: set<string>) {
    && NoneTwice(accesses, ks)
    && forall i :: 0 <= i < |accesses| && accesses[i].op.key in ks ==>
         accesses[i].replica !in Pending(w.missing, accesses[i].op.key)
  }

  lemma {:induction false} MissingOnlyShrinks(e: Epoch, p: Progress, accesses: seq<Access>, responses: seq<string>)
    requires |responses| >= |accesses|
    requires forall i :: 0 <= i < |accesses| ==> e.Has(accesses[i])
    ensures var p' := RunSteps(e, p, accesses, responses);
            forall k :: k in p'.missing ==> k in p.missing && p'.missing[k] == p.missing[k]
    decreases |accesses|
  {
    if accesses != [] {
      MissingOnlyShrinks(e, p, accesses[..|accesses| - 1], responses);
    }
  }

  lemma {:induction false} ConsumedIsTouched(e: Epoch, p: Progress, accesses: seq<Access>, responses: seq<string>,
                                             x: string)
    requires e.Valid() && |responses| >= |accesses|
    requires forall i :: 0 <= i < |accesses| ==> e.Has(accesses[i])
    requires x in Consumed(e, p, accesses, responses)
    ensures exists i :: 0 <= i < |accesses| && Addrs(e, accesses)[i] == x
    decreases |accesses|
  {
    var n := |accesses| - 1;
    AddrsFront(e, accesses);
    assert e.Has(accesses[n]);
    if x in Consumed(e, p, accesses[..n], responses) {
      ConsumedIsTouched(e, p, accesses[..n], responses, x);
      var i :| 0 <= i < n && Addrs(e, accesses[..n])[i] == x;
      assert Addrs(e, accesses)[i] == x;
    } else {
      assert Addrs(e, accesses)[n] == x;
    }
  }

  lemma {:induction false} CalmSteps(e: Epoch, w: World, accesses: seq<Access>, responses: seq<string>, ks: set<string>)
    requires e.Valid() && |responses| >= |accesses|
    requires forall i :: 0 <= i < |accesses| ==> e.Has(accesses[i])
    requires Calm(w, accesses, ks)
    ensures HazardFree(e, Progress(w.cache, w.missing, []), accesses, responses, ks)
    decreases |accesses|
  {
    if accesses != [] {
      var p0, n := Progress(w.cache, w.missing, []), |accesses| - 1;
      var front, a := accesses[..n], accesses[n];
      CalmSteps(e, w, front, responses, ks);
      MissingOnlyShrinks(e, p0, front, responses);
      assert e.Has(a);
      AddrDefined(e, a.op.key, a.replica);
      var x := Addr(e, a.op.key, a.replica);
      if x in Consumed(e, p0, front, responses) && a.op.key in ks {
        ConsumedIsTouched(e, p0, front, responses, x);
        var i :| 0 <= i < n && Addrs(e, front)[i] == x;
        assert e.Has(accesses[i]) && front[i] == accesses[i];
        AddrDefined(e, accesses[i].op.key, accesses[i].replica);
        AddrInjective(e, accesses[i].op.key, accesses[i].replica, a.op.key, a.replica);
      }
      assert a.op.key in ks ==> a.replica !in Pending(w.missing, a.op.key);
    }
  }

  /** Client accesses never meet a missing replica: `sample_a_replica` draws them from the leading
      zeros, which are not pending. */
  lemma ClientReplicaNotMissing(missing: Entries, key: string, j: nat)
    requires key in missing ==> j < LeadingZeros(missing[key].bits)
    ensures j !in Pending(missing, key)
  {
  }

  /** No replica of these keys is missing: they have no entry, or only entries without a set bit, as a
      first growth leaves them. */
  ghost predicate NonePending(missing: Entries, ks: set<string>) {
    forall k :: k in missing && k in ks ==> Pending(missing, k) == {}
  }

  lemma NothingMissingStays(e: Epoch, w: World, accesses: seq<Access>, ks: set<string>)
    requires Playable(e, w, accesses) && NonePending(w.missing, ks)
    ensures NonePending(AfterBatch(e, w, accesses).missing, ks)
  {
    AddrsStored(e, w, accesses);
    MissingOnlyShrinks(e, Progress(w.cache, w.missing, []), accesses, Responses(e, w.store, accesses));
    var w' := AfterBatch(e, w, accesses);
    forall k | k in w'.missing && k in ks
      ensures Pending(w'.missing, k) == {}
    {
      SamePending(w.missing, w'.missing, k);
    }
  }

  /** While no replica of these keys is missing, any run whose batches touch none of their labels twice is
      hazard-free for them: the refinement holds for every such run. */
  lemma {:induction false} DistinctLabelsSuffice(e: Epoch, w: World, batches: seq<seq<Access>>, ks: set<string>)
    requires RunPlayable(e, w, batches) && NonePending(w.missing, ks)
    requires forall b :: 0 <= b < |batches| ==> NoneTwice(batches[b], ks)
    ensures RunHazardFree(e, w, batches, ks) && NonePending(AfterRun(e, w, batches).missing, ks)
  {
    if batches != [] {
      var b := |batches| - 1;
      DistinctLabelsSuffice(e, w, batches[..b], ks);
      var w' := AfterRun(e, w, batches[..b]);
      AddrsStored(e, w', batches[b]);
      NothingIsMissing(w', batches[b], ks);
      CalmSteps(e, w', batches[b], Responses(e, w'.store, batches[b]), ks);
      NothingMissingStays(e, w', batches[b], ks);
    }
  }

  lemma NothingIsMissing(w: World, accesses: seq<Access>, ks: set<string>)
    requires NonePending(w.missing, ks)
    ensures forall i :: 0 <= i < |accesses| && accesses[i].op.key in ks ==>
              accesses[i].replica !in Pending(w.missing, accesses[i].op.key)
  {
    forall i | 0 <= i < |accesses| && accesses[i].op.key in ks
      ensures accesses[i].replica !in Pending(w.missing, accesses[i].op.key)
    {
      NothingPending(w.missing, accesses[i].op.key);
    }
  }

  // ------------------------------------------------------------------ convergence

  /** The replicas of a key that the accesses touch. */
  function Touched(accesses: seq<Access>, key: string): set<nat> {
    set i | 0 <= i < |accesses| && accesses[i].op.key == key :: accesses[i].replica
  }

  ghost predicate NoPut(accesses: seq<Access>, key: string) {
    forall i :: 0 <= i < |accesses| && accesses[i].op.key == key ==> accesses[i].op.value == ""
  }

  /** The replicas touched after the first access to the key. */
  function Later(accesses: seq<Access>, key: string): set<nat> {
    if accesses == [] then {}
    else
      var front, a := accesses[..|accesses| - 1], accesses[|accesses| - 1];
      Later(front, key) + if a.op.key == key && Touched(front, key) != {} then {a.replica} else {}
  }

  /** The replicas still pending after these accesses, of those that were pending and those that were
      missing: an access takes its replica off, and the first one hands over what was missing. */
  function Still(accesses: seq<Access>, key: string, pending: set<nat>, missing: set<nat>): set<nat> {
    if accesses == [] then pending
    else
      var front, a := accesses[..|accesses| - 1], accesses[|accesses| - 1];
      var rest := Still(front, key, pending, missing);
      if a.op.key != key then rest
      else rest - {a.replica} + if Touched(front, key) == {} then missing else {}
  }

  /** The key has been accessed since its missing replicas were handed over, if it had any. */
  predicate Settling(missing: Entries, accesses: seq<Access>, key: string) {
    Later(accesses, key) != {} || (key !in missing && Touched(accesses, key) != {})
  }

  lemma PendingAfterStep(e: Epoch, p: Progress, a: Access, response: string, key: string)
    requires e.Has(a) && (a.op.key == key ==> a.op.value == "")
    requires key in p.missing ==> InBounds(e, p, a) && Stepped(p.missing[key].bits)
    ensures var p' := Step(e, p, a, response);
            && (key in p'.missing <==> key in p.missing && a.op.key != key)
            && (key in p'.missing ==> p'.missing[key] == p.missing[key])
            && Pending(p'.cache, key)
               == (if a.op.key == key then Pending(p.cache, key) - {a.replica} + Pending(p.missing, key)
                   else Pending(p.cache, key))
            && (key in p'.cache && a.op.key == key && key !in p.missing ==> Pending(p'.cache, key) != {})
            && (a.op.key != key ==> (key in p'.cache <==> key in p.cache))
  {
    CheckForUpdateEffect(Populated(e, p.cache, a), a.op.key, a.replica);
    if a.op.key == key && key in p.missing {
      HandoffPending(p.missing, key, Step(e, p, a, response).texts[|p.texts|],
                     CheckForUpdate(p.cache, key, a.replica).0);
    }
  }

  lemma OneAccess(e: Epoch, p: Progress, a: Access, response: string, key: string)
    requires e.Has(a) && (a.op.key == key ==> a.op.value == "")
    requires key in p.missing ==> InBounds(e, p, a) && Stepped(p.missing[key].bits)
    ensures var p' := Step(e, p, a, response);
            && Waits(p.cache, p.missing, p'.cache, p'.missing, [a], key)
            && (Touched([a], key) == {} ==> (key in p'.cache <==> key in p.cache))
  {
    hide Step, Pending, InBounds, Stepped, Touched, Still, Later;
    PendingAfterStep(e, p, a, response, key);
    SingleAccess(a, key, Pending(p.cache, key), Pending(p.missing, key));
  }

  lemma SingleAccess(a: Access, key: string, pending: set<nat>, missing: set<nat>)
    ensures Still([a], key, pending, missing) == if a.op.key == key then pending - {a.replica} + missing else pending
    ensures Touched([a], key) == (if a.op.key == key then {a.replica} else {}) && Later([a], key) == {}
  {
    assert [a][..0] == [] && [] + [a] == [a];
    TouchedSnoc([], a, key);
    TouchedNothing(key);
  }

  lemma TouchedNothing(key: string)
    ensures Touched([], key) == {}
  {
  }

  lemma HandoffPending(missing: Entries, key: string, text: string, cache: Entries)
    requires key in missing && Stepped(missing[key].bits) && HandoffFits(cache, missing, key)
    ensures Pending(CheckIfMissing(missing, key, text, cache).1, key) == Pending(cache, key) + Pending(missing, key)
  {
    HandoffEffect(missing, key, text, cache);
    var bits := missing[key].bits;
    assert forall i: nat :: i in Pending(missing, key) <==> LeadingZeros(bits) <= i < |bits|;
  }

  /** While nothing is put to a key, what is pending of it is known exactly; once the key is settling it
      stays cached only if some replica is left. */
  lemma {:induction false} PendingAfterSteps(e: Epoch, p: Progress, accesses: seq<Access>, responses: seq<string>,
                                             key: string)
    requires |responses| >= |accesses|
    requires forall i :: 0 <= i < |accesses| ==> e.Has(accesses[i])
    requires NoPut(accesses, key)
    requires key in p.missing ==> RunInBounds(e, p, accesses, responses) && Stepped(p.missing[key].bits)
    ensures var p' := RunSteps(e, p, accesses, responses);
            Waits(p.cache, p.missing, p'.cache, p'.missing, accesses, key)
    decreases |accesses|
  {
    hide Step, Pending, InBounds, Stepped, Waits, Touched, RunSteps, RunInBounds, NoPut;
    if accesses == [] {
      NoAccesses(e, p, responses, key);
    } else {
      var n := |accesses| - 1;
      var front, a := accesses[..n], accesses[n];
      LastTurn(e, p, accesses, responses);
      LastNoPut(accesses, key);
      PendingAfterSteps(e, p, front, responses, key);
      var p' := RunSteps(e, p, front, responses);
      StillSame(p.cache, p.missing, p'.cache, p'.missing, front, key);
      OneAccess(e, p', a, responses[n], key);
      assert accesses == front + [a];
      OneMoreBatch(p.cache, p.missing, p'.cache, p'.missing, Step(e, p', a, responses[n]).cache,
                   Step(e, p', a, responses[n]).missing, front, [a], key);
    }
  }

  lemma NoAccesses(e: Epoch, p: Progress, responses: seq<string>, key: string)
    ensures RunSteps(e, p, [], responses) == p && Waits(p.cache, p.missing, p.cache, p.missing, [], key)
  {
    hide Pending;
    TouchedNothing(key);
  }

  lemma LastTurn(e: Epoch, p: Progress, accesses: seq<Access>, responses: seq<string>)
    requires |responses| >= |accesses| > 0 && forall i :: 0 <= i < |accesses| ==> e.Has(accesses[i])
    ensures var n := |accesses| - 1;
            && e.Has(accesses[n]) && (forall i :: 0 <= i < n ==> e.Has(accesses[..n][i]))
            && RunSteps(e, p, accesses, responses)
               == Step(e, RunSteps(e, p, accesses[..n], responses), accesses[n], responses[n])
            && (RunInBounds(e, p, accesses, responses) ==>
                  && RunInBounds(e, p, accesses[..n], responses)
                  && InBounds(e, RunSteps(e, p, accesses[..n], responses), accesses[n]))
  {
    hide Step, InBounds;
  }

  lemma LastNoPut(accesses: seq<Access>, key: string)
    requires accesses != [] && NoPut(accesses, key)
    ensures var n := |accesses| - 1;
            NoPut(accesses[..n], key) && (accesses[n].op.key == key ==> accesses[n].op.value == "")
  {
  }

  lemma StillSame(c: Entries, m: Entries, c': Entries, m': Entries, accesses: seq<Access>, key: string)
    requires Waits(c, m, c', m', accesses, key)
    ensures key in m' ==> key in m && m'[key] == m[key]
  {
  }

  lemma NothingPending(c: Entries, key: string)
    ensures key !in c ==> Pending(c, key) == {}
  {
  }

  lemma TouchedSnoc(accesses: seq<Access>, a: Access, key: string)
    ensures Touched(accesses + [a], key) == Touched(accesses, key) + if a.op.key == key then {a.replica} else {}
  {
    var all := accesses + [a];
    forall r | r in Touched(accesses, key)
      ensures r in Touched(all, key)
    {
      var i :| 0 <= i < |accesses| && accesses[i].op.key == key && accesses[i].replica == r;
      assert all[i] == accesses[i];
    }
    if a.op.key == key {
      assert all[|accesses|] == a;
    }
  }

  lemma {:induction false} TouchedConcat(a: seq<Access>, b: seq<Access>, key: string)
    ensures Touched(a + b, key) == Touched(a, key) + Touched(b, key)
    decreases |b|
  {
    if b == [] {
      assert a + b == a;
    } else {
      var front, last := b[..|b| - 1], b[|b| - 1];
      TouchedConcat(a, front, key);
      TouchedSnoc(a + front, last, key);
      TouchedSnoc(front, last, key);
      assert b == front + [last] && a + b == a + front + [last];
    }
  }

  lemma NoPutSplit(a: seq<Access>, b: seq<Access>, key: string)
    requires NoPut(a + b, key)
    ensures NoPut(a, key) && NoPut(b, key)
  {
    forall i | 0 <= i < |a| && a[i].op.key == key
      ensures a[i].op.value == ""
    {
      assert (a + b)[i] == a[i];
    }
    forall i | 0 <= i < |b| && b[i].op.key == key
      ensures b[i].op.value == ""
    {
      assert (a + b)[|a| + i] == b[i];
    }
  }

  lemma LaterConcat(a: seq<Access>, b: seq<Access>, key: string)
    ensures Later(a + b, key) == Later(a, key) + if Touched(a, key) == {} then Later(b, key) else Touched(b, key)
    decreases |b|
  {
    if b == [] {
      assert a + b == a;
    } else {
      var front, last := b[..|b| - 1], b[|b| - 1];
      LaterConcat(a, front, key);
      TouchedConcat(a, front, key);
      TouchedSnoc(front, last, key);
      assert b == front + [last] && (a + b)[..|a + b| - 1] == a + front;
    }
  }

  lemma StillConcat(a: seq<Access>, b: seq<Access>, key: string, pending: set<nat>, missing: set<nat>)
    ensures Still(a + b, key, pending, missing)
            == Still(b, key, Still(a, key, pending, missing), if Touched(a, key) == {} then missing else {})
    decreases |b|
  {
    if b == [] {
      assert a + b == a;
    } else {
      var front := b[..|b| - 1];
      StillConcat(a, front, key, pending, missing);
      TouchedConcat(a, front, key);
      assert (a + b)[..|a + b| - 1] == a + front;
    }
  }

  /** What was touched after the handoff is not pending; without a handoff, nothing that was touched. */
  lemma {:induction false} StillBound(accesses: seq<Access>, key: string, pending: set<nat>, missing: set<nat>)
    ensures Still(accesses, key, pending, missing) <= pending + missing - Later(accesses, key)
    ensures missing == {} ==> Still(accesses, key, pending, missing) == pending - Touched(accesses, key)
    ensures Touched(accesses, key) == {} ==> Still(accesses, key, pending, missing) == pending
  {
    if accesses != [] {
      var front, a := accesses[..|accesses| - 1], accesses[|accesses| - 1];
      StillBound(front, key, pending, missing);
      TouchedSnoc(front, a, key);
      NothingLater(front, key);
      assert accesses == front + [a];
    }
  }

  lemma {:induction false} NothingLater(accesses: seq<Access>, key: string)
    ensures Later(accesses, key) <= Touched(accesses, key)
  {
    if accesses != [] {
      var front, a := accesses[..|accesses| - 1], accesses[|accesses| - 1];
      NothingLater(front, key);
      TouchedSnoc(front, a, key);
      assert accesses == front + [a];
    }
  }

  /** What is left of a key's pending and missing replicas after some accesses without a put to it: the
      first access hands over what was missing, every access takes its replica off, and a settling key
      stays cached only if some replica is left. */
  ghost predicate Waits(c: Entries, m: Entries, c': Entries, m': Entries, accesses: seq<Access>, key: string) {
    && (key in m' <==> key in m && Touched(accesses, key) == {})
    && (key in m' ==> m'[key] == m[key])
    && Pending(c', key) == Still(accesses, key, Pending(c, key), Pending(m, key))
    && (key in c' && Settling(m, accesses, key) ==> Pending(c', key) != {})
  }

  /** That is what a whole run leaves, for keys in transition and others. */
  lemma {:induction false} PendingAfterRun(e: Epoch, w: World, batches: seq<seq<Access>>, key: string)
    requires RunPlayable(e, w, batches) && NoPut(Flat(batches), key)
    requires key in w.missing ==> AllInBounds(e, w, batches) && Stepped(w.missing[key].bits)
    ensures var w' := AfterRun(e, w, batches); Waits(w.cache, w.missing, w'.cache, w'.missing, Flat(batches), key)
  {
    if batches != [] {
      hide Pending, Playable, Stepped, BatchInBounds, Still, Touched, Settling, NoPut;
      var b := |batches| - 1;
      var front, last := Flat(batches[..b]), batches[b];
      NoPutSplit(front, last, key);
      PendingAfterRun(e, w, batches[..b], key);
      var w' := AfterRun(e, w, batches[..b]);
      PlayableNow(e, w', last);
      PendingAfterBatch(e, w', last, key);
      OneMoreBatch(w.cache, w.missing, w'.cache, w'.missing, AfterBatch(e, w', last).cache,
                   AfterBatch(e, w', last).missing, front, last, key);
    }
  }

  lemma OneMoreBatch(c: Entries, m: Entries, c1: Entries, m1: Entries, c2: Entries, m2: Entries, front: seq<Access>,
                     last: seq<Access>, key: string)
    requires Waits(c, m, c1, m1, front, key) && Waits(c1, m1, c2, m2, last, key)
    requires Touched(last, key) == {} ==> (key in c2 <==> key in c1)
    ensures Waits(c, m, c2, m2, front + last, key)
  {
    hide Pending, Still, Touched, Later;
    TouchedConcat(front, last, key);
    LaterConcat(front, last, key);
    NothingLater(front, key);
    NothingLater(last, key);
    SamePending(m, m1, key);
    StillConcat(front, last, key, Pending(c, key), Pending(m, key));
    StillBound(last, key, Pending(c1, key), Pending(m1, key));
  }

  lemma PlayableNow(e: Epoch, w: World, accesses: seq<Access>)
    requires Playable(e, w, []) && forall i :: 0 <= i < |accesses| ==> e.Has(accesses[i])
    ensures Playable(e, w, accesses)
  {
  }

  lemma SamePending(c: Entries, d: Entries, key: string)
    ensures key !in d ==> Pending(d, key) == {}
    ensures key in c && key in d && c[key] == d[key] ==> Pending(d, key) == Pending(c, key)
    ensures key !in c ==> Pending(c, key) == {}
  {
  }

  lemma PendingAfterBatch(e: Epoch, w: World, accesses: seq<Access>, key: string)
    requires Playable(e, w, accesses) && NoPut(accesses, key)
    requires key in w.missing ==> BatchInBounds(e, w, accesses) && Stepped(w.missing[key].bits)
    ensures var w' := AfterBatch(e, w, accesses);
            && Waits(w.cache, w.missing, w'.cache, w'.missing, accesses, key)
            && (Touched(accesses, key) == {} ==> (key in w'.cache <==> key in w.cache))
  {
    AddrsStored(e, w, accesses);
    PendingAfterSteps(e, Progress(w.cache, w.missing, []), accesses, Responses(e, w.store, accesses), key);
    UntouchedStays(e, Progress(w.cache, w.missing, []), accesses, Responses(e, w.store, accesses), key);
  }

  lemma {:induction false} UntouchedStays(e: Epoch, p: Progress, accesses: seq<Access>, responses: seq<string>,
                                          key: string)
    requires |responses| >= |accesses| && forall i :: 0 <= i < |accesses| ==> e.Has(accesses[i])
    ensures Touched(accesses, key) == {} ==> (key in RunSteps(e, p, accesses, responses).cache <==> key in p.cache)
    decreases |accesses|
  {
    if accesses != [] {
      var n := |accesses| - 1;
      UntouchedStays(e, p, accesses[..n], responses, key);
      TouchedSnoc(accesses[..n], accesses[n], key);
      assert accesses == accesses[..n] + [accesses[n]];
      if accesses[n].op.key != key {
        OtherKeyStays(e, RunSteps(e, p, accesses[..n], responses), accesses[n], responses[n], key);
      }
    }
  }

  /** Convergence.  Once a hazard-free run without puts to the key has touched every replica of it - for
      a key in transition, after its missing replicas were handed over by a first access - the key has
      left the cache and all its labels store its value. */
  lemma Converged(e: Epoch, w: World, batches: seq<seq<Access>>, l: Logical, key: string, ks: set<string>)
    requires RunPlayable(e, w, batches) && AllInBounds(e, w, batches) && RunHazardFree(e, w, batches, ks)
    requires Coherent(e, w.cache, w.missing, w.store, l, ks) && key in ks
    requires NoPut(Flat(batches), key) && key in e.counts && e.counts[key] > 0
    requires key in w.missing ==> Stepped(w.missing[key].bits)
    requires forall j :: j in Pending(w.cache, key) + Pending(w.missing, key) ==> j < e.counts[key]
    requires forall j: nat :: j < e.counts[key] ==>
               j in Later(Flat(batches), key) || (key !in w.missing && j in Touched(Flat(batches), key))
    ensures var w' := AfterRun(e, w, batches);
            && key !in w'.cache && key !in w'.missing && key in l
            && forall j: nat :: j < e.counts[key] ==> StoresCurrent(e, w'.store, key, j, l[key])
  {
    hide Pending, MapRun, Apart, Bijection, AllInBounds, RunHazardFree, Step, Stepped, Still, Later;
    var w' := AfterRun(e, w, batches);
    RunRefines(e, w, batches, l, ks);
    PendingAfterRun(e, w, batches, key);
    NoPutKeepsValue(l, Flat(batches), key);
    NothingIsLeft(w, Flat(batches), key, e.counts[key]);
    assert ReplicaCoherent(e, w.cache, w.missing, w.store, l, key, 0);
    forall j: nat | j < e.counts[key]
      ensures StoresCurrent(e, w'.store, key, j, l[key])
    {
      ConvergedReplica(e, w', MapRun(l, Ops(Flat(batches))), key, j, ks);
    }
  }

  lemma NothingIsLeft(w: World, accesses: seq<Access>, key: string, r: nat)
    requires r > 0 && forall j :: j in Pending(w.cache, key) + Pending(w.missing, key) ==> j < r
    requires forall j: nat :: j < r ==> j in Later(accesses, key) || (key !in w.missing && j in Touched(accesses, key))
    ensures Still(accesses, key, Pending(w.cache, key), Pending(w.missing, key)) == {}
    ensures Settling(w.missing, accesses, key) && Touched(accesses, key) != {}
  {
    hide Pending, Still, Later;
    StillBound(accesses, key, Pending(w.cache, key), Pending(w.missing, key));
    NothingPending(w.missing, key);
    NothingLater(accesses, key);
    assert 0 in Later(accesses, key) || 0 in Touched(accesses, key);
  }

  ghost predicate StoresCurrent(e: Epoch, store: map<string, string>, key: string, j: nat, value: string)
    requires e.Valid() && key in e.counts && j < e.counts[key]
  {
    AddrDefined(e, key, j);
    Addr(e, key, j) in store && store[Addr(e, key, j)] == value
  }

  lemma ConvergedReplica(e: Epoch, w: World, l: Logical, key: string, j: nat, ks: set<string>)
    requires e.Valid() && key in e.counts && j < e.counts[key] && Coherent(e, w.cache, w.missing, w.store, l, ks)
    requires key in ks && key !in w.cache && key !in w.missing
    ensures key in l && StoresCurrent(e, w.store, key, j, l[key])
  {
    assert ReplicaCoherent(e, w.cache, w.missing, w.store, l, key, j);
  }

  lemma {:induction false} NoPutKeepsValue(l: Logical, accesses: seq<Access>, key: string)
    requires NoPut(accesses, key)
    ensures key in MapRun(l, Ops(accesses)) <==> key in l
    ensures key in l ==> MapRun(l, Ops(accesses))[key] == l[key]
  {
    if accesses != [] {
      NoPutKeepsValue(l, accesses[..|accesses| - 1], key);
      assert Ops(accesses)[..|accesses| - 1] == Ops(accesses[..|accesses| - 1]);
    }
  }

  // ------------------------------------------------------------------ hazards

  lemma OneStep(e: Epoch, p: Progress, a: Access, responses: seq<string>)
    requires e.Has(a) && |responses| >= 1
    ensures RunSteps(e, p, [a], responses) == Step(e, p, a, responses[0])
  {
    assert [a][..0] == [];
    assert RunSteps(e, p, [], responses) == p;
  }

  lemma TwoSteps(e: Epoch, p: Progress, a: Access, b: Access, responses: seq<string>)
    requires e.Has(a) && e.Has(b) && |responses| >= 2
    ensures RunSteps(e, p, [a, b], responses) == Step(e, Step(e, p, a, responses[0]), b, responses[1])
  {
    assert [a, b][..1] == [a];
    OneStep(e, p, a, responses);
  }

  /** After a put has taken its own update, a get of the same replica falls back on its response. */
  lemma PutThenGet(e: Epoch, p: Progress, key: string, j: nat, value: string, r0: string, r1: string)
    requires key in e.counts && j < e.counts[key] && value != "" && key !in p.missing
    ensures var p1 := Step(e, p, Access(Op(key, value), true, j), r0);
            Step(e, p1, Access(Op(key, ""), true, j), r1).texts == p.texts + [value, r1]
  {
    var put, get := Access(Op(key, value), true, j), Access(Op(key, ""), true, j);
    var p1 := Step(e, p, put, r0);
    CheckForUpdateEffect(Populated(e, p.cache, put), key, j);
    assert p1.texts == p.texts + [value];
    CheckForUpdateEffect(Populated(e, p1.cache, get), key, j);
  }

  lemma TwoAnswers(l: Logical, key: string, value: string)
    requires value != ""
    ensures MapAnswers(l, [Op(key, value), Op(key, "")]) == [value, value]
  {
    var put, get := Op(key, value), Op(key, "");
    assert [put, get] == [put] + [get];
    MapRunConcat(l, [put], [get]);
    SingleAnswer(l, put);
    SingleAnswer(MapStep(l, put), get);
  }

  /** A put and a get of one key that draw the same replica in one batch: the get is answered from
      the responses fetched before the put.  For every coherent world in which the replica's stored
      value was current the client reads the old value. */
  lemma SameLabelTwiceReadsStale(e: Epoch, w: World, l: Logical, key: string, j: nat, value: string,
                                 batch: seq<Access>, ks: set<string>)
    requires batch == [Access(Op(key, value), true, j), Access(Op(key, ""), true, j)] && value != ""
    requires Playable(e, w, batch) && key in e.counts && j < e.counts[key]
    requires Coherent(e, w.cache, w.missing, w.store, l, ks)
    requires key in ks && key !in w.missing && j !in Pending(w.cache, key)
    ensures key in l
    ensures Played(e, w, batch).texts == [value, l[key]]
    ensures MapAnswers(l, Ops(batch)) == [value, value]
    ensures value != l[key] ==> !BatchHazardFree(e, w, batch, ks)
  {
    hide Hamming, MapAnswers, Bijection, CheckForUpdate;
    AddrsStored(e, w, batch);
    AddrDefined(e, key, j);
    assert ReplicaCoherent(e, w.cache, w.missing, w.store, l, key, j);
    var responses := Responses(e, w.store, batch);
    assert Addrs(e, batch)[1] == Addr(e, key, j);
    TwoSteps(e, Progress(w.cache, w.missing, []), batch[0], batch[1], responses);
    PutThenGet(e, Progress(w.cache, w.missing, []), key, j, value, responses[0], responses[1]);
    assert Ops(batch) == [Op(key, value), Op(key, "")];
    TwoAnswers(l, key, value);
    if value != l[key] && BatchHazardFree(e, w, batch, ks) {
      BatchRefines(e, w, batch, l, ks);
      TextIsAnswer(l, ks, batch, Played(e, w, batch).texts, 1);
    }
  }

  /** A fake access to a missing replica of an uncached key: whatever its label holds becomes the
      cached value that all missing replicas will be overwritten with. */
  lemma MissingReplicaPoisons(e: Epoch, w: World, key: string, j: nat, batch: seq<Access>)
    requires batch == [Access(Op(key, ""), false, j)] && Playable(e, w, batch)
    requires key in w.missing && j in Pending(w.missing, key) && key !in w.cache
    ensures key in e.counts && j < e.counts[key] && Name(key, j) in e.labels && Addr(e, key, j) in w.store
    ensures AfterBatch(e, w, batch).cache == w.cache[key := Entry(w.store[Addr(e, key, j)], w.missing[key].bits)]
  {
    assert e.Has(batch[0]);
    AddrsStored(e, w, batch);
    AddrDefined(e, key, j);
    assert Addrs(e, batch)[0] == Addr(e, key, j);
    OneStep(e, Progress(w.cache, w.missing, []), batch[0], Responses(e, w.store, batch));
  }
}
