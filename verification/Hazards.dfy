/** What exactly a batch must avoid: indexing past a cached vector, and reading a text that may be out of
    date.  Both depend only on the vectors, not on any stored or cached value. */
module Hazards {
  import opened Naming
  import opened Directory
  import opened UpdateCache
  import opened Refinement

  // ------------------------------------------------------------------ bounds

  /** Cached vectors are at least as long as the counts of their keys. */
  ghost predicate Wide(e: Epoch, c: Entries) {
    forall k :: k in c && k in e.counts ==> |c[k].bits| >= e.counts[k]
  }

  lemma StepKeepsWide(e: Epoch, p: Progress, a: Access, response: string)
    requires e.Has(a) && Wide(e, p.cache) && Sized(e, p.missing)
    ensures InBounds(e, p, a)
    ensures var p' := Step(e, p, a, response); Wide(e, p'.cache) && Sized(e, p'.missing)
  {
  }

  lemma {:induction false} WideStaysInBounds(e: Epoch, p: Progress, accesses: seq<Access>, responses: seq<string>)
    requires |responses| >= |accesses| && forall i :: 0 <= i < |accesses| ==> e.Has(accesses[i])
    requires Wide(e, p.cache) && Sized(e, p.missing)
    ensures RunInBounds(e, p, accesses, responses)
    ensures var p' := RunSteps(e, p, accesses, responses); Wide(e, p'.cache) && Sized(e, p'.missing)
    decreases |accesses|
  {
    if accesses != [] {
      var n := |accesses| - 1;
      WideStaysInBounds(e, p, accesses[..n], responses);
      StepKeepsWide(e, RunSteps(e, p, accesses[..n], responses), accesses[n], responses[n]);
    }
  }

  /** With wide vectors every batch stays in bounds and leaves wide vectors. */
  lemma BatchKeepsWide(e: Epoch, w: World, accesses: seq<Access>)
    requires Playable(e, w, accesses) && Wide(e, w.cache) && Sized(e, w.missing)
    ensures BatchInBounds(e, w, accesses)
    ensures Wide(e, AfterBatch(e, w, accesses).cache) && Sized(e, AfterBatch(e, w, accesses).missing)
  {
    AddrsStored(e, w, accesses);
    WideStaysInBounds(e, Progress(w.cache, w.missing, []), accesses, Responses(e, w.store, accesses));
  }

  ghost predicate StaysInBounds(e: Epoch, w: World, accesses: seq<Access>) {
    Playable(e, w, accesses) ==> BatchInBounds(e, w, accesses)
  }

  /** A get of a replica beyond the cached vector indexes past its end. */
  lemma PastTheEnd(e: Epoch, w: World, k: string, isTrue: bool, j: nat)
    requires Playable(e, w, []) && k in w.cache && k in e.counts && |w.cache[k].bits| <= j < e.counts[k]
    ensures !StaysInBounds(e, w, [Access(Op(k, ""), isTrue, j)])
  {
    var a := Access(Op(k, ""), isTrue, j);
    assert [a][..0] == [];
    AddrsStored(e, w, [a]);
    var p0, responses := Progress(w.cache, w.missing, []), Responses(e, w.store, [a]);
    assert RunSteps(e, p0, [], responses) == p0;
    assert !InBounds(e, p0, a);
  }

  /** No batch ever indexes past a cached vector if and only if no key has more replicas than its
      cached vector has bits. */
  lemma BoundsExactly(e: Epoch, w: World)
    requires Playable(e, w, []) && Sized(e, w.missing)
    ensures (forall accesses :: StaysInBounds(e, w, accesses)) <==> Wide(e, w.cache)
  {
    if Wide(e, w.cache) {
      forall accesses
        ensures StaysInBounds(e, w, accesses)
      {
        if Playable(e, w, accesses) {
          BatchKeepsWide(e, w, accesses);
        }
      }
    }
    if forall accesses :: StaysInBounds(e, w, accesses) {
      forall k | k in w.cache && k in e.counts
        ensures |w.cache[k].bits| >= e.counts[k]
      {
        if |w.cache[k].bits| < e.counts[k] {
          PastTheEnd(e, w, k, false, |w.cache[k].bits|);
          assert false;
        }
      }
    }
  }

  // ------------------------------------------------------------------ only the vectors matter

  ghost predicate SameBits(c: Entries, d: Entries) {
    c.Keys == d.Keys && forall k :: k in c ==> c[k].bits == d[k].bits
  }

  /** Two worlds that differ only in stored and cached values. */
  ghost predicate SameShape(w: World, w': World) {
    SameBits(w.cache, w'.cache) && SameBits(w.missing, w'.missing) && w.store.Keys == w'.store.Keys
  }

  ghost predicate Alike(p: Progress, q: Progress) {
    SameBits(p.cache, q.cache) && SameBits(p.missing, q.missing)
  }

  lemma AlikePending(p: Progress, q: Progress, k: string)
    requires Alike(p, q)
    ensures Pending(p.cache, k) == Pending(q.cache, k) && Pending(p.missing, k) == Pending(q.missing, k)
  {
  }

  lemma PopulatedAlike(e: Epoch, c: Entries, d: Entries, a: Access)
    requires e.Has(a) && SameBits(c, d)
    ensures SameBits(Populated(e, c, a), Populated(e, d, a))
  {
  }

  lemma CheckedAlike(c: Entries, d: Entries, key: string, j: nat)
    requires SameBits(c, d)
    ensures SameBits(CheckForUpdate(c, key, j).0, CheckForUpdate(d, key, j).0)
  {
    hide Hamming;
  }

  lemma HandedAlike(m: Entries, n: Entries, key: string, x: string, y: string, c: Entries, d: Entries)
    requires SameBits(m, n) && SameBits(c, d)
    ensures HandoffFits(c, m, key) <==> HandoffFits(d, n, key)
    ensures SameBits(CheckIfMissing(m, key, x, c).0, CheckIfMissing(n, key, y, d).0)
    ensures SameBits(CheckIfMissing(m, key, x, c).1, CheckIfMissing(n, key, y, d).1)
  {
    hide LeadingZeros;
  }

  lemma StepAlike(e: Epoch, p: Progress, q: Progress, a: Access, r: string, s: string)
    requires e.Has(a) && Alike(p, q)
    ensures SameBits(Populated(e, p.cache, a), Populated(e, q.cache, a))
    ensures InBounds(e, p, a) <==> InBounds(e, q, a)
    ensures Alike(Step(e, p, a, r), Step(e, q, a, s))
  {
    hide CheckForUpdate, CheckIfMissing, HandoffFits, Populated;
    var c, d := Populated(e, p.cache, a), Populated(e, q.cache, a);
    PopulatedAlike(e, p.cache, q.cache, a);
    CheckedAlike(c, d, a.op.key, a.replica);
    HandedAlike(p.missing, q.missing, a.op.key, Step(e, p, a, r).texts[|p.texts|], Step(e, q, a, s).texts[|q.texts|],
                CheckForUpdate(c, a.op.key, a.replica).0, CheckForUpdate(d, a.op.key, a.replica).0);
  }

  lemma {:induction false} RunAlike(e: Epoch, p: Progress, q: Progress, accesses: seq<Access>, r: seq<string>,
                                    s: seq<string>)
    requires |r| >= |accesses| && |s| >= |accesses| && forall i :: 0 <= i < |accesses| ==> e.Has(accesses[i])
    requires Alike(p, q)
    ensures Alike(RunSteps(e, p, accesses, r), RunSteps(e, q, accesses, s))
    ensures RunInBounds(e, p, accesses, r) <==> RunInBounds(e, q, accesses, s)
    decreases |accesses|
  {
    if accesses != [] {
      var n := |accesses| - 1;
      RunAlike(e, p, q, accesses[..n], r, s);
      StepAlike(e, RunSteps(e, p, accesses[..n], r), RunSteps(e, q, accesses[..n], s), accesses[n], r[n], s[n]);
    }
  }

  /** What the last access of a batch consumes. */
  lemma LastConsumed(e: Epoch, p: Progress, accesses: seq<Access>, r: seq<string>)
    requires e.Valid() && |r| >= |accesses| > 0 && forall i :: 0 <= i < |accesses| ==> e.Has(accesses[i])
    ensures var n := |accesses| - 1;
            && e.Has(accesses[n]) && Name(accesses[n].op.key, accesses[n].replica) in e.labels
            && Consumed(e, p, accesses, r)
               == Consumed(e, p, accesses[..n], r) + Consumes(e, RunSteps(e, p, accesses[..n], r).cache, accesses[n])
  {
    var a := accesses[|accesses| - 1];
    AddrDefined(e, a.op.key, a.replica);
  }

  function Consumes(e: Epoch, cache: Entries, a: Access): set<string>
    requires e.Has(a) && Name(a.op.key, a.replica) in e.labels
  {
    if a.replica in Pending(Populated(e, cache, a), a.op.key) then {Addr(e, a.op.key, a.replica)} else {}
  }

  lemma ConsumesAlike(e: Epoch, c: Entries, d: Entries, a: Access)
    requires e.Has(a) && Name(a.op.key, a.replica) in e.labels && SameBits(c, d)
    ensures Consumes(e, c, a) == Consumes(e, d, a)
  {
    PopulatedAlike(e, c, d, a);
  }

  lemma {:induction false} ConsumedAlike(e: Epoch, p: Progress, q: Progress, accesses: seq<Access>, r: seq<string>,
                                         s: seq<string>)
    requires e.Valid() && |r| >= |accesses| && |s| >= |accesses|
    requires forall i :: 0 <= i < |accesses| ==> e.Has(accesses[i])
    requires Alike(p, q)
    ensures Consumed(e, p, accesses, r) == Consumed(e, q, accesses, s)
    decreases |accesses|
  {
    if accesses != [] {
      hide Consumed, Consumes, SameBits, RunSteps, RunInBounds, Bijection, Apart;
      var n := |accesses| - 1;
      ConsumedAlike(e, p, q, accesses[..n], r, s);
      RunAlike(e, p, q, accesses[..n], r, s);
      LastConsumed(e, p, accesses, r);
      LastConsumed(e, q, accesses, s);
      ConsumesAlike(e, RunSteps(e, p, accesses[..n], r).cache, RunSteps(e, q, accesses[..n], s).cache, accesses[n]);
    }
  }

  /** Whether an access is safe depends on the vectors alone. */
  lemma SafeAlike(e: Epoch, p: Progress, q: Progress, consumed: set<string>, a: Access)
    requires e.Has(a) && Name(a.op.key, a.replica) in e.labels && Alike(p, q)
    ensures Safe(e, p, consumed, a) <==> Safe(e, q, consumed, a)
  {
    StepAlike(e, p, q, a, "", "");
    AlikePending(p, q, a.op.key);
  }

  /** Whether a batch is hazard-free depends on the vectors alone. */
  lemma {:induction false} HazardsAlike(e: Epoch, p: Progress, q: Progress, accesses: seq<Access>, r: seq<string>,
                                        s: seq<string>, ks: set<string>)
    requires e.Valid() && |r| >= |accesses| && |s| >= |accesses|
    requires forall i :: 0 <= i < |accesses| ==> e.Has(accesses[i])
    requires Alike(p, q)
    ensures HazardFree(e, p, accesses, r, ks) <==> HazardFree(e, q, accesses, s, ks)
    decreases |accesses|
  {
    if accesses != [] {
      var n := |accesses| - 1;
      var a := accesses[n];
      HazardsAlike(e, p, q, accesses[..n], r, s, ks);
      ConsumedAlike(e, p, q, accesses[..n], r, s);
      RunAlike(e, p, q, accesses[..n], r, s);
      assert e.Has(a);
      AddrDefined(e, a.op.key, a.replica);
      SafeAlike(e, RunSteps(e, p, accesses[..n], r), RunSteps(e, q, accesses[..n], s),
                Consumed(e, p, accesses[..n], r), a);
    }
  }

  lemma BatchesAlike(e: Epoch, w: World, w': World, accesses: seq<Access>, ks: set<string>)
    requires Playable(e, w, accesses) && Playable(e, w', accesses) && SameShape(w, w')
    ensures BatchHazardFree(e, w, accesses, ks) <==> BatchHazardFree(e, w', accesses, ks)
    ensures BatchInBounds(e, w, accesses) <==> BatchInBounds(e, w', accesses)
  {
    AddrsStored(e, w, accesses);
    AddrsStored(e, w', accesses);
    var p, q := Progress(w.cache, w.missing, []), Progress(w'.cache, w'.missing, []);
    HazardsAlike(e, p, q, accesses, Responses(e, w.store, accesses), Responses(e, w'.store, accesses), ks);
    RunAlike(e, p, q, accesses, Responses(e, w.store, accesses), Responses(e, w'.store, accesses));
  }

  // ------------------------------------------------------------------ where an unsafe text comes from

  /** A key that is still missing has not been accessed. */
  lemma {:induction false} StillMissing(e: Epoch, p: Progress, accesses: seq<Access>, responses: seq<string>, k: string)
    requires |responses| >= |accesses| && forall i :: 0 <= i < |accesses| ==> e.Has(accesses[i])
    requires k in RunSteps(e, p, accesses, responses).missing
    ensures k in p.missing && RunSteps(e, p, accesses, responses).missing[k] == p.missing[k]
    ensures NoPut(accesses, k)
    decreases |accesses|
  {
    hide CheckForUpdate;
    if accesses != [] {
      StillMissing(e, p, accesses[..|accesses| - 1], responses, k);
    }
  }

  /** Without puts, what is pending was pending or missing before. */
  lemma {:induction false} PendingFrom(e: Epoch, p: Progress, accesses: seq<Access>, responses: seq<string>, k: string,
                                       j: nat)
    requires |responses| >= |accesses| && forall i :: 0 <= i < |accesses| ==> e.Has(accesses[i])
    requires NoPut(accesses, k) && AllStepped(p.missing)
    requires j in Pending(RunSteps(e, p, accesses, responses).cache, k)
    ensures j in Pending(p.cache, k) || j in Pending(p.missing, k)
    decreases |accesses|
  {
    if accesses != [] {
      var n := |accesses| - 1;
      var front := RunSteps(e, p, accesses[..n], responses);
      MissingOnlyShrinks(e, p, accesses[..n], responses);
      PendingFromStep(e, front, accesses[n], responses[n], k, j);
      if j in Pending(front.cache, k) {
        PendingFrom(e, p, accesses[..n], responses, k, j);
      }
    }
  }

  lemma PendingFromStep(e: Epoch, p: Progress, a: Access, response: string, k: string, j: nat)
    requires e.Has(a) && AllStepped(p.missing) && (a.op.key == k ==> a.op.value == "")
    requires j in Pending(Step(e, p, a, response).cache, k)
    ensures j in Pending(p.cache, k) || j in Pending(p.missing, k)
  {
    CheckForUpdateEffect(p.cache, a.op.key, a.replica);
    if a.op.key != k {
      OtherKeyStays(e, p, a, response, k);
    }
  }

  /** Without puts, a consumed update was pending or missing before. */
  lemma {:induction false} ConsumedFrom(e: Epoch, p: Progress, accesses: seq<Access>, responses: seq<string>, k: string,
                                        j: nat)
    requires e.Valid() && |responses| >= |accesses| && forall i :: 0 <= i < |accesses| ==> e.Has(accesses[i])
    requires k in e.counts && j < e.counts[k] && Name(k, j) in e.labels
    requires NoPut(accesses, k) && AllStepped(p.missing) && Addr(e, k, j) in Consumed(e, p, accesses, responses)
    ensures j in Pending(p.cache, k) || j in Pending(p.missing, k)
    decreases |accesses|
  {
    var n := |accesses| - 1;
    var a := accesses[n];
    if Addr(e, k, j) in Consumed(e, p, accesses[..n], responses) {
      ConsumedFrom(e, p, accesses[..n], responses, k, j);
    } else {
      assert e.Has(a);
      AddrDefined(e, a.op.key, a.replica);
      AddrInjective(e, k, j, a.op.key, a.replica);
      PendingFrom(e, p, accesses[..n], responses, k, j);
    }
  }

  /** The value of the last put to the key; empty if there is none. */
  function LastPut(accesses: seq<Access>, k: string): string {
    if accesses == [] then ""
    else
      var a := accesses[|accesses| - 1];
      if a.op.key == k && a.op.value != "" then a.op.value else LastPut(accesses[..|accesses| - 1], k)
  }

  lemma {:induction false} LastPutIsCurrent(l: Logical, accesses: seq<Access>, k: string)
    ensures LastPut(accesses, k) == "" <==> NoPut(accesses, k)
    ensures LastPut(accesses, k) != "" ==>
              k in MapRun(l, Ops(accesses)) && MapRun(l, Ops(accesses))[k] == LastPut(accesses, k)
  {
    if accesses != [] {
      LastPutIsCurrent(l, accesses[..|accesses| - 1], k);
      assert Ops(accesses)[..|accesses| - 1] == Ops(accesses[..|accesses| - 1]);
    }
  }

  // ------------------------------------------------------------------ worlds of one value

  /** The same vectors; every stored and cached value is c. */
  function Painted(w: World, c: string): World {
    World(map k | k in w.cache :: Entry(c, w.cache[k].bits), w.missing, map x | x in w.store :: c)
  }

  function Constant(e: Epoch, c: string): Logical {
    map k | k in e.counts :: c
  }

  lemma PaintedCoherent(e: Epoch, w: World, c: string, ks: set<string>)
    requires Playable(e, w, []) && c != ""
    ensures SameShape(w, Painted(w, c)) && Playable(e, Painted(w, c), [])
    ensures Coherent(e, Painted(w, c).cache, w.missing, Painted(w, c).store, Constant(e, c), ks)
  {
    hide Bijection;
    var w', l := Painted(w, c), Constant(e, c);
    forall k, j: nat | k in e.counts && j < e.counts[k]
      ensures AddrStored(e, w'.store, k, j)
      ensures ReplicaCoherent(e, w'.cache, w.missing, w'.store, l, k, j)
    {
      assert AddrStored(e, w.store, k, j);
      AddrDefined(e, k, j);
    }
  }

  /** The text of a replica that is pending or missing is free. */
  lemma FreeText(e: Epoch, w: World, c: string, k: string, j: nat, d: string, ks: set<string>)
    requires Playable(e, w, []) && c != "" && k in e.counts && j < e.counts[k] && Name(k, j) in e.labels
    requires j in Pending(w.cache, k) || j in Pending(w.missing, k)
    ensures var store' := Painted(w, c).store[Addr(e, k, j) := d];
            && Coherent(e, Painted(w, c).cache, w.missing, store', Constant(e, c), ks)
            && SameShape(w, Painted(w, c).(store := store')) && Playable(e, Painted(w, c).(store := store'), [])
  {
    PaintedCoherent(e, w, c, ks);
    var w', l := Painted(w, c), Constant(e, c);
    var store' := w'.store[Addr(e, k, j) := d];
    assert AddrStored(e, w.store, k, j);
    assert Pending(w'.cache, k) == Pending(w.cache, k);
    forall k', j': nat | k' in e.counts && j' < e.counts[k']
      ensures AddrStored(e, store', k', j')
      ensures ReplicaCoherent(e, w'.cache, w.missing, store', l, k', j')
    {
      assert AddrStored(e, w'.store, k', j');
      assert ReplicaCoherent(e, w'.cache, w.missing, w'.store, l, k', j');
      AddrDefined(e, k', j');
      if Addr(e, k', j') == Addr(e, k, j) {
        AddrInjective(e, k', j', k, j);
      }
    }
    forall k' | k' in e.counts
      ensures EntryCurrent(w'.cache, l, k')
    {
    }
  }

  // ------------------------------------------------------------------ the exact condition

  /** The batch answers every access to one of the keys like the map l. */
  ghost predicate AnswersLikeMap(e: Epoch, w: World, accesses: seq<Access>, l: Logical, ks: set<string>)
    requires Playable(e, w, accesses)
  {
    Answers(l, ks, accesses, Played(e, w, accesses).texts)
  }

  /** A world with the vectors of w in which the replicas of the keys are coherent with l. */
  ghost predicate Possible(e: Epoch, w: World, accesses: seq<Access>, w': World, l: Logical, ks: set<string>) {
    SameShape(w, w') && Playable(e, w', accesses) && Coherent(e, w'.cache, w'.missing, w'.store, l, ks)
  }

  lemma {:induction false} RunPrefix(e: Epoch, p: Progress, accesses: seq<Access>, r: seq<string>, s: seq<string>)
    requires |r| >= |accesses| && |s| >= |accesses| && forall i :: 0 <= i < |accesses| ==> e.Has(accesses[i])
    requires forall i :: 0 <= i < |accesses| ==> r[i] == s[i]
    ensures RunSteps(e, p, accesses, r) == RunSteps(e, p, accesses, s)
    decreases |accesses|
  {
    if accesses != [] {
      RunPrefix(e, p, accesses[..|accesses| - 1], r, s);
    }
  }

  /** The last access of a batch works on what the earlier ones, as a batch, leave. */
  lemma LastAccess(e: Epoch, w: World, accesses: seq<Access>)
    requires Playable(e, w, accesses) && accesses != []
    ensures var n := |accesses| - 1;
            && Playable(e, w, accesses[..n]) && Addrs(e, accesses)[n] in w.store
            && Played(e, w, accesses)
               == Step(e, Played(e, w, accesses[..n]), accesses[n], w.store[Addrs(e, accesses)[n]])
  {
    AddrsStored(e, w, accesses);
    AddrsFront(e, accesses);
    AddrsStored(e, w, accesses[..|accesses| - 1]);
    RunPrefix(e, Progress(w.cache, w.missing, []), accesses[..|accesses| - 1], Responses(e, w.store, accesses),
              Responses(e, w.store, accesses[..|accesses| - 1]));
  }

  /** An access whose update is not pending gets the fetched text. */
  lemma FetchedText(e: Epoch, p: Progress, a: Access, response: string)
    requires e.Has(a) && a.replica !in Pending(Populated(e, p.cache, a), a.op.key)
    ensures Step(e, p, a, response).texts == p.texts + [response]
    ensures a.op.value == ""
  {
    CheckForUpdateEffect(Populated(e, p.cache, a), a.op.key, a.replica);
  }

  /** What an unsafe get reads without a put to its key before it: the text of a replica that was
      pending or missing when the batch began. */
  lemma UnsafeIsFree(e: Epoch, w: World, accesses: seq<Access>, a: Access)
    requires Playable(e, w, accesses) && e.Has(a) && Name(a.op.key, a.replica) in e.labels
    requires AllStepped(w.missing) && NoPut(accesses, a.op.key)
    requires forall i :: 0 <= i < |accesses| ==> Addrs(e, accesses)[i] in w.store
    requires var p0, responses := Progress(w.cache, w.missing, []), Responses(e, w.store, accesses);
             !Safe(e, RunSteps(e, p0, accesses, responses), Consumed(e, p0, accesses, responses), a)
    ensures a.replica in Pending(w.cache, a.op.key) || a.replica in Pending(w.missing, a.op.key)
  {
    var p0, responses := Progress(w.cache, w.missing, []), Responses(e, w.store, accesses);
    if Addr(e, a.op.key, a.replica) in Consumed(e, p0, accesses, responses) {
      ConsumedFrom(e, p0, accesses, responses, a.op.key, a.replica);
    } else {
      StillMissing(e, p0, accesses, responses, a.op.key);
    }
  }

  /** A world in which the unsafe last access is answered wrongly. */
  lemma LastUnsafeShows(e: Epoch, w: World, accesses: seq<Access>, ks: set<string>) returns (w': World, l: Logical)
    requires Playable(e, w, accesses) && accesses != [] && AllStepped(w.missing)
    requires !BatchHazardFree(e, w, accesses, ks) && BatchHazardFree(e, w, accesses[..|accesses| - 1], ks)
    ensures Possible(e, w, accesses, w', l, ks) && !AnswersLikeMap(e, w', accesses, l, ks)
  {
    hide Bijection, RunSteps, NoPut, Safe, Consumed, AllStepped;
    var n := |accesses| - 1;
    var front, a := accesses[..n], accesses[n];
    var k, j := a.op.key, a.replica;
    assert e.Has(a);
    AddrDefined(e, k, j);
    LastIsUnsafe(e, w, accesses, ks);
    AddrsStored(e, w, front);
    var v := LastPut(front, k);
    if v == "" {
      LastPutIsCurrent(map[], front, k);
      UnsafeIsFree(e, w, front, a);
      FreeText(e, w, "a", k, j, "b", ks);
      w', l := Painted(w, "a").(store := Painted(w, "a").store[Addr(e, k, j) := "b"]), Constant(e, "a");
      NoPutKeepsValue(l, front, k);
    } else {
      var c := if v == "a" then "b" else "a";
      PaintedCoherent(e, w, c, ks);
      w', l := Painted(w, c), Constant(e, c);
      assert AddrStored(e, w.store, k, j);
      LastPutIsCurrent(l, front, k);
    }
    WrongAnswer(e, w, w', accesses, l, ks);
  }

  /** The unsafe access of a batch whose earlier accesses are hazard-free; it is to one of the keys. */
  lemma LastIsUnsafe(e: Epoch, w: World, accesses: seq<Access>, ks: set<string>)
    requires Playable(e, w, accesses) && accesses != []
    requires !BatchHazardFree(e, w, accesses, ks) && BatchHazardFree(e, w, accesses[..|accesses| - 1], ks)
    ensures var front, a := accesses[..|accesses| - 1], accesses[|accesses| - 1];
            var p0 := Progress(w.cache, w.missing, []);
            && a.op.key in ks && Name(a.op.key, a.replica) in e.labels
            && (forall i :: 0 <= i < |front| ==> Addrs(e, front)[i] in w.store)
            && !Safe(e, RunSteps(e, p0, front, Responses(e, w.store, front)),
                     Consumed(e, p0, front, Responses(e, w.store, front)), a)
  {
    var front, a := accesses[..|accesses| - 1], accesses[|accesses| - 1];
    var p0 := Progress(w.cache, w.missing, []);
    assert e.Has(a);
    AddrDefined(e, a.op.key, a.replica);
    AddrsStored(e, w, front);
    AddrsStored(e, w, accesses);
    var r, s := Responses(e, w.store, accesses), Responses(e, w.store, front);
    HazardsAlike(e, p0, p0, front, r, s, ks);
    RunAlike(e, p0, p0, front, r, s);
    ConsumedAlike(e, p0, p0, front, r, s);
    SafeAlike(e, RunSteps(e, p0, front, r), RunSteps(e, p0, front, s), Consumed(e, p0, front, r), a);
  }

  /** In a world of the same shape the last access still reads what was fetched, so a fetched text that
      is not current is a wrong answer. */
  lemma WrongAnswer(e: Epoch, w: World, w': World, accesses: seq<Access>, l: Logical, ks: set<string>)
    requires Playable(e, w, accesses) && Playable(e, w', accesses) && SameShape(w, w') && accesses != []
    requires !BatchHazardFree(e, w, accesses, ks) && BatchHazardFree(e, w, accesses[..|accesses| - 1], ks)
    requires var n := |accesses| - 1;
             && Addrs(e, accesses)[n] in w'.store
             && accesses[n].op.key in MapRun(l, Ops(accesses[..n]))
             && w'.store[Addrs(e, accesses)[n]] != MapRun(l, Ops(accesses[..n]))[accesses[n].op.key]
    ensures !AnswersLikeMap(e, w', accesses, l, ks)
  {
    hide Bijection, Addrs, MapRun;
    var n := |accesses| - 1;
    BatchesAlike(e, w, w', accesses, ks);
    BatchesAlike(e, w, w', accesses[..n], ks);
    LastIsUnsafe(e, w', accesses, ks);
    LastAccess(e, w', accesses);
    AddrsStored(e, w', accesses[..n]);
    FetchedText(e, Played(e, w', accesses[..n]), accesses[n], w'.store[Addrs(e, accesses)[n]]);
    AnswersNext(l, accesses);
    if AnswersLikeMap(e, w', accesses, l, ks) {
      TextIsAnswer(l, ks, accesses, Played(e, w', accesses).texts, n);
    }
  }

  /** A batch that is not hazard-free is answered wrongly in some world with the same vectors. */
  lemma {:induction false} UnsafeShows(e: Epoch, w: World, accesses: seq<Access>, ks: set<string>)
    returns (w': World, l: Logical)
    requires Playable(e, w, accesses) && AllStepped(w.missing) && !BatchHazardFree(e, w, accesses, ks)
    ensures Possible(e, w, accesses, w', l, ks) && !AnswersLikeMap(e, w', accesses, l, ks)
    decreases |accesses|
  {
    if accesses == [] {
      AddrsStored(e, w, accesses);
      assert false;
    } else if BatchHazardFree(e, w, accesses[..|accesses| - 1], ks) {
      w', l := LastUnsafeShows(e, w, accesses, ks);
    } else {
      w', l := UnsafeShows(e, w, accesses[..|accesses| - 1], ks);
      assert Playable(e, w', accesses);
      LastAccess(e, w', accesses);
      if AnswersLikeMap(e, w', accesses, l, ks) {
        AnswersFront(l, ks, accesses, Played(e, w', accesses[..|accesses| - 1]).texts, Played(e, w', accesses).texts);
      }
    }
  }

  /** A batch that answers like the map did so before its last access. */
  lemma AnswersFront(l: Logical, ks: set<string>, accesses: seq<Access>, front: seq<string>, texts: seq<string>)
    requires |texts| == |accesses| > 0 && front == texts[..|accesses| - 1]
    requires Answers(l, ks, accesses, texts)
    ensures Answers(l, ks, accesses[..|accesses| - 1], front)
  {
    var n := |accesses| - 1;
    AnswersNext(l, accesses);
    forall i | 0 <= i < n
      ensures Answered(l, ks, accesses[..n], front, i)
    {
      assert Answered(l, ks, accesses, texts, i);
    }
  }

  /** The exact condition for a batch and any set of keys.  For fixed vectors, the accesses to those keys
      are answered like a map for every choice of stored texts, cached values and map with which the
      replicas of those keys are coherent, if and only if the batch is hazard-free for them.  Hazards
      can be read off the vectors before the call. */
  lemma HazardFreeExactly(e: Epoch, w: World, accesses: seq<Access>, ks: set<string>)
    requires Playable(e, w, accesses) && BatchInBounds(e, w, accesses) && AllStepped(w.missing)
    ensures BatchHazardFree(e, w, accesses, ks)
            <==> forall w', l :: Possible(e, w, accesses, w', l, ks) ==> AnswersLikeMap(e, w', accesses, l, ks)
  {
    if BatchHazardFree(e, w, accesses, ks) {
      forall w', l | Possible(e, w, accesses, w', l, ks)
        ensures AnswersLikeMap(e, w', accesses, l, ks)
      {
        BatchesAlike(e, w, w', accesses, ks);
        BatchRefines(e, w', accesses, l, ks);
      }
    } else {
      var w', l := UnsafeShows(e, w, accesses, ks);
    }
  }
}
