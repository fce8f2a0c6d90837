/** The update cache: per key one value and one bit per replica that does not store it yet.
    The same structure, as `missing_new_replicas_`, remembers which replicas of a grown key
    have no copy of its value. */
module UpdateCache {
  import opened Smoothing
  import opened SlotMass

  datatype Entry = Entry(value: string, bits: seq<bool>)

  type Entries = map<string, Entry>

  function Hamming(bits: seq<bool>): nat {
    if bits == [] then 0
    else Hamming(bits[..|bits| - 1]) + if bits[|bits| - 1] then 1 else 0
  }

  function LeadingZeros(bits: seq<bool>): (n: nat)
    ensures n <= |bits|
    ensures forall i :: 0 <= i < n ==> !bits[i]
    ensures n < |bits| ==> bits[n]
  {
    if bits == [] || bits[0] then 0 else 1 + LeadingZeros(bits[1..])
  }

  function Fill(size: nat, b: bool): (s: seq<bool>)
    ensures |s| == size && forall i :: 0 <= i < size ==> s[i] == b
  {
    seq(size, _ => b)
  }

  /** The replicas of `key` whose stored copy is out of date. */
  function Pending(c: Entries, key: string): set<nat> {
    if key in c then set i: nat | i < |c[key].bits| && c[key].bits[i] else {}
  }

  /** Zeros followed by ones. */
  ghost predicate Stepped(bits: seq<bool>) {
    forall i :: LeadingZeros(bits) <= i < |bits| ==> bits[i]
  }

  // ------------------------------------------------------------------ operations

  /** The bit cleared.  Past the end nothing is changed; the methods of the class exclude that. */
  function Cleared(bits: seq<bool>, j: nat): (r: seq<bool>)
    ensures |r| == |bits|
  {
    if j < |bits| then bits[j := false] else bits
  }

  /** `check_for_update`: an entry without pending replicas is erased. */
  function CheckForUpdate(c: Entries, key: string, j: nat): (Entries, string) {
    if key !in c then (c, "")
    else
      var bits := Cleared(c[key].bits, j);
      (if Hamming(bits) == 0 then c - {key} else c[key := Entry(c[key].value, bits)],
       if j < |c[key].bits| && c[key].bits[j] then c[key].value else "")
  }

  function Resized(bits: seq<bool>, size: nat): (s: seq<bool>)
    ensures |s| == size
  {
    seq(size, i requires 0 <= i < size => if i < |bits| then bits[i] else true)
  }

  function EditBitVectorSize(c: Entries, key: string, size: nat): Entries {
    c[key := if key in c then Entry(c[key].value, Resized(c[key].bits, size))
             else Entry("", Fill(size, false))]
  }

  function PopulateReplicaUpdates(c: Entries, key: string, val: string, replicas: nat): Entries {
    c[key := Entry(val, Fill(replicas, true))]
  }

  function Marked(bits: seq<bool>, missing: seq<bool>): (s: seq<bool>)
    ensures |s| == |bits|
  {
    seq(|bits|, i requires 0 <= i < |bits| => bits[i] || LeadingZeros(missing) <= i < |missing|)
  }

  /** Marking the missing replicas stays inside the cached vector. */
  predicate LongEnough(bits: seq<bool>, missing: seq<bool>) {
    LeadingZeros(missing) < |missing| ==> |missing| <= |bits|
  }

  function MirrorUpdateCache(c: Entries, key: string, value: string, missing: seq<bool>): Entries {
    c[key := if key in c then Entry(c[key].value, Marked(c[key].bits, missing)) else Entry(value, missing)]
  }

  /** `check_if_missing`: hands the missing replicas of the key over to the cache; returns what
      is left missing, and the cache. */
  function CheckIfMissing(missing: Entries, key: string, value: string, c: Entries): (Entries, Entries) {
    if key !in missing then (missing, c)
    else (missing - {key}, MirrorUpdateCache(c, key, value, missing[key].bits))
  }

  /** `sample_a_replica`, with `u` the uniform draw in [0,1) behind `prob` and `rnd` the draw of
      `rand()`. */
  function SampleReplica(missing: Entries, key: string, replicas: nat, isReal: bool,
                         frequency: real, pMax: real, u: real, rnd: nat): (j: nat)
    requires replicas > 0
    requires key in missing ==>
               && 0 < LeadingZeros(missing[key].bits) <= replicas
               && Weight(replicas, frequency, pMax) > 0.0
    requires u < 1.0
    ensures j < replicas
    ensures key in missing && isReal ==> j < LeadingZeros(missing[key].bits)
  {
    if key !in missing then rnd % replicas
    else
      var a := LeadingZeros(missing[key].bits);
      if u < PInitialised(a, replicas, frequency, pMax) || isReal then rnd % a
      else
        PInitialisedFull(replicas, frequency, pMax);
        a + rnd % (replicas - a)
  }

  /** The constructor from pairs: every key starts with nothing pending. */
  function InitialEntries(pairs: seq<(string, nat)>): Entries {
    if pairs == [] then map[]
    else
      var (key, r) := pairs[|pairs| - 1];
      InitialEntries(pairs[..|pairs| - 1])[key := Entry("", Fill(r, false))]
  }

  // ------------------------------------------------------------------ properties

  /** No later pair has the same key. */
  ghost predicate LastOf(pairs: seq<(string, nat)>, i: nat)
    requires i < |pairs|
  {
    forall j :: i < j < |pairs| ==> pairs[j].0 != pairs[i].0
  }

  ghost predicate IsKeyOf(pairs: seq<(string, nat)>, k: string) {
    exists i :: 0 <= i < |pairs| && pairs[i].0 == k
  }

  lemma IsKeySnoc(pairs: seq<(string, nat)>, k: string)
    requires pairs != []
    ensures IsKeyOf(pairs, k) <==> IsKeyOf(pairs[..|pairs| - 1], k) || pairs[|pairs| - 1].0 == k
  {
    if i :| 0 <= i < |pairs| && pairs[i].0 == k {
      assert i < |pairs| - 1 ==> pairs[..|pairs| - 1][i].0 == k;
    }
  }

  /** An entry for the key of every pair, and for no other. */
  lemma {:induction false} InitialKeys(pairs: seq<(string, nat)>, k: string)
    ensures k in InitialEntries(pairs) <==> IsKeyOf(pairs, k)
  {
    if pairs != [] {
      InitialKeys(pairs[..|pairs| - 1], k);
      IsKeySnoc(pairs, k);
    }
  }

  /** With nothing pending, and one bit per replica of the last pair. */
  lemma {:induction false} InitialAt(pairs: seq<(string, nat)>, i: nat)
    requires i < |pairs| && LastOf(pairs, i)
    ensures pairs[i].0 in InitialEntries(pairs)
    ensures InitialEntries(pairs)[pairs[i].0] == Entry("", Fill(pairs[i].1, false))
  {
    var m := |pairs| - 1;
    if i < m {
      assert LastOf(pairs[..m], i);
      InitialAt(pairs[..m], i);
    }
  }

  lemma InitialContents(pairs: seq<(string, nat)>)
    ensures forall k :: k in InitialEntries(pairs) <==> IsKeyOf(pairs, k)
    ensures forall i :: 0 <= i < |pairs| && LastOf(pairs, i) ==>
              pairs[i].0 in InitialEntries(pairs)
              && InitialEntries(pairs)[pairs[i].0] == Entry("", seq(pairs[i].1, _ => false))
  {
    hide LastOf, IsKeyOf, InitialEntries;
    forall k
      ensures k in InitialEntries(pairs) <==> IsKeyOf(pairs, k)
    {
      InitialKeys(pairs, k);
    }
    forall i | 0 <= i < |pairs| && LastOf(pairs, i)
      ensures pairs[i].0 in InitialEntries(pairs)
      ensures InitialEntries(pairs)[pairs[i].0] == Entry("", seq(pairs[i].1, _ => false))
    {
      InitialAt(pairs, i);
    }
  }

  lemma HammingSnoc(bits: seq<bool>, b: bool)
    ensures Hamming(bits + [b]) == Hamming(bits) + if b then 1 else 0
  {
    assert (bits + [b])[..|bits|] == bits;
  }

  lemma {:induction false} HammingZero(bits: seq<bool>)
    ensures Hamming(bits) == 0 <==> forall i :: 0 <= i < |bits| ==> !bits[i]
  {
    if bits != [] {
      HammingZero(bits[..|bits| - 1]);
    }
  }

  /** Clearing a set bit lowers the weight by one. */
  lemma {:induction false} HammingClear(bits: seq<bool>, j: nat)
    requires j < |bits|
    ensures Hamming(bits[j := false]) == Hamming(bits) - if bits[j] then 1 else 0
  {
    var m := |bits| - 1;
    if j < m {
      HammingClear(bits[..m], j);
      assert bits[j := false][..m] == bits[..m][j := false];
    } else {
      assert bits[j := false][..m] == bits[..m];
    }
  }

  /** The weight is the number of pending replicas. */
  lemma {:induction false} HammingIsPending(bits: seq<bool>)
    ensures Hamming(bits) == |set i: nat | i < |bits| && bits[i]|
  {
    var all := set i: nat | i < |bits| && bits[i];
    if bits == [] {
      assert all == {};
    } else {
      var m := |bits| - 1;
      var front := set i: nat | i < m && bits[..m][i];
      HammingIsPending(bits[..m]);
      assert all == if bits[m] then front + {m} else front;
    }
  }

  /** The check takes replica j off the pending set of its key, returns the value exactly if it
      was pending, and touches no other key; an entry survives only with a pending replica. */
  lemma CheckForUpdateEffect(c: Entries, key: string, j: nat)
    ensures var (c', v) := CheckForUpdate(c, key, j);
            && Pending(c', key) == Pending(c, key) - {j}
            && v == (if j in Pending(c, key) then c[key].value else "")
            && (key in c' ==> key in c && c'[key].value == c[key].value && Pending(c', key) != {})
            && (key in c' ==> |c'[key].bits| == |c[key].bits|)
            && (forall k :: k != key ==> (k in c' <==> k in c) && (k in c ==> c'[k] == c[k]))
  {
    if key in c {
      var bits := Cleared(c[key].bits, j);
      HammingZero(bits);
      assert Pending(c, key) - {j} == set i: nat | i < |bits| && bits[i];
      if Hamming(bits) != 0 {
        var i :| 0 <= i < |bits| && bits[i];
        assert i in Pending(CheckForUpdate(c, key, j).0, key);
      }
    }
  }

  /** Every sequence of resizings, from an empty map, leaves only zeros-then-ones vectors with a
      leading zero. */
  ghost predicate AllStepped(c: Entries) {
    forall k :: k in c ==> Stepped(c[k].bits) && LeadingZeros(c[k].bits) >= 1
  }

  function EditAll(c: Entries, edits: seq<(string, nat)>): Entries {
    if edits == [] then c
    else
      var (key, size) := edits[|edits| - 1];
      EditBitVectorSize(EditAll(c, edits[..|edits| - 1]), key, size)
  }

  lemma EditKeepsStepped(c: Entries, key: string, size: nat)
    requires AllStepped(c) && size > 0
    ensures AllStepped(EditBitVectorSize(c, key, size))
    ensures key in c ==> LeadingZeros(EditBitVectorSize(c, key, size)[key].bits)
                         == (if size < LeadingZeros(c[key].bits) then size else LeadingZeros(c[key].bits))
  {
    var bits := EditBitVectorSize(c, key, size)[key].bits;
    if key in c {
      var z := LeadingZeros(c[key].bits);
      assert !c[key].bits[0] && !bits[0];
      assert forall i :: 0 <= i < size && i < z ==> !bits[i];
      assert z < size ==> bits[z];
    } else {
      assert !bits[0];
    }
  }

  lemma {:induction false} EditsKeepStepped(c: Entries, edits: seq<(string, nat)>)
    requires AllStepped(c) && forall e :: e in edits ==> e.1 > 0
    ensures AllStepped(EditAll(c, edits))
  {
    if edits != [] {
      var e := edits[|edits| - 1];
      EditsKeepStepped(c, edits[..|edits| - 1]);
      assert e in edits;
      EditKeepsStepped(EditAll(c, edits[..|edits| - 1]), e.0, e.1);
    }
  }

  lemma SteppedShape(bits: seq<bool>)
    ensures Stepped(bits) <==> LeadingZeros(bits) + Hamming(bits) == |bits|
  {
    SteppedWeight(bits, LeadingZeros(bits));
  }

  lemma {:induction false} SteppedWeight(bits: seq<bool>, z: nat)
    requires z <= |bits| && forall i :: 0 <= i < z ==> !bits[i]
    ensures Hamming(bits) <= |bits| - z
    ensures Hamming(bits) == |bits| - z <==> forall i :: z <= i < |bits| ==> bits[i]
  {
    if z == |bits| {
      HammingZero(bits);
    } else {
      SteppedWeight(bits[..|bits| - 1], z);
    }
  }

  /** Growing a key marks its new replicas as missing exactly when the key already has an entry:
      the first growth of a key inserts a vector of zeros. */
  lemma GrowthMarksNewReplicas(c: Entries, key: string, rOld: nat, rNew: nat)
    requires rOld < rNew && (key in c ==> |c[key].bits| == rOld)
    ensures (forall i: nat :: rOld <= i < rNew ==> i in Pending(EditBitVectorSize(c, key, rNew), key)) <==> key in c
  {
    if key !in c {
      assert rOld !in Pending(EditBitVectorSize(c, key, rNew), key);
    }
  }

  /** The handoff.  With stepped missing bits and a cache vector that is long enough, the cache's
      pending set grows by exactly the missing replicas, whichever arm ran; the key leaves the
      missing map, and no other key changes in either map. */
  lemma HandoffEffect(missing: Entries, key: string, value: string, c: Entries)
    requires key in missing && Stepped(missing[key].bits)
    requires key in c ==> LongEnough(c[key].bits, missing[key].bits)
    ensures var (missing', c') := CheckIfMissing(missing, key, value, c);
            var bits := missing[key].bits;
            && (forall i: nat :: i in Pending(c', key)
                  <==> i in Pending(c, key) || LeadingZeros(bits) <= i < |bits|)
            && missing' == missing - {key}
            && c'[key].value == (if key in c then c[key].value else value)
            && c' - {key} == c - {key}
  {
  }

  // ------------------------------------------------------------------ the class

  /** `update_cache`, with the concurrent hash map as one map; each method is atomic. */
  class Cache {
    var entries: Entries

    constructor ()
      ensures entries == map[]
    {
      entries := map[];
    }

    constructor FromPairs(pairs: seq<(string, nat)>)
      ensures entries == InitialEntries(pairs)
      ensures forall k :: k in entries <==> IsKeyOf(pairs, k)
      ensures forall i :: 0 <= i < |pairs| && LastOf(pairs, i) ==>
                pairs[i].0 in entries && entries[pairs[i].0] == Entry("", seq(pairs[i].1, _ => false))
    {
      entries := map[];
      new;
      InitialContents(pairs);
      for i := 0 to |pairs|
        invariant entries == InitialEntries(pairs[..i])
      {
        assert pairs[..i + 1][..i] == pairs[..i];
        entries := entries[pairs[i].0 := Entry("", Fill(pairs[i].1, false))];
      }
      assert pairs[..|pairs|] == pairs;
    }

    /** The counting loop of `hamming_weight`. */
    static method HammingWeight(bits: seq<bool>) returns (count: nat)
      ensures count == Hamming(bits)
    {
      count := 0;
      for i := 0 to |bits|
        invariant count == Hamming(bits[..i])
      {
        assert bits[..i + 1] == bits[..i] + [bits[i]];
        HammingSnoc(bits[..i], bits[i]);
        if bits[i] {
          count := count + 1;
        }
      }
      assert bits[..|bits|] == bits;
    }

    /** The counting loop of `num_leading_zeros`. */
    static method NumLeadingZeros(bits: seq<bool>) returns (i: nat)
      ensures i == LeadingZeros(bits)
    {
      i := 0;
      while i < |bits|
        invariant i <= |bits|
        invariant LeadingZeros(bits) == i + LeadingZeros(bits[i..])
      {
        if bits[i] {
          break;
        }
        i := i + 1;
      }
    }

    method CheckUpdate(key: string, replicaId: nat) returns (toSend: string)
      requires key in entries ==> replicaId < |entries[key].bits|
      modifies this
      ensures (entries, toSend) == CheckForUpdate(old(entries), key, replicaId)
    {
      toSend := "";
      if key in entries {
        var bits := entries[key].bits;
        if bits[replicaId] {
          bits := bits[replicaId := false];
          toSend := entries[key].value;
        }
        assert bits == entries[key].bits[replicaId := false];
        var weight := HammingWeight(bits);
        if weight == 0 {
          entries := entries - {key};
        } else {
          entries := entries[key := Entry(entries[key].value, bits)];
        }
      }
    }

    method EditSize(key: string, size: nat)
      modifies this
      ensures entries == EditBitVectorSize(old(entries), key, size)
      ensures entries.Keys == old(entries).Keys + {key} && |entries[key].bits| == size
      ensures forall k :: k in old(entries) && k != key ==> entries[k] == old(entries)[k]
      ensures if key in old(entries)
              then entries[key].value == old(entries)[key].value
                   && forall i :: 0 <= i < size ==>
                        entries[key].bits[i] == (i < |old(entries)[key].bits| ==> old(entries)[key].bits[i])
              else entries[key].value == "" && forall i :: 0 <= i < size ==> !entries[key].bits[i]
    {
      if key in entries {
        var was := entries[key].bits;
        var bits := Fill(size, true);
        var i := 0;
        while i < |was| && i < |bits|
          invariant i <= |was| && i <= size && |bits| == size
          invariant forall k :: 0 <= k < size ==> bits[k] == if k < i then was[k] else true
        {
          bits := bits[i := was[i]];
          i := i + 1;
        }
        assert bits == Resized(was, size);
        entries := entries[key := Entry(entries[key].value, bits)];
      } else {
        entries := entries[key := Entry("", Fill(size, false))];
      }
    }

    method Populate(key: string, val: string, replicas: nat) returns (inserted: bool)
      modifies this
      ensures entries == PopulateReplicaUpdates(old(entries), key, val, replicas)
      ensures entries == old(entries)[key := Entry(val, seq(replicas, _ => true))]
      ensures inserted <==> key !in old(entries)
    {
      inserted := key !in entries;
      entries := entries[key := Entry(val, Fill(replicas, true))];
    }

    method Mirror(key: string, value: string, missing: seq<bool>)
      requires key in entries ==> LongEnough(entries[key].bits, missing)
      modifies this
      ensures entries == MirrorUpdateCache(old(entries), key, value, missing)
      ensures entries.Keys == old(entries).Keys + {key}
      ensures forall k :: k in old(entries) && k != key ==> entries[k] == old(entries)[k]
      ensures if key in old(entries)
              then entries[key].value == old(entries)[key].value
                   && |entries[key].bits| == |old(entries)[key].bits|
                   && forall i :: 0 <= i < |entries[key].bits| ==>
                        (entries[key].bits[i] <==>
                           old(entries)[key].bits[i] || (i < |missing| && exists j :: 0 <= j <= i && missing[j]))
              else entries[key] == Entry(value, missing)
    {
      if key in entries {
        var was := entries[key].bits;
        var bits := was;
        var z := NumLeadingZeros(missing);
        var i := z;
        while i < |missing|
          invariant z <= i <= |missing| && (z < |missing| ==> |missing| <= |bits|) && |bits| == |was|
          invariant forall k :: 0 <= k < |bits| ==> bits[k] == (was[k] || z <= k < i)
        {
          bits := bits[i := true];
          i := i + 1;
        }
        assert bits == Marked(was, missing);
        entries := entries[key := Entry(entries[key].value, bits)];
      } else {
        entries := entries[key := Entry(value, missing)];
      }
    }

    /** Called on `missing_new_replicas_` with the update cache as the other object. */
    method CheckMissing(key: string, value: string, cache: Cache)
      requires cache != this
      requires key in entries && key in cache.entries ==> LongEnough(cache.entries[key].bits, entries[key].bits)
      modifies this, cache
      ensures (entries, cache.entries) == CheckIfMissing(old(entries), key, value, old(cache.entries))
    {
      if key in entries {
        cache.Mirror(key, value, entries[key].bits);
        entries := entries - {key};
      }
    }

    method Sample(key: string, replicas: nat, isReal: bool, frequency: real, pMax: real, u: real, rnd: nat)
      returns (j: nat)
      requires replicas > 0 && u < 1.0
      requires key in entries ==>
                 && 0 < LeadingZeros(entries[key].bits) <= replicas
                 && Weight(replicas, frequency, pMax) > 0.0
      ensures j == SampleReplica(entries, key, replicas, isReal, frequency, pMax, u, rnd)
    {
      if key !in entries {
        return rnd % replicas;
      }
      var a := NumLeadingZeros(entries[key].bits);
      assert a <= replicas;
      var exists_ := u < PInitialised(a, replicas, frequency, pMax);
      if exists_ || isReal {
        j := rnd % a;
      } else {
        j := a + rnd % (replicas - a);
      }
    }
  }
}
