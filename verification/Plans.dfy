/** What the proxy plans for its keys - counts, directory, p_max - and how creation and a change of
    the distribution keep it in order. */
module Plans {
  import opened Naming
  import opened Sums
  import opened Smoothing
  import opened Directory
  import opened UpdateCache
  import opened Storage
  import opened Refinement

  function Repeat(value: string, n: nat): (s: seq<string>)
    ensures |s| == n && forall i :: 0 <= i < n ==> s[i] == value
  {
    seq(n, _ => value)
  }

  // ------------------------------------------------------------------ missing replicas

  /** `missing_new_replicas_` after the loop over the keys of a new distribution. */
  function Grown(missing: Entries, keys: seq<string>, news: seq<nat>, was: Counts): Entries
    requires |keys| == |news|
  {
    if keys == [] then missing
    else
      var m := |keys| - 1;
      var rest := Grown(missing, keys[..m], news[..m], was);
      if news[m] > At(was, keys[m]) then EditBitVectorSize(rest, keys[m], news[m]) else rest
  }

  lemma {:induction false} GrownStepped(missing: Entries, keys: seq<string>, news: seq<nat>, was: Counts)
    requires |keys| == |news| && AllStepped(missing)
    ensures AllStepped(Grown(missing, keys, news, was))
  {
    if keys != [] {
      var m := |keys| - 1;
      GrownStepped(missing, keys[..m], news[..m], was);
      if news[m] > At(was, keys[m]) {
        EditKeepsStepped(Grown(missing, keys[..m], news[..m], was), keys[m], news[m]);
      }
    }
  }

  lemma {:induction false} GrownOther(missing: Entries, keys: seq<string>, news: seq<nat>, was: Counts, k: string)
    requires |keys| == |news| && k !in keys
    ensures k in Grown(missing, keys, news, was) <==> k in missing
    ensures k in missing ==> Grown(missing, keys, news, was)[k] == missing[k]
  {
    if keys != [] {
      assert keys[|keys| - 1] in keys;
      GrownOther(missing, keys[..|keys| - 1], news[..|keys| - 1], was, k);
    }
  }

  lemma {:induction false} GrownDomain(missing: Entries, keys: seq<string>, news: seq<nat>, was: Counts)
    requires |keys| == |news|
    ensures forall k :: k in Grown(missing, keys, news, was) ==> k in missing || k in keys
  {
    if keys != [] {
      var m := |keys| - 1;
      GrownDomain(missing, keys[..m], news[..m], was);
      assert keys[m] in keys;
    }
  }

  /** A key that grows gets a vector of its new size; any other keeps its entry, or has none. */
  lemma {:induction false} GrownAt(missing: Entries, keys: seq<string>, news: seq<nat>, was: Counts, p: nat)
    requires p < |keys| == |news| && Distinct(keys)
    ensures var r := Grown(missing, keys, news, was);
            if news[p] > At(was, keys[p]) then keys[p] in r && |r[keys[p]].bits| == news[p]
            else (keys[p] in r <==> keys[p] in missing) && (keys[p] in missing ==> r[keys[p]] == missing[keys[p]])
  {
    var m := |keys| - 1;
    if p < m {
      GrownAt(missing, keys[..m], news[..m], was, p);
    } else {
      assert keys[m] !in keys[..m];
      GrownOther(missing, keys[..m], news[..m], was, keys[m]);
    }
  }

  // ------------------------------------------------------------------ drawing replicas

  function SampledOne(counts: Counts, missing: Entries, freq: map<string, real>, pMax: real,
                      op: Op, isTrue: bool, draw: (real, nat)): (a: Access)
    requires Drawable(counts, missing, freq, pMax, op.key) && draw.0 < 1.0
    ensures a.op == op && a.isTrue == isTrue && a.replica < counts[op.key]
    ensures isTrue ==> a.replica !in Pending(missing, op.key)
  {
    Access(op, isTrue, SampleReplica(missing, op.key, counts[op.key], isTrue, FrequencyOf(freq, op.key), pMax,
                                     draw.0, draw.1))
  }

  /** The replicas that the first loop of `execute_batch` draws; all before any handoff. */
  function Sampled(counts: Counts, missing: Entries, freq: map<string, real>, pMax: real,
                   ops: seq<Op>, trues: seq<bool>, draws: seq<(real, nat)>): (s: seq<Access>)
    requires |ops| == |trues| == |draws|
    requires forall i :: 0 <= i < |ops| ==> Drawable(counts, missing, freq, pMax, ops[i].key) && draws[i].0 < 1.0
    ensures |s| == |ops|
  {
    seq(|ops|, i requires 0 <= i < |ops| => SampledOne(counts, missing, freq, pMax, ops[i], trues[i], draws[i]))
  }

  /** `key_to_frequency_[key]`; a key without an entry counts as 0. */
  function FrequencyOf(freq: map<string, real>, key: string): real {
    if key in freq then freq[key] else 0.0
  }

  predicate Drawable(counts: Counts, missing: Entries, freq: map<string, real>, pMax: real, key: string) {
    && key in counts && counts[key] > 0
    && (key in missing ==>
          && 0 < LeadingZeros(missing[key].bits) <= counts[key]
          && Weight(counts[key], FrequencyOf(freq, key), pMax) > 0.0)
  }

  // ------------------------------------------------------------------ counts

  function NatCounts(probs: seq<real>, alpha: real): (r: seq<nat>)
    requires alpha > 0.0 && forall i :: 0 <= i < |probs| ==> probs[i] > 0.0
    ensures r == ReplicaCounts(probs, alpha) && forall i :: 0 <= i < |r| ==> r[i] >= 1
  {
    seq(|probs|, i requires 0 <= i < |probs| =>
      CountCovers(probs[i], alpha);
      ReplicaCount(probs[i], alpha))
  }

  function Pairs(keys: seq<string>, news: seq<nat>): (s: seq<(string, nat)>)
    requires |keys| == |news|
    ensures |s| == |keys|
  {
    seq(|keys|, i requires 0 <= i < |keys| => (keys[i], news[i]))
  }

  /** The update cache starts with a vector of zeros per key. */
  lemma {:induction false} InitiallyQuiet(pairs: seq<(string, nat)>, counts: Counts)
    requires forall i :: 0 <= i < |pairs| ==> pairs[i].0 in counts && counts[pairs[i].0] == pairs[i].1
    ensures var c := InitialEntries(pairs);
            forall k :: k in c ==> k in counts && |c[k].bits| == counts[k] && Pending(c, k) == {}
  {
    if pairs != [] {
      InitiallyQuiet(pairs[..|pairs| - 1], counts);
      var c, c' := InitialEntries(pairs[..|pairs| - 1]), InitialEntries(pairs);
      assert forall k :: k in c' && k != pairs[|pairs| - 1].0 ==> Pending(c', k) == Pending(c, k);
    }
  }

  // ------------------------------------------------------------------ building the directory

  /** Storage with the labels lo..hi-1 holding one value, and no lower label changed. */
  ghost predicate FilledFrom(was: map<string, string>, store: map<string, string>, lo: nat, hi: nat, value: string) {
    && (forall l: nat :: lo <= l < hi ==> Decimal(l) in store && store[Decimal(l)] == value)
    && (forall l: nat :: l < lo && Decimal(l) in was ==> Decimal(l) in store && store[Decimal(l)] == was[Decimal(l)])
  }

  lemma FillOne(was: map<string, string>, store: map<string, string>, lo: nat, hi: nat, value: string)
    requires FilledFrom(was, store, lo, hi, value) && lo <= hi
    ensures FilledFrom(was, store[Decimal(hi) := value], lo, hi + 1, value)
  {
    forall l: nat | l <= hi
      ensures Decimal(l) == Decimal(hi) ==> l == hi
    {
      if Decimal(l) == Decimal(hi) {
        DecimalInjective(l, hi);
      }
    }
  }

  /** The texts of n labels from `first` on. */
  function LabelTexts(first: nat, n: nat): (s: seq<string>)
    ensures |s| == n && forall i :: 0 <= i < n ==> s[i] == Decimal(first + i)
  {
    seq(n, i requires 0 <= i < n => Decimal(first + i))
  }

  /** The labels in the buffer are those from `from` on. */
  ghost predicate Waiting(buffer: seq<string>, from: nat) {
    buffer == LabelTexts(from, |buffer|)
  }

  /** Storage after `done` labels have been written. */
  ghost predicate Written(was: map<string, string>, store: map<string, string>, first: nat, done: nat, value: string) {
    store == Overwritten(was, LabelTexts(first, done), Repeat(value, done))
  }

  lemma NothingInserted(labels: map<string, nat>, key: string, m: map<string, string>, first: nat, value: string)
    ensures Labelled(labels, labels, key, 0, first) && Waiting([], first) && Written(m, m, first, 0, value)
    ensures AllFull([])
    ensures Total([]) == 0
  {
  }

  lemma NothingWaits(from: nat)
    ensures Waiting([], from)
  {
  }

  lemma OneWaits(buffer: seq<string>, from: nat)
    requires Waiting(buffer, from)
    ensures Waiting(buffer + [Decimal(from + |buffer|)], from)
  {
    assert buffer + [Decimal(from + |buffer|)] == LabelTexts(from, |buffer| + 1);
  }

  lemma AllWritten(was: map<string, string>, store: map<string, string>, first: nat, num: nat, value: string)
    requires Written(was, store, first, num, value)
    ensures store == Overwritten(was, LabelTexts(first, num), Repeat(value, num))
  {
  }

  /** Two pieces, one after the other, are written like one. */
  lemma {:induction false} OverwrittenTwice(m: map<string, string>, a: seq<string>, u: seq<string>, b: seq<string>,
                                            v: seq<string>)
    requires |a| == |u| && |b| == |v|
    ensures Overwritten(Overwritten(m, a, u), b, v) == Overwritten(m, a + b, u + v)
    decreases |b|
  {
    if b == [] {
      assert a + b == a && u + v == u;
    } else {
      var n := |b| - 1;
      OverwrittenTwice(m, a, u, b[..n], v[..n]);
      OverwrittenPrefix(Overwritten(m, a, u), b[..n], v, v[..n]);
      assert (a + b)[..|a| + n] == a + b[..n];
      OverwrittenPrefix(m, a + b[..n], u + v, u + v[..n]);
    }
  }

  lemma WrittenAfter(m: map<string, string>, first: nat, done: nat, n: nat, value: string)
    ensures Overwritten(Overwritten(m, LabelTexts(first, done), Repeat(value, done)),
                        LabelTexts(first + done, n), Repeat(value, n))
            == Overwritten(m, LabelTexts(first, done + n), Repeat(value, done + n))
  {
    OverwrittenTwice(m, LabelTexts(first, done), Repeat(value, done), LabelTexts(first + done, n), Repeat(value, n));
    assert LabelTexts(first, done) + LabelTexts(first + done, n) == LabelTexts(first, done + n);
    assert Repeat(value, done) + Repeat(value, n) == Repeat(value, done + n);
  }

  lemma WrittenOne(m: map<string, string>, first: nat, n: nat, value: string)
    ensures Overwritten(m, LabelTexts(first, n + 1), Repeat(value, n + 1))
            == Overwritten(m, LabelTexts(first, n), Repeat(value, n))[Decimal(first + n) := value]
  {
    var keys := LabelTexts(first, n + 1);
    assert keys[..n] == LabelTexts(first, n);
    OverwrittenPrefix(m, keys[..n], Repeat(value, n + 1), Repeat(value, n));
  }

  /** What has been written is filled. */
  lemma {:induction false} WrittenIsFilled(was: map<string, string>, lo: nat, n: nat, value: string)
    ensures FilledFrom(was, Overwritten(was, LabelTexts(lo, n), Repeat(value, n)), lo, lo + n, value)
  {
    if n > 0 {
      hide FilledFrom, Overwritten, LabelTexts, Repeat;
      WrittenIsFilled(was, lo, n - 1, value);
      WrittenOne(was, lo, n - 1, value);
      FillOne(was, Overwritten(was, LabelTexts(lo, n - 1), Repeat(value, n - 1)), lo, lo + n - 1, value);
    }
  }

  /** The sizes of the writes: 50 labels each, and the last one what is left. */
  ghost predicate Chunks(sizes: seq<nat>, num: nat) {
    && Total(sizes) == num
    && forall i :: 0 <= i < |sizes| ==> if i < |sizes| - 1 then sizes[i] == 50 else 1 <= sizes[i] <= 50
  }

  ghost predicate AllFull(sizes: seq<nat>) {
    forall i :: 0 <= i < |sizes| ==> sizes[i] == 50
  }

  lemma FullChunk(sizes: seq<nat>)
    requires AllFull(sizes)
    ensures AllFull(sizes + [50]) && Total(sizes + [50]) == Total(sizes) + 50
  {
    TotalSnoc(sizes, 50);
  }

  lemma LastChunk(sizes: seq<nat>, done: nat, left: nat)
    requires AllFull(sizes) && Total(sizes) == done && left < 50
    ensures Chunks(sizes + if left > 0 then [left] else [], done + left)
  {
    if left > 0 {
      TotalSnoc(sizes, left);
    } else {
      assert sizes + [] == sizes;
    }
  }

  /** A non-empty value for every key that will be created. */
  ghost predicate FillsKeys(fill: map<string, string>) {
    forall k :: k in fill ==> fill[k] != ""
  }

  /** While keys are created: the directory is a bijection onto the labels used so far, and each
      label stores the value drawn for its key. */
  ghost predicate Built(labels: map<string, nat>, counts: Counts, store: map<string, string>, next: nat,
                        fill: map<string, string>) {
    && Bijection(labels, counts, next) && Apart(counts)
    && counts.Keys <= fill.Keys
    && forall k, j: nat :: k in counts && j < counts[k] ==> Holds(labels, store, k, j, fill[k])
  }

  ghost predicate Holds(labels: map<string, nat>, store: map<string, string>, k: string, j: nat, value: string) {
    && Name(k, j) in labels
    && Decimal(labels[Name(k, j)]) in store && store[Decimal(labels[Name(k, j)])] == value
  }

  /** Creating one more key keeps all of it. */
  lemma BuildKey(labels: map<string, nat>, counts: Counts, store: map<string, string>, next: nat,
                 fill: map<string, string>, key: string, r: nat, labels': map<string, nat>,
                 store': map<string, string>, next': nat)
    requires Built(labels, counts, store, next, fill) && key !in counts && Apart(counts[key := r])
    requires key in fill && next' == next + r && Labelled(labels, labels', key, r, next)
    requires FilledFrom(store, store', next, next', fill[key])
    ensures Built(labels', counts[key := r], store', next', fill)
  {
    var counts' := counts[key := r];
    LabelledExtendsBijection(labels, labels', counts, next, key, r);
    forall k, j: nat | k in counts' && j < counts'[k]
      ensures Holds(labels', store', k, j, fill[k])
    {
      if k == key {
        assert labels'[Name(k, j)] == next + j;
      } else {
        assert Holds(labels, store, k, j, fill[k]);
        RangeIsNew(counts, key, 0, r);
        assert Name(k, j) in Names(counts);
      }
    }
  }

  /** The same for names that may clash: nothing is promised once two replicas share one. */
  ghost predicate BuiltIfApart(labels: map<string, nat>, counts: Counts, store: map<string, string>, next: nat,
                               fill: map<string, string>) {
    Apart(counts) ==> Built(labels, counts, store, next, fill)
  }

  lemma BuildKeyIfApart(labels: map<string, nat>, counts: Counts, store: map<string, string>, next: nat,
                        fill: map<string, string>, key: string, r: nat, labels': map<string, nat>,
                        store': map<string, string>, next': nat)
    requires BuiltIfApart(labels, counts, store, next, fill) && key !in counts
    requires key in fill && next' == next + r && Labelled(labels, labels', key, r, next)
    requires FilledFrom(store, store', next, next', fill[key])
    ensures BuiltIfApart(labels', counts[key := r], store', next', fill)
  {
    hide Built, Apart, Labelled, FilledFrom;
    if Apart(counts[key := r]) {
      ApartFewer(counts[key := r], counts);
      BuildKey(labels, counts, store, next, fill, key, r, labels', store', next');
    }
  }

  // ------------------------------------------------------------------ the plan

  lemma {:induction false} DistinctCount(keys: seq<string>)
    requires Distinct(keys)
    ensures |Elems(keys)| == |keys|
  {
    if keys != [] {
      var front, last := keys[..|keys| - 1], keys[|keys| - 1];
      DistinctCount(front);
      assert keys == front + [last];
      assert Elems(keys) == Elems(front) + {last};
      assert last !in front;
    }
  }

  /** Distinct keys with a distribution over them, a dummy key besides, and an alpha of at least 1/n. */
  ghost predicate Fitting(keys: seq<string>, probs: seq<real>, alpha: real, dummyKey: string, size: nat) {
    && |keys| == size > 0 && Distinct(keys) && dummyKey !in keys
    && |probs| == size && IsDistribution(probs)
    && Enough(alpha, size)
  }

  /** The counts that creation gives to the keys and the dummy. */
  function Planned(keys: seq<string>, news: seq<nat>, dummyKey: string, dummies: nat): Counts
    requires |keys| == |news|
  {
    CountsOf(keys, news)[dummyKey := dummies]
  }

  /** And no two replicas that will exist have one name. */
  ghost predicate Usable(keys: seq<string>, probs: seq<real>, alpha: real, dummyKey: string, size: nat) {
    && Fitting(keys, probs, alpha, dummyKey, size)
    && DummyCount(probs, alpha) >= 0
    && Apart(Planned(keys, NatCounts(probs, alpha), dummyKey, DummyCount(probs, alpha)))
  }

  /** What the proxy has planned for its keys: the distribution, the replica counts, the directory
      and p_max. */
  datatype Plan = Plan(keys: seq<string>, probs: seq<real>, frequency: map<string, real>, replicas: Counts,
                       dummies: nat, labels: map<string, nat>, pMax: real,
                       alpha: real, dummyKey: string, size: nat)
  {
    /** All counts; the dummy's is `dummy_keys_`. */
    function Counts(): Directory.Counts {
      replicas[dummyKey := dummies]
    }

    function Now(): Epoch {
      Epoch(Counts(), labels, 2 * size)
    }

    ghost predicate Sensible() {
      Fitting(keys, probs, alpha, dummyKey, size)
    }

    /** Counts, directory and p_max fit the distribution. */
    ghost predicate Smooth() {
      && Sensible()
      && Gives(replicas, keys, NatCounts(probs, alpha))
      && dummies == DummyCount(probs, alpha)
      && FrequencyIsProbs()
      && Bijection(labels, Counts(), 2 * size)
      && Enough(pMax, size)
    }

    /** The directory is in order, whatever the distribution: every label is filed once, under the name of
        one replica. */
    ghost predicate AllFiled() {
      alpha > 0.0 && Apart(Counts()) && Bijection(labels, Counts(), 2 * size)
    }

    /** The fake weights are non-negative. */
    ghost predicate Weighted() {
      |probs| == |keys| && forall i :: 0 <= i < |keys| ==> Weight(At(replicas, keys[i]), probs[i], pMax) >= 0.0
    }

    /** `key_to_frequency_` holds the probabilities; reading it for the dummy may have added an entry. */
    ghost predicate FrequencyIsProbs() {
      && |probs| == |keys| && frequency.Keys <= Elems(keys) + {dummyKey}
      && forall i :: 0 <= i < |keys| ==> keys[i] in frequency && frequency[keys[i]] == probs[i]
    }

    /** Keys in transition have a vector of their size with a leading zero, at least two replicas,
        and a probability that p_max dominates. */
    ghost predicate Transition(missing: Entries) {
      && Sized(Now(), missing) && AllStepped(missing)
      && forall k :: k in missing ==>
           k in replicas && k != dummyKey && replicas[k] >= 2 && k in frequency && frequency[k] <= pMax
    }
  }

  /** What is built for all keys is an epoch in which every label is stored and every replica of a
      key holds the value drawn for it. */
  lemma BuiltIsCoherent(e: Epoch, store: map<string, string>, entries: Entries, fill: map<string, string>)
    requires Built(e.labels, e.counts, store, e.size, fill) && FillsKeys(fill)
    requires forall k :: k in entries ==> Pending(entries, k) == {}
    ensures e.Valid() && Playable(e, World(map[], map[], store), [])
    ensures Coherent(e, entries, map[], store, fill, e.counts.Keys)
  {
    forall k, j: nat | k in e.counts && j < e.counts[k]
      ensures AddrStored(e, store, k, j)
      ensures ReplicaCoherent(e, entries, map[], store, fill, k, j)
    {
      assert Holds(e.labels, store, k, j, fill[k]);
      AddrDefined(e, k, j);
    }
  }

  lemma NothingBuilt(store: map<string, string>, fill: map<string, string>)
    ensures BuiltIfApart(map[], map[], store, 0, fill)
  {
    assert Names(map[]) == {};
  }

  lemma NothingCovered(keys: seq<string>, news: seq<nat>, probs: seq<real>)
    requires |keys| == |news| == |probs|
    ensures Covers(map[], map[], keys, news, probs, 0) && PrefixTotal(news, 0) == 0
  {
  }

  lemma FittingNeeds(keys: seq<string>, probs: seq<real>, alpha: real, dummyKey: string, size: nat)
    requires Fitting(keys, probs, alpha, dummyKey, size)
    ensures |keys| == |probs| == size && alpha > 0.0 && forall i :: 0 <= i < |probs| ==> probs[i] > 0.0
  {
  }

  lemma BudgetOf(probs: seq<real>, n: nat, alpha: real)
    requires IsDistribution(probs) && |probs| == n && Enough(alpha, n)
    ensures 0 < DummyCount(probs, alpha) == 2 * n - Total(NatCounts(probs, alpha))
  {
    ReplicaBudget(probs, alpha);
  }

  /** The labels that the real keys leave are the dummies. */
  lemma LabelsLeft(probs: seq<real>, n: nat, alpha: real, used: nat)
    requires IsDistribution(probs) && |probs| == n && Enough(alpha, n)
    requires used == PrefixTotal(NatCounts(probs, alpha), n)
    ensures 2 * n - used == DummyCount(probs, alpha) > 0
  {
    BudgetOf(probs, n, alpha);
    PrefixTotalIs(NatCounts(probs, alpha), n);
    assert NatCounts(probs, alpha)[..n] == NatCounts(probs, alpha);
  }

  function FirstKeys(keys: seq<string>, m: nat): set<string>
    requires m <= |keys|
  {
    set i | 0 <= i < m :: keys[i]
  }

  /** Counts and frequencies of the first m keys, and nothing else. */
  ghost predicate Covers(counts: Counts, freq: map<string, real>, keys: seq<string>, news: seq<nat>, probs: seq<real>,
                         m: nat)
    requires m <= |keys| == |news| == |probs|
  {
    && counts.Keys == freq.Keys == FirstKeys(keys, m)
    && forall i :: 0 <= i < m ==>
         keys[i] in counts && counts[keys[i]] == news[i] && keys[i] in freq && freq[keys[i]] == probs[i]
  }

  lemma CoverOne(counts: Counts, freq: map<string, real>, keys: seq<string>, news: seq<nat>, probs: seq<real>, m: nat)
    requires m < |keys| == |news| == |probs| && Distinct(keys) && Covers(counts, freq, keys, news, probs, m)
    ensures Covers(counts[keys[m] := news[m]], freq[keys[m] := probs[m]], keys, news, probs, m + 1)
  {
    assert FirstKeys(keys, m + 1) == FirstKeys(keys, m) + {keys[m]};
  }

  /** The next key of the distribution is new. */
  lemma NextKey(counts: Counts, freq: map<string, real>, keys: seq<string>, news: seq<nat>, probs: seq<real>, m: nat)
    requires m < |keys| == |news| == |probs| && Distinct(keys) && Covers(counts, freq, keys, news, probs, m)
    ensures keys[m] !in counts
  {
  }

  lemma PlannedIs(counts: Counts, keys: seq<string>, news: seq<nat>, dummyKey: string, dummies: nat)
    requires |keys| == |news| && Distinct(keys) && Gives(counts, keys, news)
    ensures Planned(keys, news, dummyKey, dummies) == counts[dummyKey := dummies]
  {
    GivesIsCountsOf(counts, keys, news);
  }

  lemma CoversAll(counts: Counts, freq: map<string, real>, keys: seq<string>, news: seq<nat>, probs: seq<real>)
    requires |keys| == |news| == |probs| && Covers(counts, freq, keys, news, probs, |keys|)
    ensures Gives(counts, keys, news) && freq.Keys == Elems(keys)
  {
    assert FirstKeys(keys, |keys|) == Elems(keys);
  }

  /** The dummy comes last. */
  lemma LastKey(keys: seq<string>, dummyKey: string)
    ensures dummyKey in Elems(keys + [dummyKey]) && Elems(keys) + {dummyKey} == Elems(keys + [dummyKey])
  {
    assert (keys + [dummyKey])[|keys|] == dummyKey;
  }

  lemma PairsQuiet(p: Plan, pairs: seq<(string, nat)>)
    requires p.Sensible() && Gives(p.replicas, p.keys, NatCounts(p.probs, p.alpha))
    requires pairs == Pairs(p.keys, NatCounts(p.probs, p.alpha)) + [(p.dummyKey, p.dummies)]
    ensures Sized(p.Now(), InitialEntries(pairs))
    ensures forall k :: k in InitialEntries(pairs) ==> Pending(InitialEntries(pairs), k) == {}
  {
    InitiallyQuiet(pairs, p.Counts());
  }

  /** An entry for every key and the dummy, with one bit per replica, none set. */
  ghost predicate AllQuiet(counts: Counts, entries: Entries) {
    entries.Keys == counts.Keys && forall k :: k in counts ==> entries[k] == Entry("", Fill(counts[k], false))
  }

  lemma PairsAllQuiet(p: Plan, pairs: seq<(string, nat)>)
    requires p.Sensible() && Gives(p.replicas, p.keys, NatCounts(p.probs, p.alpha))
    requires pairs == Pairs(p.keys, NatCounts(p.probs, p.alpha)) + [(p.dummyKey, p.dummies)]
    ensures AllQuiet(p.Counts(), InitialEntries(pairs))
  {
    hide NatCounts, InitialEntries, IsDistribution, Enough;
    InitialContents(pairs);
    forall i | 0 <= i < |pairs|
      ensures LastOf(pairs, i) && pairs[i].0 in p.Counts() && p.Counts()[pairs[i].0] == pairs[i].1
    {
      EachPairIsLast(p, pairs, i);
    }
    forall k
      ensures k in p.Counts() <==> IsKeyOf(pairs, k)
    {
      CountedIsPaired(p, pairs, k);
    }
  }

  lemma EachPairIsLast(p: Plan, pairs: seq<(string, nat)>, i: nat)
    requires p.Sensible() && Gives(p.replicas, p.keys, NatCounts(p.probs, p.alpha)) && i < |pairs|
    requires pairs == Pairs(p.keys, NatCounts(p.probs, p.alpha)) + [(p.dummyKey, p.dummies)]
    ensures LastOf(pairs, i) && pairs[i].0 in p.Counts() && p.Counts()[pairs[i].0] == pairs[i].1
  {
    hide IsDistribution, Enough;
    if i < |p.keys| {
      assert p.keys[i] in p.keys;
    }
  }

  lemma CountedIsPaired(p: Plan, pairs: seq<(string, nat)>, k: string)
    requires p.Sensible() && Gives(p.replicas, p.keys, NatCounts(p.probs, p.alpha))
    requires pairs == Pairs(p.keys, NatCounts(p.probs, p.alpha)) + [(p.dummyKey, p.dummies)]
    ensures k in p.Counts() <==> IsKeyOf(pairs, k)
  {
    hide IsDistribution, Enough, NatCounts;
    if IsKeyOf(pairs, k) {
      var i :| 0 <= i < |pairs| && pairs[i].0 == k;
      assert i < |p.keys| ==> p.keys[i] in p.keys;
    }
    if k == p.dummyKey {
      assert pairs[|p.keys|].0 == k;
    } else if k in p.Counts() {
      var i :| 0 <= i < |p.keys| && p.keys[i] == k;
      assert pairs[i].0 == k;
    }
  }

  /** If p_max is at least alpha the fake weights are non-negative: r*p_max covers the probability. */
  lemma CountsWeigh(p: Plan)
    requires p.Sensible() && Gives(p.replicas, p.keys, NatCounts(p.probs, p.alpha)) && p.pMax >= p.alpha
    ensures p.Weighted()
  {
    forall i | 0 <= i < |p.keys|
      ensures Weight(At(p.replicas, p.keys[i]), p.probs[i], p.pMax) >= 0.0
    {
      WeightNonNegative(p.probs[i], p.alpha, p.pMax);
    }
  }

  /** All labels belong to the keys and the dummy. */
  lemma AllLabels(p: Plan)
    requires p.Smooth()
    ensures Distinct(p.keys + [p.dummyKey]) && Along(p.keys + [p.dummyKey], p.Counts()) == 2 * p.size
    ensures forall k :: k in p.Counts() ==> k in p.keys + [p.dummyKey]
  {
    hide Bijection;
    BudgetOf(p.probs, p.size, p.alpha);
    forall i | 0 <= i < |p.keys|
      ensures At(p.Counts(), p.keys[i]) == NatCounts(p.probs, p.alpha)[i]
    {
      assert p.keys[i] in p.keys;
    }
    AlongGives(p.keys, NatCounts(p.probs, p.alpha), p.Counts());
    AlongSnoc(p.keys, p.dummyKey, p.Counts());
  }

  /** In a smooth plan there are as many labels as replicas, so no two replicas share a name. */
  lemma CountsApart(p: Plan)
    requires p.Smooth()
    ensures Apart(p.Counts()) && p.Now().Valid() && p.AllFiled()
  {
    hide Bijection, Apart;
    AllLabels(p);
    FiledExactly(p.labels, p.Counts(), 2 * p.size, p.keys + [p.dummyKey]);
  }

  /** What `create_replicas` leaves, exactly if no two replicas share a name. */
  lemma StartIsValid(p: Plan, stored: map<string, string>, entries: Entries, fill: map<string, string>)
    requires p.Sensible() && p.pMax == p.alpha && p.dummies == DummyCount(p.probs, p.alpha)
    requires Covers(p.replicas, p.frequency, p.keys, NatCounts(p.probs, p.alpha), p.probs, |p.keys|)
    requires BuiltIfApart(p.labels, p.Counts(), stored, 2 * p.size, fill) && FillsKeys(fill)
    requires entries == InitialEntries(Pairs(p.keys, NatCounts(p.probs, p.alpha)) + [(p.dummyKey, p.dummies)])
    ensures Sized(p.Now(), entries) && AllQuiet(p.Counts(), entries) && p.Weighted()
    ensures Apart(p.Counts()) <==> Usable(p.keys, p.probs, p.alpha, p.dummyKey, p.size)
    ensures p.Smooth() ==> Apart(p.Counts())
    ensures Apart(p.Counts()) ==>
              && p.Smooth() && p.Transition(map[]) && Playable(p.Now(), World(map[], map[], stored), [])
              && Coherent(p.Now(), entries, map[], stored, fill, p.Counts().Keys)
  {
    hide Apart, Distinct, Bijection, FillsKeys, Playable, Coherent, Covers, Sized, InitialEntries, Built, Planned;
    hide Plan.Smooth, Plan.Weighted, Plan.Transition, Gives, NatCounts, Fitting, AllQuiet;
    FittingNeeds(p.keys, p.probs, p.alpha, p.dummyKey, p.size);
    StartCounts(p);
    PairsQuiet(p, Pairs(p.keys, NatCounts(p.probs, p.alpha)) + [(p.dummyKey, p.dummies)]);
    PairsAllQuiet(p, Pairs(p.keys, NatCounts(p.probs, p.alpha)) + [(p.dummyKey, p.dummies)]);
    if Apart(p.Counts()) {
      StartIsSmooth(p, stored, fill);
      BuiltIsCoherent(p.Now(), stored, entries, fill);
    }
    if p.Smooth() {
      CountsApart(p);
    }
  }

  lemma StartCounts(p: Plan)
    requires p.Sensible() && p.pMax == p.alpha && p.dummies == DummyCount(p.probs, p.alpha)
    requires Covers(p.replicas, p.frequency, p.keys, NatCounts(p.probs, p.alpha), p.probs, |p.keys|)
    ensures Gives(p.replicas, p.keys, NatCounts(p.probs, p.alpha)) && p.Weighted()
    ensures p.Counts() == Planned(p.keys, NatCounts(p.probs, p.alpha), p.dummyKey, p.dummies)
  {
    hide Bijection, Apart, Distinct, IsDistribution, NatCounts;
    CoversAll(p.replicas, p.frequency, p.keys, NatCounts(p.probs, p.alpha), p.probs);
    CountsWeigh(p);
    PlannedIs(p.replicas, p.keys, NatCounts(p.probs, p.alpha), p.dummyKey, p.dummies);
  }

  lemma StartIsSmooth(p: Plan, stored: map<string, string>, fill: map<string, string>)
    requires p.Sensible() && p.pMax == p.alpha && p.dummies == DummyCount(p.probs, p.alpha)
    requires Covers(p.replicas, p.frequency, p.keys, NatCounts(p.probs, p.alpha), p.probs, |p.keys|)
    requires Built(p.labels, p.Counts(), stored, 2 * p.size, fill)
    ensures p.Smooth() && p.Transition(map[])
  {
    hide Bijection, Apart, Distinct, IsDistribution, NatCounts;
    CoversAll(p.replicas, p.frequency, p.keys, NatCounts(p.probs, p.alpha), p.probs);
  }

  /** `create_replicas` divides by `1 / delta_ - 1`. */
  predicate Divides(delta: real) {
    delta != 0.0 && 1.0 / delta - 1.0 != 0.0
  }

  /** The fake distribution that `create_replicas` builds, weight by weight. */
  ghost predicate StartWeights(w: seq<real>, probs: seq<real>, alpha: real, delta: real)
    requires Divides(delta) && alpha > 0.0 && IsDistribution(probs)
  {
    |w| == |probs| + 1 && forall i :: 0 <= i < |w| ==> IsStartWeight(w, i, probs, alpha, delta)
  }

  ghost predicate IsStartWeight(w: seq<real>, i: nat, probs: seq<real>, alpha: real, delta: real)
    requires i < |w| == |probs| + 1 && Divides(delta) && alpha > 0.0 && IsDistribution(probs)
  {
    w[i] == if i < |probs| then KeyFake(probs[i], alpha, 1.0 / delta - 1.0)
            else DummyFake(DummyCount(probs, alpha), alpha, 1.0 / delta - 1.0)
  }

  lemma StartWeightsSound(w: seq<real>, probs: seq<real>, n: nat, alpha: real, delta: real)
    requires Divides(delta) && alpha > 0.0 && IsDistribution(probs) && StartWeights(w, probs, alpha, delta)
    requires n == |probs| && alpha * n as real >= 1.0 && delta == 1.0 / (Labels(n) * alpha)
    ensures (forall i :: 0 <= i < |w| ==> w[i] >= 0.0) && Sum(w) == 1.0
  {
    CreateFakeWeightsSound(probs, n, alpha, delta);
    StartIsCreated(w, probs, alpha, delta);
  }

  /** Whatever delta is: each weight times 1/delta - 1 is r*alpha - pi, or the dummies' number times alpha; the
      weights are non-negative exactly if that factor is positive. */
  lemma StartWeightsExactly(w: seq<real>, probs: seq<real>, alpha: real, delta: real)
    requires Divides(delta) && IsDistribution(probs) && Enough(alpha, |probs|) && StartWeights(w, probs, alpha, delta)
    ensures |w| == |probs| + 1
    ensures forall i :: 0 <= i < |w| ==>
              w[i] * (1.0 / delta - 1.0)
              == if i < |probs| then Weight(ReplicaCount(probs[i], alpha), probs[i], alpha)
                 else Weight(DummyCount(probs, alpha), 0.0, alpha)
    ensures (forall i :: 0 <= i < |w| ==> w[i] >= 0.0) <==> 1.0 / delta - 1.0 > 0.0
  {
    hide Weight, DummyCount, Total;
    var scale := 1.0 / delta - 1.0;
    BudgetOf(probs, |probs|, alpha);
    forall i | 0 <= i < |w|
      ensures w[i] * scale == if i < |probs| then Weight(ReplicaCount(probs[i], alpha), probs[i], alpha)
                              else Weight(DummyCount(probs, alpha), 0.0, alpha)
      ensures w[i] * scale >= 0.0 && (i == |probs| ==> w[i] * scale > 0.0)
    {
      assert IsStartWeight(w, i, probs, alpha, delta);
      if i < |probs| {
        KeyFakeScaled(probs[i], alpha, scale, w[i]);
      } else {
        DummyFakeScaled(DummyCount(probs, alpha), alpha, scale, w[i]);
      }
    }
    if scale > 0.0 {
      forall i | 0 <= i < |w|
        ensures w[i] >= 0.0
      {
        SameSign(w[i], scale);
      }
    }
    SameSign(scale, w[|probs|]);
  }

  lemma SameSign(x: real, y: real)
    requires y != 0.0 || x * y > 0.0
    ensures y > 0.0 && x * y >= 0.0 ==> x >= 0.0
    ensures y >= 0.0 && x * y > 0.0 ==> x > 0.0
  {
    if y > 0.0 && x < 0.0 {
      Scale(x, 0.0, y);
    }
  }

  lemma KeyFakeScaled(pi: real, alpha: real, scale: real, w: real)
    requires pi > 0.0 && alpha > 0.0 && scale != 0.0 && w == KeyFake(pi, alpha, scale)
    ensures w * scale == Weight(ReplicaCount(pi, alpha), pi, alpha) >= 0.0
  {
    CountCovers(pi, alpha);
    WeightNonNegative(pi, alpha, alpha);
    var r := ReplicaCount(pi, alpha) as real;
    Multiplied(r, pi, alpha);
    Undivided(r * (alpha - pi / r), scale);
  }

  lemma Multiplied(r: real, pi: real, alpha: real)
    requires r > 0.0
    ensures r * (alpha - pi / r) == r * alpha - pi
  {
    assert r * (pi / r) == pi;
  }

  lemma Undivided(x: real, y: real)
    requires y != 0.0
    ensures x / y * y == x
  {
  }

  lemma DummyFakeScaled(d: int, alpha: real, scale: real, w: real)
    requires d > 0 && alpha > 0.0 && scale != 0.0 && w == DummyFake(d, alpha, scale)
    ensures w * scale == Weight(d, 0.0, alpha) > 0.0
  {
    var t, m := alpha / scale, d as real;
    assert t * scale == alpha;
    assert (t * m) * scale == (t * scale) * m;
    Scale(0.0, m, alpha);
  }

  lemma StartIsCreated(w: seq<real>, probs: seq<real>, alpha: real, delta: real)
    requires Divides(delta) && alpha > 0.0 && IsDistribution(probs) && StartWeights(w, probs, alpha, delta)
    requires DummyCount(probs, alpha) > 0
    ensures w == CreateFakeWeights(probs, alpha, delta)
  {
    var u := CreateFakeWeights(probs, alpha, delta);
    forall i | 0 <= i < |w|
      ensures w[i] == u[i]
    {
      assert IsStartWeight(w, i, probs, alpha, delta);
    }
  }

  /** What holds between any two operations of the proxy: the plan is smooth, keys in transition
      have proper vectors, and storage has a text for every label. */
  ghost predicate Sound(p: Plan, missing: Entries, shards: seq<Shard>, hash: Hash, stored: map<string, string>) {
    && p.Smooth() && p.Transition(missing) && Represents(shards, hash, stored)
    && Playable(p.Now(), World(map[], map[], stored), [])
  }

  // ------------------------------------------------------------------ recomputed weights

  /** The fake distribution that `recompute_fake_distribution` builds, weight by weight. */
  ghost predicate Reweighted(w: seq<real>, keys: seq<string>, probs: seq<real>, counts: Counts, dummies: nat,
                             pMax: real)
    requires |keys| == |probs|
  {
    |w| == |keys| + 1 && forall i :: 0 <= i < |w| ==> IsNewWeight(w, i, keys, probs, counts, dummies, pMax)
  }

  ghost predicate IsNewWeight(w: seq<real>, i: nat, keys: seq<string>, probs: seq<real>, counts: Counts, dummies: nat,
                              pMax: real)
    requires i < |w| == |keys| + 1 && |keys| == |probs|
  {
    w[i] == if i < |keys| then Weight(At(counts, keys[i]), probs[i], pMax) else Weight(dummies, 0.0, pMax)
  }

  lemma ReweightedIsRecomputed(w: seq<real>, keys: seq<string>, probs: seq<real>, counts: Counts, news: seq<nat>,
                               dummies: nat, pMax: real)
    requires |keys| == |probs| == |news| && Gives(counts, keys, news)
    requires Reweighted(w, keys, probs, counts, dummies, pMax)
    ensures w == RecomputedWeights(probs, news, dummies, pMax)
  {
    var u := RecomputedWeights(probs, news, dummies, pMax);
    forall i | 0 <= i < |w|
      ensures w[i] == u[i]
    {
      assert IsNewWeight(w, i, keys, probs, counts, dummies, pMax);
      assert i < |keys| ==> At(counts, keys[i]) == news[i];
    }
  }

  /** In a smooth plan the weights sum to 2*n*p_max - 1, and they are non-negative exactly if each key's
      replicas cover its probability. */
  lemma ReweightedSound(p: Plan, w: seq<real>)
    requires p.Smooth() && Reweighted(w, p.keys, p.probs, p.replicas, p.dummies, p.pMax)
    ensures Sum(w) == Weight(2 * p.size, 1.0, p.pMax) >= 1.0
    ensures ProperWeights(w, p.size, p.pMax) <==> p.Weighted()
  {
    BudgetOf(p.probs, p.size, p.alpha);
    ReweightedIsRecomputed(w, p.keys, p.probs, p.replicas, NatCounts(p.probs, p.alpha), p.dummies, p.pMax);
    RecomputedTotal(p.probs, NatCounts(p.probs, p.alpha), p.dummies, p.size, p.pMax);
    forall i | 0 <= i < |w|
      ensures i < |p.keys| ==> w[i] == Weight(At(p.replicas, p.keys[i]), p.probs[i], p.pMax)
      ensures i == |p.keys| ==> w[i] >= 0.0
    {
      assert IsNewWeight(w, i, p.keys, p.probs, p.replicas, p.dummies, p.pMax);
      LargerFactor(p.dummies as real, 0.0, p.pMax);
    }
  }

  // ------------------------------------------------------------------ executing batches

  /** `key_to_frequency_` after `operator[]` has read it for the keys of these operations: a key
      without an entry gets the entry 0. */
  function Looked(freq: map<string, real>, ops: seq<Op>): map<string, real> {
    if ops == [] then freq
    else
      var f := Looked(freq, ops[..|ops| - 1]);
      f[ops[|ops| - 1].key := FrequencyOf(f, ops[|ops| - 1].key)]
  }

  lemma LookedNone(freq: map<string, real>, ops: seq<Op>)
    ensures Looked(freq, ops[..0]) == freq
  {
  }

  lemma LookedNext(freq: map<string, real>, ops: seq<Op>, i: nat)
    requires i < |ops|
    ensures var f := Looked(freq, ops[..i]);
            Looked(freq, ops[..i + 1]) == f[ops[i].key := FrequencyOf(f, ops[i].key)]
  {
    assert ops[..i + 1][..i] == ops[..i];
  }

  /** The frequencies that are read stay the same; exactly the operations' keys have entries now. */
  lemma {:induction false} LookedKeeps(freq: map<string, real>, ops: seq<Op>, key: string)
    ensures FrequencyOf(Looked(freq, ops), key) == FrequencyOf(freq, key)
    ensures key in freq ==> key in Looked(freq, ops)
    ensures key in Looked(freq, ops) <==> key in freq || exists i :: 0 <= i < |ops| && ops[i].key == key
  {
    if ops != [] {
      LookedKeeps(freq, ops[..|ops| - 1], key);
    }
  }

  /** What earlier turns have added to the frequencies does not change a draw. */
  lemma DrawnAlike(counts: Counts, missing: Entries, freq: map<string, real>, pMax: real, before: seq<Op>,
                   op: Op, isTrue: bool, draw: (real, nat))
    requires Drawable(counts, missing, freq, pMax, op.key) && draw.0 < 1.0
    ensures Drawable(counts, missing, Looked(freq, before), pMax, op.key)
    ensures SampledOne(counts, missing, Looked(freq, before), pMax, op, isTrue, draw)
            == SampledOne(counts, missing, freq, pMax, op, isTrue, draw)
  {
    LookedKeeps(freq, before, op.key);
  }

  lemma AddrOfDraw(e: Epoch, a: Access)
    requires e.Valid() && e.Has(a)
    ensures Name(a.op.key, a.replica) in e.labels && IsAddr(e, a, Decimal(e.labels[Name(a.op.key, a.replica)]))
  {
    AddrDefined(e, a.op.key, a.replica);
  }

  ghost predicate IsAddr(e: Epoch, a: Access, addr: string) {
    e.Has(a) && Name(a.op.key, a.replica) in e.labels && addr == Addr(e, a.op.key, a.replica)
  }

  lemma AddrsOfDraws(e: Epoch, accesses: seq<Access>, addrs: seq<string>)
    requires e.Valid() && |accesses| == |addrs| && forall i :: 0 <= i < |accesses| ==> IsAddr(e, accesses[i], addrs[i])
    ensures (forall i :: 0 <= i < |accesses| ==> e.Has(accesses[i])) && addrs == Addrs(e, accesses)
  {
    forall i | 0 <= i < |accesses|
      ensures e.Has(accesses[i])
    {
      assert IsAddr(e, accesses[i], addrs[i]);
    }
  }

  ghost predicate Registered(p: Plan, ops: seq<Op>) {
    forall i :: 0 <= i < |ops| ==> ops[i].key in p.Counts()
  }

  /** A replica can be drawn for every key of the plan, the dummy included. */
  lemma RegisteredDrawable(p: Plan, missing: Entries, key: string)
    requires p.Smooth() && p.Transition(missing) && key in p.Counts()
    ensures Drawable(p.Counts(), missing, p.frequency, p.pMax, key)
  {
    if key == p.dummyKey {
      BudgetOf(p.probs, p.size, p.alpha);
    } else {
      var i :| 0 <= i < |p.keys| && p.keys[i] == key;
      if key in missing {
        assert LeadingZeros(missing[key].bits) >= 1;
        PositiveWeight(p.replicas[key], p.frequency[key], p.pMax);
      }
    }
  }

  lemma PositiveWeight(r: nat, f: real, pMax: real)
    requires r >= 2 && f <= pMax && pMax > 0.0
    ensures Weight(r, f, pMax) > 0.0
  {
    LargerFactor(pMax, 2.0, r as real);
  }

  lemma AllDrawable(p: Plan, missing: Entries, ops: seq<Op>)
    requires p.Smooth() && p.Transition(missing) && Registered(p, ops)
    ensures forall i :: 0 <= i < |ops| ==> Drawable(p.Counts(), missing, p.frequency, p.pMax, ops[i].key)
  {
    forall i | 0 <= i < |ops|
      ensures Drawable(p.Counts(), missing, p.frequency, p.pMax, ops[i].key)
    {
      RegisteredDrawable(p, missing, ops[i].key);
    }
  }

  /** A batch leaves the plan as it is, up to entries of `key_to_frequency_` for the dummy. */
  lemma BatchKeepsPlan(p: Plan, q: Plan, ops: seq<Op>, missing: Entries, missing': Entries)
    requires p.Smooth() && p.Transition(missing) && Registered(p, ops)
    requires q == p.(frequency := Looked(p.frequency, ops))
    requires forall k :: k in missing' ==> k in missing && missing'[k] == missing[k]
    ensures q.Smooth() && q.Transition(missing')
  {
    hide Bijection, Fitting, Gives, NatCounts, Enough, Looked, AllStepped, Distinct;
    FrequencyStays(p, ops);
    SteppedStays(missing, missing');
    forall k | k in p.frequency
      ensures k in q.frequency && q.frequency[k] == p.frequency[k]
    {
      LookedKeeps(p.frequency, ops, k);
    }
  }

  lemma SteppedStays(missing: Entries, missing': Entries)
    requires AllStepped(missing) && forall k :: k in missing' ==> k in missing && missing'[k] == missing[k]
    ensures AllStepped(missing')
  {
    hide Stepped, LeadingZeros;
  }

  lemma FrequencyStays(p: Plan, ops: seq<Op>)
    requires p.Smooth() && Registered(p, ops)
    ensures p.(frequency := Looked(p.frequency, ops)).FrequencyIsProbs()
  {
    hide Bijection, Fitting, NatCounts, Enough, Looked, Distinct;
    forall k
      ensures k in Looked(p.frequency, ops) ==> k in Elems(p.keys) + {p.dummyKey}
      ensures k in p.frequency ==> k in Looked(p.frequency, ops) && Looked(p.frequency, ops)[k] == p.frequency[k]
    {
      LookedKeeps(p.frequency, ops, k);
    }
  }

  /** What a batch needs of the state: it can be played, and every operation's replica can be drawn. */
  lemma BatchPlayable(p: Plan, w: World, shards: seq<Shard>, hash: Hash, ops: seq<Op>)
    requires Sound(p, w.missing, shards, hash, w.store) && Registered(p, ops)
    ensures p.Now().Valid() && Playable(p.Now(), w, []) && Represents(shards, hash, w.store)
    ensures p.Smooth() && p.Transition(w.missing)
    ensures forall i :: 0 <= i < |ops| ==> Drawable(p.Counts(), w.missing, p.frequency, p.pMax, ops[i].key)
  {
    AllDrawable(p, w.missing, ops);
    forall k, j: nat | k in p.Counts() && j < p.Counts()[k]
      ensures AddrStored(p.Now(), w.store, k, j)
    {
    }
  }

  lemma PlayableWith(e: Epoch, w: World, accesses: seq<Access>)
    requires Playable(e, w, []) && forall i :: 0 <= i < |accesses| ==> e.Has(accesses[i])
    ensures Playable(e, w, accesses)
  {
  }

  /** After a batch everything still holds. */
  lemma BatchKeepsSound(p: Plan, q: Plan, w: World, accesses: seq<Access>, ops: seq<Op>, shards: seq<Shard>,
                        shards': seq<Shard>, hash: Hash)
    requires Sound(p, w.missing, shards, hash, w.store) && Registered(p, ops)
    requires q == p.(frequency := Looked(p.frequency, ops)) && Playable(p.Now(), w, accesses)
    requires Represents(shards', hash, AfterBatch(p.Now(), w, accesses).store)
    ensures var w' := AfterBatch(p.Now(), w, accesses);
            Sound(q, w'.missing, shards', hash, w'.store)
  {
    var w' := AfterBatch(p.Now(), w, accesses);
    AddrsStored(p.Now(), w, accesses);
    MissingOnlyShrinks(p.Now(), Progress(w.cache, w.missing, []), accesses, Responses(p.Now(), w.store, accesses));
    BatchKeepsPlan(p, q, ops, w.missing, w'.missing);
    StoreKept(p.Now(), w, accesses);
    StoredStays(p.Now(), w');
  }

  lemma StoredStays(e: Epoch, w: World)
    requires Playable(e, w, [])
    ensures Playable(e, World(map[], map[], w.store), [])
  {
  }

  /** If the batch is hazard-free for the keys that clients use, they get what the map of the client
      operations answers. */
  lemma BatchSeenByClients(e: Epoch, w: World, accesses: seq<Access>, l: Logical, ks: set<string>)
    requires Playable(e, w, accesses) && BatchInBounds(e, w, accesses) && BatchHazardFree(e, w, accesses, ks)
    requires Coherent(e, w.cache, w.missing, w.store, l, ks) && TrueWithin(accesses, ks)
    requires forall i :: 0 <= i < |accesses| && !accesses[i].isTrue ==> accesses[i].op.value == ""
    ensures Delivered(accesses, Played(e, w, accesses).texts) == MapAnswers(l, TrueOps(accesses))
    ensures var w' := AfterBatch(e, w, accesses);
            Coherent(e, w'.cache, w'.missing, w'.store, MapRun(l, TrueOps(accesses)), ks)
  {
    BatchRefines(e, w, accesses, l, ks);
    ClientsSeeTheMap(l, accesses);
    ClientsAnswered(l, ks, accesses, Played(e, w, accesses).texts);
  }
}
