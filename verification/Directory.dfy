/** The replica directory: which label each replica of each key has, and how a change of the
    distribution moves labels between keys. */
module Directory {
  import opened Naming
  import opened Sums

  type Counts = map<string, nat>

  function Elems(keys: seq<string>): set<string> {
    set k | k in keys
  }

  /** The names of replicas lo..hi-1 of one key. */
  function Range(key: string, lo: int, hi: int): set<string>
    requires lo >= 0
  {
    set i: nat | lo <= i < hi :: Name(key, i)
  }

  /** The names of all replicas under the given counts. */
  function Names(counts: Counts): set<string> {
    set k, i: nat | k in counts.Keys && 0 <= i < counts[k] :: Name(k, i)
  }

  /** Every label below `size` is filed under exactly one name or listed exactly once as free. */
  ghost predicate Partition(labels: map<string, nat>, free: seq<nat>, size: nat) {
    && (forall s :: s in labels ==> labels[s] < size)
    && (forall s, t :: s in labels && t in labels && labels[s] == labels[t] ==> s == t)
    && Distinct(free)
    && (forall l :: l in free ==> l < size && l !in labels.Values)
    && (forall l: nat :: l < size ==> l in labels.Values || l in free)
  }

  /** `replica_to_label_` is a bijection from {(k,i) : i < counts[k]} onto {0..size-1}. */
  ghost predicate Bijection(labels: map<string, nat>, counts: Counts, size: nat) {
    labels.Keys == Names(counts) && Partition(labels, [], size)
  }

  // ------------------------------------------------------------------ single steps

  lemma ReleaseKeeps(labels: map<string, nat>, free: seq<nat>, size: nat, s: string)
    requires Partition(labels, free, size) && s in labels
    ensures Partition(labels - {s}, free + [labels[s]], size)
  {
    var labels', free' := labels - {s}, free + [labels[s]];
    forall l: nat | l < size
      ensures l in labels'.Values || l in free'
    {
      if l in labels.Values {
        var t :| t in labels && labels[t] == l;
        if t == s {
          assert free'[|free|] == l;
        } else {
          assert labels'[t] == l;
        }
      } else {
        var p :| 0 <= p < |free| && free[p] == l;
        assert free'[p] == l;
      }
    }
    assert labels[s] in labels.Values;
    forall l, t | l in free' && t in labels'
      ensures labels'[t] != l
    {
      assert labels[t] in labels.Values;
    }
  }

  lemma AssignKeeps(labels: map<string, nat>, free: seq<nat>, size: nat, s: string)
    requires Partition(labels, free, size) && s !in labels && free != []
    ensures Partition(labels[s := free[0]], free[1..], size)
  {
    var labels', free' := labels[s := free[0]], free[1..];
    assert free[0] in free;
    assert forall l :: l in free' ==> l in free;
    forall l: nat | l < size
      ensures l in labels'.Values || l in free'
    {
      if l in labels.Values {
        var t :| t in labels && labels[t] == l;
        assert labels'[t] == l;
      } else {
        var p :| 0 <= p < |free| && free[p] == l;
        if p == 0 {
          assert labels'[s] == l;
        } else {
          assert free'[p - 1] == l;
        }
      }
    }
    forall t | t in labels
      ensures labels[t] != free[0]
    {
      assert labels[t] in labels.Values;
    }
    forall p, t | 0 <= p < |free'| && t in labels'
      ensures labels'[t] != free'[p]
    {
      assert free'[p] == free[p + 1];
      assert t != s ==> labels[t] in labels.Values;
    }
  }

  // ------------------------------------------------------------------ names

  lemma NamesGrow(counts: Counts, key: string, was: nat, r: nat)
    requires was == At(counts, key) && was <= r
    ensures Names(counts[key := r]) == Names(counts) + Range(key, was, r)
  {
    var counts' := counts[key := r];
    forall s | s in Names(counts')
      ensures s in Names(counts) + Range(key, was, r)
    {
      var k, i: nat :| k in counts' && 0 <= i < counts'[k] && s == Name(k, i);
      if k == key && i >= was {
        assert s in Range(key, was, r);
      } else {
        assert k in counts && i < counts[k];
      }
    }
    forall s | s in Names(counts) + Range(key, was, r)
      ensures s in Names(counts')
    {
      if s in Names(counts) {
        var k, i: nat :| k in counts && 0 <= i < counts[k] && s == Name(k, i);
        assert k in counts' && i < counts'[k];
      } else {
        var i: nat :| was <= i < r && s == Name(key, i);
        assert key in counts' && i < counts'[key];
      }
    }
  }

  /** No two replicas have one name. */
  ghost predicate Apart(counts: Counts) {
    forall k, k' :: k in counts && k' in counts ==> ApartAt(counts, k, k')
  }

  ghost predicate ApartAt(counts: Counts, k: string, k': string)
    requires k in counts && k' in counts
  {
    !Meet(k, counts[k], k', counts[k'])
  }

  lemma ApartNames(counts: Counts, k: string, i: nat, k': string, j: nat)
    requires Apart(counts) && k in counts && i < counts[k] && k' in counts && j < counts[k']
    requires Name(k, i) == Name(k', j)
    ensures k == k' && i == j
  {
    assert ApartAt(counts, k, k') && ApartAt(counts, k', k);
    NameInjective(k, counts[k], i, k', counts[k'], j);
  }

  lemma ApartFewer(counts: Counts, fewer: Counts)
    requires Apart(counts) && forall k :: k in fewer ==> k in counts && fewer[k] <= counts[k]
    ensures Apart(fewer)
  {
    forall k, k' | k in fewer && k' in fewer
      ensures ApartAt(fewer, k, k')
    {
      assert ApartAt(counts, k, k');
    }
  }

  /** Up to ten replicas per key are always apart, whatever the keys. */
  lemma TenReplicasApart(counts: Counts)
    requires forall k :: k in counts ==> counts[k] <= 10
    ensures Apart(counts)
  {
    forall k, k' | k in counts && k' in counts
      ensures ApartAt(counts, k, k')
    {
      TenAreFew(k, counts[k], k', counts[k']);
    }
  }

  /** And so are keys of one length, whatever the counts. */
  lemma EqualLengthsApart(counts: Counts, size: nat)
    requires forall k :: k in counts ==> |k| == size
    ensures Apart(counts)
  {
    forall k, k' | k in counts && k' in counts
      ensures ApartAt(counts, k, k')
    {
      EqualLengthApart(k, counts[k], k', counts[k']);
    }
  }

  /** Replicas beyond a key's count have names that are not in use. */
  lemma RangeIsNew(counts: Counts, key: string, lo: nat, hi: nat)
    requires At(counts, key) <= lo <= hi && Apart(counts[key := hi])
    ensures Range(key, lo, hi) !! Names(counts)
  {
    forall s | s in Range(key, lo, hi)
      ensures s !in Names(counts)
    {
      var i: nat :| lo <= i < hi && s == Name(key, i);
      forall k, j: nat | k in counts.Keys && 0 <= j < counts[k]
        ensures Name(k, j) != s
      {
        if Name(k, j) == s {
          ApartNames(counts[key := hi], k, j, key, i);
        }
      }
    }
  }

  lemma NamesShrink(counts: Counts, key: string, r: nat)
    requires Apart(counts) && key in counts && r <= counts[key]
    ensures Names(counts[key := r]) == Names(counts) - Range(key, r, counts[key])
    ensures Range(key, r, counts[key]) <= Names(counts)
  {
    var counts' := counts[key := r];
    NamesGrow(counts', key, r, counts[key]);
    assert counts'[key := counts[key]] == counts;
    RangeIsNew(counts', key, r, counts[key]);
  }

  // ------------------------------------------------------------------ counting

  lemma {:induction false} RangeSize(key: string, r: nat)
    ensures |Range(key, 0, r)| == r
  {
    if r == 0 {
      assert Range(key, 0, 0) == {};
    } else {
      RangeSize(key, r - 1);
      RangeSnoc(key, r - 1);
    }
  }

  /** The names of some keys' replicas. */
  function NamesOf(keys: seq<string>, counts: Counts): set<string> {
    if keys == [] then {}
    else NamesOf(keys[..|keys| - 1], counts) + Range(keys[|keys| - 1], 0, At(counts, keys[|keys| - 1]))
  }

  lemma {:induction false} NamesOfIs(keys: seq<string>, counts: Counts, s: string)
    ensures s in NamesOf(keys, counts) <==> exists k, i: nat :: k in keys && IsNameOf(counts, k, i, s)
  {
    if keys != [] {
      var front, last := keys[..|keys| - 1], keys[|keys| - 1];
      assert keys == front + [last];
      NamesOfIs(front, counts, s);
      if s in Range(last, 0, At(counts, last)) {
        var i: nat :| i < At(counts, last) && s == Name(last, i);
        assert IsNameOf(counts, last, i, s);
      }
      forall i: nat | IsNameOf(counts, last, i, s)
        ensures s in Range(last, 0, At(counts, last))
      {
      }
    }
  }

  ghost predicate IsNameOf(counts: Counts, k: string, i: nat, s: string) {
    k in counts && i < counts[k] && s == Name(k, i)
  }

  lemma AllNames(keys: seq<string>, counts: Counts)
    requires forall k :: k in counts ==> k in keys
    ensures NamesOf(keys, counts) == Names(counts)
  {
    forall s
      ensures s in NamesOf(keys, counts) <==> s in Names(counts)
    {
      NamesOfIs(keys, counts, s);
      if s in Names(counts) {
        var k, i: nat :| k in counts.Keys && 0 <= i < counts[k] && s == Name(k, i);
        assert IsNameOf(counts, k, i, s);
      }
    }
  }

  lemma UnionSize<T>(a: set<T>, b: set<T>)
    ensures |a + b| <= |a| + |b|
    ensures |a + b| == |a| + |b| <==> a !! b
  {
    assert a + b == a + (b - a) && b == (b - a) + (a * b);
    assert |a + b| == |a| + |b - a| && |b| == |b - a| + |a * b|;
    if |a * b| == 0 {
      assert a * b == {};
    }
  }

  /** There are at most as many names as replicas, and as many only if no two replicas share one. */
  lemma {:induction false} NamesCount(keys: seq<string>, counts: Counts)
    requires Distinct(keys)
    ensures |NamesOf(keys, counts)| <= Along(keys, counts)
    ensures |NamesOf(keys, counts)| == Along(keys, counts) <==> ApartAmong(keys, counts)
  {
    hide Range;
    if keys != [] {
      var front, last := keys[..|keys| - 1], keys[|keys| - 1];
      NamesCount(front, counts);
      RangeSize(last, At(counts, last));
      UnionSize(NamesOf(front, counts), Range(last, 0, At(counts, last)));
      assert keys == front + [last] && last !in front;
      OneMoreApart(front, last, counts);
    }
  }

  /** No two of these keys have a name in common. */
  ghost predicate ApartAmong(keys: seq<string>, counts: Counts) {
    forall k, k' :: k in keys && k' in keys && k in counts && k' in counts ==> ApartAt(counts, k, k')
  }

  lemma OneMoreApart(keys: seq<string>, last: string, counts: Counts)
    requires last !in keys
    ensures ApartAmong(keys + [last], counts)
            <==> ApartAmong(keys, counts) && NamesOf(keys, counts) !! Range(last, 0, At(counts, last))
  {
    var r := At(counts, last);
    if ApartAmong(keys + [last], counts) {
      assert forall k :: k in keys ==> k in keys + [last];
      assert last in keys + [last];
      forall s | s in NamesOf(keys, counts) && s in Range(last, 0, r)
        ensures false
      {
        NamesOfIs(keys, counts, s);
        var k, i: nat :| k in keys && IsNameOf(counts, k, i, s);
        var j: nat :| j < r && s == Name(last, j);
        assert ApartAt(counts, k, last) && ApartAt(counts, last, k);
        NameInjective(k, counts[k], i, last, r, j);
      }
    }
    if ApartAmong(keys, counts) && NamesOf(keys, counts) !! Range(last, 0, r) {
      forall k, k' | k in keys + [last] && k' in keys + [last] && k in counts && k' in counts
        ensures ApartAt(counts, k, k')
      {
        DisjointApart(keys, last, counts, k, k');
      }
    }
  }

  lemma DisjointApart(keys: seq<string>, last: string, counts: Counts, k: string, k': string)
    requires ApartAmong(keys, counts) && NamesOf(keys, counts) !! Range(last, 0, At(counts, last)) && last !in keys
    requires k in keys + [last] && k' in keys + [last] && k in counts && k' in counts
    ensures ApartAt(counts, k, k')
  {
    if !ApartAt(counts, k, k') && (k == last || k' == last) {
      var i := FirstShared(k, k');
      SharedWithLast(keys, last, counts, k, i, k', 0);
      assert false;
    }
  }

  lemma SharedWithLast(keys: seq<string>, last: string, counts: Counts, k: string, i: nat, k': string, j: nat)
    requires last !in keys && k in keys + [last] && k' in keys + [last] && k != k' && (k == last || k' == last)
    requires k in counts && i < counts[k] && k' in counts && j < counts[k'] && Name(k, i) == Name(k', j)
    ensures !(NamesOf(keys, counts) !! Range(last, 0, At(counts, last)))
  {
    var s := Name(k, i);
    assert IsNameOf(counts, k, i, s) && IsNameOf(counts, k', j, s);
    NamesOfIs(keys, counts, s);
    assert s in Range(last, 0, At(counts, last));
  }

  /** A bijection has as many names as labels. */
  lemma BijectionSize(labels: map<string, nat>, counts: Counts, size: nat)
    requires Bijection(labels, counts, size)
    ensures |Names(counts)| == size
  {
    LabelsSize(labels, size);
  }

  lemma {:induction false} LabelsSize(labels: map<string, nat>, size: nat)
    requires Partition(labels, [], size)
    ensures |labels.Keys| == size
  {
    if size == 0 {
      assert labels.Keys == {};
    } else {
      assert size - 1 in labels.Values;
      var s :| s in labels && labels[s] == size - 1;
      WithoutLargest(labels, size, s);
      LabelsSize(labels - {s}, size - 1);
      assert labels.Keys == (labels - {s}).Keys + {s};
    }
  }

  lemma WithoutLargest(labels: map<string, nat>, size: nat, s: string)
    requires size > 0 && Partition(labels, [], size) && s in labels && labels[s] == size - 1
    ensures Partition(labels - {s}, [], size - 1)
  {
    var rest := labels - {s};
    forall l: nat | l < size - 1
      ensures l in rest.Values
    {
      assert l in labels.Values;
      var t :| t in labels && labels[t] == l;
      assert rest[t] == l;
    }
    forall t | t in rest
      ensures rest[t] < size - 1
    {
      assert labels[t] != labels[s];
    }
  }

  /** As many labels as replicas can be filed one by one exactly if no two replicas share a name. */
  lemma FiledExactly(labels: map<string, nat>, counts: Counts, size: nat, keys: seq<string>)
    requires Bijection(labels, counts, size)
    requires Distinct(keys) && forall k :: k in counts ==> k in keys
    ensures Along(keys, counts) >= size
    ensures Along(keys, counts) == size <==> Apart(counts)
  {
    BijectionSize(labels, counts, size);
    AllNames(keys, counts);
    NamesCount(keys, counts);
  }

  // ------------------------------------------------------------------ creation

  /** What `insert_replicas` has done after r turns: replica i of the key has label first + i, and
      no other name has changed. */
  ghost predicate Labelled(was: map<string, nat>, labels: map<string, nat>, key: string, r: nat, first: nat) {
    && labels.Keys == was.Keys + Range(key, 0, r)
    && (forall i: nat :: i < r ==> Name(key, i) in labels && labels[Name(key, i)] == first + i)
    && (forall s :: s in was && s !in Range(key, 0, r) ==> labels[s] == was[s])
  }

  lemma LabelOne(was: map<string, nat>, labels: map<string, nat>, key: string, r: nat, first: nat, next: nat)
    requires Labelled(was, labels, key, r, first) && next == first + r
    ensures Labelled(was, labels[Name(key, r) := next], key, r + 1, first)
  {
    hide Partition;
    RangeSnoc(key, r);
    forall i: nat | i < r
      ensures Name(key, i) in Range(key, 0, r)
    {
    }
  }

  lemma RangeSnoc(key: string, r: nat)
    ensures Range(key, 0, r + 1) == Range(key, 0, r) + {Name(key, r)}
    ensures Name(key, r) !in Range(key, 0, r)
  {
    forall i: nat | i < r
      ensures Name(key, i) != Name(key, r)
    {
      if Name(key, i) == Name(key, r) {
        SameKeyName(key, i, r);
      }
    }
    forall s | s in Range(key, 0, r + 1)
      ensures s in Range(key, 0, r) + {Name(key, r)}
    {
      var i: nat :| i < r + 1 && s == Name(key, i);
      assert i == r || s in Range(key, 0, r);
    }
  }

  /** A name of the extended directory is an old one, or the key's replica with its new label. */
  lemma LabelledName(was: map<string, nat>, labels: map<string, nat>, key: string, r: nat, first: nat, s: string)
    returns (i: nat)
    requires Labelled(was, labels, key, r, first) && s in labels && was.Keys !! Range(key, 0, r)
    ensures if s in was then labels[s] == was[s] else i < r && s == Name(key, i) && labels[s] == first + i
  {
    if s in was {
      i := 0;
    } else {
      i :| i < r && s == Name(key, i);
    }
  }

  lemma LabelledInjective(was: map<string, nat>, labels: map<string, nat>, key: string, r: nat, size: nat, s: string,
                          t: string)
    requires Labelled(was, labels, key, r, size) && was.Keys !! Range(key, 0, r) && Partition(was, [], size)
    requires s in labels && t in labels
    ensures labels[s] < size + r && (labels[s] == labels[t] ==> s == t)
  {
    var i := LabelledName(was, labels, key, r, size, s);
    var j := LabelledName(was, labels, key, r, size, t);
  }

  lemma LabelledOnto(was: map<string, nat>, labels: map<string, nat>, key: string, r: nat, size: nat, l: nat)
    requires Labelled(was, labels, key, r, size) && was.Keys !! Range(key, 0, r) && Partition(was, [], size)
    requires l < size + r
    ensures l in labels.Values
  {
    if l < size {
      assert l in was.Values;
      var t :| t in was && was[t] == l;
      assert labels[t] == l;
    } else {
      assert labels[Name(key, l - size)] == l;
    }
  }

  /** `insert_replicas` for a new key extends the bijection by the key's replicas. */
  lemma LabelledExtendsBijection(was: map<string, nat>, labels: map<string, nat>, counts: Counts, size: nat,
                                 key: string, r: nat)
    requires Bijection(was, counts, size) && key !in counts && Apart(counts[key := r])
    requires Labelled(was, labels, key, r, size)
    ensures Bijection(labels, counts[key := r], size + r)
  {
    RangeIsNew(counts, key, 0, r);
    NamesGrow(counts, key, 0, r);
    forall s, t | s in labels && t in labels
      ensures labels[s] < size + r && (labels[s] == labels[t] ==> s == t)
    {
      LabelledInjective(was, labels, key, r, size, s, t);
    }
    forall l: nat | l < size + r
      ensures l in labels.Values
    {
      LabelledOnto(was, labels, key, r, size, l);
    }
  }

  lemma RangeSplit(key: string, lo: nat, hi: int)
    requires lo < hi
    ensures Range(key, lo, hi) == {Name(key, lo)} + Range(key, lo + 1, hi)
    ensures Name(key, lo) !in Range(key, lo + 1, hi)
  {
    forall i: nat | lo < i < hi
      ensures Name(key, i) != Name(key, lo)
    {
      if Name(key, i) == Name(key, lo) {
        SameKeyName(key, i, lo);
      }
    }
    forall s | s in Range(key, lo, hi)
      ensures s in {Name(key, lo)} + Range(key, lo + 1, hi)
    {
      var i: nat :| lo <= i < hi && s == Name(key, i);
      assert i == lo || s in Range(key, lo + 1, hi);
    }
  }

  /** The counts that the sequences describe. */
  function CountsOf(keys: seq<string>, news: seq<nat>): Counts
    requires |keys| == |news|
  {
    if keys == [] then map[]
    else CountsOf(keys[..|keys| - 1], news[..|news| - 1])[keys[|keys| - 1] := news[|news| - 1]]
  }

  lemma {:induction false} CountsOfKeys(keys: seq<string>, news: seq<nat>)
    requires |keys| == |news| && Distinct(keys)
    ensures forall k :: k in CountsOf(keys, news) <==> k in keys
    ensures forall i :: 0 <= i < |keys| ==> keys[i] in keys && CountsOf(keys, news)[keys[i]] == news[i]
  {
    if keys != [] {
      CountsOfKeys(keys[..|keys| - 1], news[..|news| - 1]);
      assert keys == keys[..|keys| - 1] + [keys[|keys| - 1]];
    }
  }

  /** The counts of exactly these keys. */
  ghost predicate Gives(counts: Counts, keys: seq<string>, news: seq<nat>)
    requires |keys| == |news|
  {
    && counts.Keys == Elems(keys)
    && forall i :: 0 <= i < |keys| ==> keys[i] in counts && counts[keys[i]] == news[i]
  }

  lemma GivesIsCountsOf(counts: Counts, keys: seq<string>, news: seq<nat>)
    requires |keys| == |news| && Distinct(keys)
    ensures Gives(counts, keys, news) <==> counts == CountsOf(keys, news)
  {
    CountsOfKeys(keys, news);
    var d := CountsOf(keys, news);
    if Gives(counts, keys, news) {
      forall k | k in counts
        ensures k in d && d[k] == counts[k]
      {
        var i :| 0 <= i < |keys| && keys[i] == k;
      }
    }
  }

  // ------------------------------------------------------------------ redistribution

  /** The state of a redistribution: the directory, `unassigned_labels` and `needs_labels`. */
  datatype Swap = Swap(labels: map<string, nat>, free: seq<nat>, needs: seq<(string, nat)>)

  /** The loop of `prepare_for_swapping` that gives up replicas lo..hi-1. */
  function Release(sw: Swap, key: string, lo: nat, hi: int): Swap
    decreases hi - lo
  {
    if lo >= hi then sw
    else
      var name := Name(key, lo);
      if name in sw.labels then
        Release(Swap(sw.labels - {name}, sw.free + [sw.labels[name]], sw.needs), key, lo + 1, hi)
      else sw
  }

  /** The loop of `prepare_for_swapping` that asks for replicas lo..hi-1. */
  function Request(sw: Swap, key: string, lo: nat, hi: int): Swap
    decreases hi - lo
  {
    if lo >= hi then sw
    else Request(sw.(needs := sw.needs + [(key, lo)]), key, lo + 1, hi)
  }

  function Prepare(sw: Swap, key: string, rNew: nat, rOld: nat): Swap {
    if rNew > rOld then Request(sw, key, rOld, rNew)
    else if rNew < rOld then Release(sw, key, rNew, rOld)
    else sw
  }

  /** `prepare_for_swapping` for the keys of the new distribution, in order. */
  function PrepareAll(sw: Swap, keys: seq<string>, news: seq<nat>, was: Counts): Swap
    requires |keys| == |news|
  {
    if keys == [] then sw
    else
      var m := |keys| - 1;
      Prepare(PrepareAll(sw, keys[..m], news[..m], was), keys[m], news[m],
              At(was, keys[m]))
  }

  /** `perform_swapping`: the first `upTo` requests take the first `upTo` free labels. */
  function Assign(labels: map<string, nat>, free: seq<nat>, needs: seq<(string, nat)>, upTo: nat): map<string, nat>
    requires upTo <= |needs| && upTo <= |free|
  {
    if upTo == 0 then labels
    else
      var (key, i) := needs[upTo - 1];
      Assign(labels, free, needs, upTo - 1)[Name(key, i) := free[upTo - 1]]
  }

  function NameOf(need: (string, nat)): string {
    Name(need.0, need.1)
  }

  function NeedNames(needs: seq<(string, nat)>): (s: set<string>) {
    set n | n in needs :: NameOf(n)
  }

  /** The counts of what is still filed while keys are prepared: nothing that grows is, everything that
      shrinks is given up. */
  function Lower(was: Counts, goal: Counts): Counts {
    map k | k in was :: if At(goal, k) < was[k] then At(goal, k) else was[k]
  }

  /** Replicas that the goal has and that did not exist. */
  predicate Asked(was: Counts, goal: Counts, need: (string, nat)) {
    need.0 in goal && At(was, need.0) <= need.1 < goal[need.0]
  }

  /** What holds between the calls of `prepare_for_swapping`: free labels and directory still partition
      the labels, the directory holds the replicas of `was` that stay, and the requests are those that
      `goal` adds, each once. */
  ghost predicate Balanced(sw: Swap, was: Counts, goal: Counts, size: nat) {
    && Partition(sw.labels, sw.free, size)
    && sw.labels.Keys == Names(Lower(was, goal))
    && Distinct(sw.needs) && forall n :: n in sw.needs <==> Asked(was, goal, n)
  }

  lemma {:induction false} ReleaseBalances(sw: Swap, key: string, lo: nat, hi: int, size: nat)
    requires Partition(sw.labels, sw.free, size) && Range(key, lo, hi) <= sw.labels.Keys && lo <= hi
    ensures var r := Release(sw, key, lo, hi);
            && Partition(r.labels, r.free, size)
            && r.labels.Keys == sw.labels.Keys - Range(key, lo, hi)
            && r.needs == sw.needs && |r.free| == |sw.free| + (hi - lo)
            && (forall s :: s in r.labels ==> r.labels[s] == sw.labels[s])
    decreases hi - lo
  {
    hide Partition;
    if lo < hi {
      var name := Name(key, lo);
      assert name in Range(key, lo, hi);
      ReleaseKeeps(sw.labels, sw.free, size, name);
      RangeSplit(key, lo, hi);
      ReleaseBalances(Swap(sw.labels - {name}, sw.free + [sw.labels[name]], sw.needs), key, lo + 1, hi, size);
    }
  }

  lemma {:induction false} RequestBalances(sw: Swap, key: string, lo: nat, hi: int)
    requires lo <= hi && Distinct(sw.needs) && forall i: nat :: lo <= i < hi ==> (key, i) !in sw.needs
    ensures var r := Request(sw, key, lo, hi);
            && r.labels == sw.labels && r.free == sw.free && |r.needs| == |sw.needs| + (hi - lo)
            && Distinct(r.needs)
            && forall n :: n in r.needs <==> n in sw.needs || (n.0 == key && lo <= n.1 < hi)
    decreases hi - lo
  {
    if lo < hi {
      var needs' := sw.needs + [(key, lo)];
      assert forall n :: n in needs' <==> n in sw.needs || n == (key, lo);
      RequestBalances(sw.(needs := needs'), key, lo + 1, hi);
    }
  }

  lemma GrowBalances(sw: Swap, key: string, rNew: nat, was: Counts, goal: Counts, size: nat)
    requires Balanced(sw, was, goal, size) && At(goal, key) == At(was, key) <= rNew
    ensures var r := Request(sw, key, At(was, key), rNew);
            && Balanced(r, was, goal[key := rNew], size)
            && r.labels == sw.labels && r.free == sw.free && |r.needs| == |sw.needs| + (rNew - At(was, key))
  {
    hide Names, Partition, Distinct;
    assert Lower(was, goal[key := rNew]) == Lower(was, goal);
    RequestBalances(sw, key, At(was, key), rNew);
  }

  /** One call of `prepare_for_swapping` keeps the balance and moves the surplus of requests
      over free labels by the change of the key's count. */
  lemma PrepareBalances(sw: Swap, key: string, rNew: nat, was: Counts, goal: Counts, size: nat)
    requires Balanced(sw, was, goal, size) && Apart(was) && was.Keys <= goal.Keys && At(goal, key) == At(was, key)
    ensures var r := Prepare(sw, key, rNew, At(was, key));
            && Balanced(r, was, goal[key := rNew], size)
            && Surplus(r) == Surplus(sw) + (rNew - At(was, key))
            && Kept(sw.labels, r.labels)
  {
    hide Names, Partition, Apart;
    var rOld := At(was, key);
    if rNew >= rOld {
      GrowBalances(sw, key, rNew, was, goal, size);
    } else {
      var low := Lower(was, goal);
      ApartFewer(was, low);
      NamesShrink(low, key, rNew);
      assert Lower(was, goal[key := rNew]) == low[key := rNew];
      ReleaseBalances(sw, key, rNew, rOld, size);
      assert forall n :: Asked(was, goal[key := rNew], n) <==> Asked(was, goal, n);
    }
  }

  /** The counts after the keys of the new distribution have been given theirs. */
  function Updated(was: Counts, keys: seq<string>, news: seq<nat>): Counts
    requires |keys| == |news|
  {
    if keys == [] then was
    else Updated(was, keys[..|keys| - 1], news[..|news| - 1])[keys[|keys| - 1] := news[|news| - 1]]
  }

  lemma {:induction false} UpdatedAt(was: Counts, keys: seq<string>, news: seq<nat>)
    requires |keys| == |news| && Distinct(keys)
    ensures Updated(was, keys, news).Keys == was.Keys + Elems(keys)
    ensures forall i :: 0 <= i < |keys| ==> keys[i] in keys && Updated(was, keys, news)[keys[i]] == news[i]
    ensures forall k :: k !in keys ==> At(Updated(was, keys, news), k) == At(was, k)
  {
    hide Names;
    if keys != [] {
      var n := |keys| - 1;
      UpdatedAt(was, keys[..n], news[..n]);
      ElemsSnoc(keys[..n], keys[n]);
      assert keys == keys[..n] + [keys[n]];
      UpdatedOne(Updated(was, keys[..n], news[..n]), was, keys, news);
    }
  }

  lemma ElemsSnoc(keys: seq<string>, key: string)
    ensures Elems(keys + [key]) == Elems(keys) + {key}
  {
    assert (keys + [key])[|keys|] == key;
  }

  lemma UpdatedOne(front: Counts, was: Counts, keys: seq<string>, news: seq<nat>)
    requires |keys| == |news| && keys != [] && Distinct(keys)
    requires var n := |keys| - 1;
             && (forall i :: 0 <= i < n ==> keys[..n][i] in front && front[keys[..n][i]] == news[..n][i])
             && (forall k :: k !in keys[..n] ==> At(front, k) == At(was, k))
    ensures var counts := front[keys[|keys| - 1] := news[|keys| - 1]];
            && (forall i :: 0 <= i < |keys| ==> keys[i] in keys && keys[i] in counts && counts[keys[i]] == news[i])
            && (forall k :: k !in keys ==> At(counts, k) == At(was, k))
  {
    hide Names, Updated;
    var n := |keys| - 1;
    assert keys == keys[..n] + [keys[n]];
    assert forall i :: 0 <= i < n ==> keys[..n][i] == keys[i];
  }

  /** Requests minus free labels after preparing some keys. */
  function Surplus(sw: Swap): int {
    |sw.needs| - |sw.free|
  }

  ghost predicate Kept(labels: map<string, nat>, labels': map<string, nat>) {
    forall s :: s in labels' ==> s in labels && labels'[s] == labels[s]
  }

  /** Preparing any list of keys balances, and requests minus free labels is the growth of the
      total count of those keys. */
  lemma {:induction false} PrepareAllBalances(labels: map<string, nat>, keys: seq<string>, news: seq<nat>,
                                              was: Counts, size: nat)
    requires |keys| == |news| && Distinct(keys) && Apart(was) && Bijection(labels, was, size)
    ensures var sw := PrepareAll(Swap(labels, [], []), keys, news, was);
            && Balanced(sw, was, Updated(was, keys, news), size)
            && Surplus(sw) == Total(news) - Along(keys, was)
            && Kept(labels, sw.labels)
  {
    hide Balanced, Names, Apart, Bijection;
    if keys == [] {
      NothingPrepared(labels, was, size);
    } else {
      var m := |keys| - 1;
      PrepareAllBalances(labels, keys[..m], news[..m], was, size);
      UpdatedAt(was, keys[..m], news[..m]);
      assert keys == keys[..m] + [keys[m]] && keys[m] !in keys[..m];
      PrepareBalances(PrepareAll(Swap(labels, [], []), keys[..m], news[..m], was), keys[m], news[m], was,
                      Updated(was, keys[..m], news[..m]), size);
    }
  }

  lemma NothingPrepared(labels: map<string, nat>, was: Counts, size: nat)
    requires Bijection(labels, was, size)
    ensures Balanced(Swap(labels, [], []), was, was, size)
  {
    hide Names, Partition;
    assert Lower(was, was) == was;
  }

  /** If the goal has no two replicas with one name, requests do not collide with what is filed or with
      each other. */
  lemma NeedIsNew(sw: Swap, was: Counts, goal: Counts, size: nat, m: nat)
    requires Balanced(sw, was, goal, size) && Apart(goal) && m < |sw.needs| && was.Keys <= goal.Keys
    ensures NameOf(sw.needs[m]) !in sw.labels && NameOf(sw.needs[m]) !in NeedNames(sw.needs[..m])
  {
    var n := sw.needs[m];
    assert n in sw.needs;
    if NameOf(n) in sw.labels {
      var k, i: nat :| k in Lower(was, goal).Keys && 0 <= i < Lower(was, goal)[k] && NameOf(n) == Name(k, i);
      ApartNames(goal, n.0, n.1, k, i);
      assert false;
    }
    forall n' | n' in sw.needs[..m]
      ensures NameOf(n') != NameOf(n)
    {
      assert n' in sw.needs && n' != n;
      if NameOf(n') == NameOf(n) {
        ApartNames(goal, n.0, n.1, n'.0, n'.1);
      }
    }
  }

  lemma NothingAssigned(sw: Swap, was: Counts, goal: Counts, size: nat)
    requires Balanced(sw, was, goal, size)
    ensures Partition(sw.labels, sw.free[0..], size) && sw.labels.Keys == sw.labels.Keys + NeedNames(sw.needs[..0])
  {
    assert sw.free[0..] == sw.free && sw.needs[..0] == [];
  }

  lemma {:induction false} AssignBalances(sw: Swap, was: Counts, goal: Counts, size: nat, upTo: nat)
    requires Balanced(sw, was, goal, size) && Apart(goal) && was.Keys <= goal.Keys
    requires upTo <= |sw.needs| && upTo <= |sw.free|
    ensures var labels := Assign(sw.labels, sw.free, sw.needs, upTo);
            && Partition(labels, sw.free[upTo..], size)
            && labels.Keys == sw.labels.Keys + NeedNames(sw.needs[..upTo])
            && (forall s :: s in sw.labels ==> s in labels && labels[s] == sw.labels[s])
  {
    hide Balanced, Apart, Partition, NeedNames;
    if upTo == 0 {
      NothingAssigned(sw, was, goal, size);
    } else {
      AssignBalances(sw, was, goal, size, upTo - 1);
      NeedIsNew(sw, was, goal, size, upTo - 1);
      AssignOne(sw, size, upTo - 1, Assign(sw.labels, sw.free, sw.needs, upTo - 1));
    }
  }

  lemma AssignOne(sw: Swap, size: nat, m: nat, labels: map<string, nat>)
    requires m < |sw.needs| && m < |sw.free| && Partition(labels, sw.free[m..], size)
    requires NameOf(sw.needs[m]) !in labels
    ensures Partition(labels[NameOf(sw.needs[m]) := sw.free[m]], sw.free[m + 1..], size)
    ensures NeedNames(sw.needs[..m + 1]) == NeedNames(sw.needs[..m]) + {NameOf(sw.needs[m])}
  {
    hide Names, Partition, NameOf;
    assert sw.needs[..m + 1] == sw.needs[..m] + [sw.needs[m]];
    NeedNamesSnoc(sw.needs[..m], sw.needs[m]);
    assert sw.free[m..][0] == sw.free[m] && sw.free[m..][1..] == sw.free[m + 1..];
    AssignKeeps(labels, sw.free[m..], size, NameOf(sw.needs[m]));
  }

  lemma NeedNamesSnoc(needs: seq<(string, nat)>, n: (string, nat))
    ensures NeedNames(needs + [n]) == NeedNames(needs) + {NameOf(n)}
  {
  }

  /** What stays filed and what is asked for make up the goal. */
  lemma GoalNames(sw: Swap, was: Counts, goal: Counts, size: nat)
    requires Balanced(sw, was, goal, size) && was.Keys <= goal.Keys
    ensures sw.labels.Keys + NeedNames(sw.needs) == Names(goal)
  {
    forall s | s in sw.labels.Keys + NeedNames(sw.needs)
      ensures s in Names(goal)
    {
      if s in sw.labels.Keys {
        var k, i: nat :| k in Lower(was, goal).Keys && 0 <= i < Lower(was, goal)[k] && s == Name(k, i);
        assert k in goal.Keys && i < goal[k];
      } else {
        var n :| n in sw.needs && s == NameOf(n);
        assert n.0 in goal.Keys && n.1 < goal[n.0] && s == Name(n.0, n.1);
      }
    }
    forall s | s in Names(goal)
      ensures s in sw.labels.Keys + NeedNames(sw.needs)
    {
      var k, i: nat :| k in goal.Keys && 0 <= i < goal[k] && s == Name(k, i);
      if k in was && i < was[k] {
        assert k in Lower(was, goal).Keys && i < Lower(was, goal)[k];
      } else {
        assert (k, i) in sw.needs;
        assert NameOf((k, i)) in NeedNames(sw.needs);
      }
    }
  }

  /** The directory after `update_distribution` over the keys (the dummy last). */
  function Redistributed(labels: map<string, nat>, keys: seq<string>, news: seq<nat>, was: Counts): map<string, nat>
    requires |keys| == |news|
  {
    var sw := PrepareAll(Swap(labels, [], []), keys, news, was);
    Assign(sw.labels, sw.free, sw.needs, if |sw.needs| <= |sw.free| then |sw.needs| else |sw.free|)
  }

  /** A redistribution in which requests and free labels match, whatever the keys, files every replica of
      the updated counts under a label of its own exactly if no two of them share a name. */
  lemma RedistributedKeepsLabels(labels: map<string, nat>, keys: seq<string>, news: seq<nat>, was: Counts, size: nat)
    requires |keys| == |news| && Distinct(keys) && Apart(was)
    requires Bijection(labels, was, size) && Surplus(PrepareAll(Swap(labels, [], []), keys, news, was)) == 0
    ensures Bijection(Redistributed(labels, keys, news, was), Updated(was, keys, news), size)
            <==> Apart(Updated(was, keys, news))
    ensures Apart(Updated(was, keys, news)) ==>
              SurvivorsStay(labels, was, Redistributed(labels, keys, news, was), Updated(was, keys, news))
  {
    hide Bijection, Apart;
    if Apart(Updated(was, keys, news)) {
      ApartIsFiled(labels, keys, news, was, size);
    }
    if Bijection(Redistributed(labels, keys, news, was), Updated(was, keys, news), size) {
      FiledIsApart(labels, keys, news, was, size);
    }
  }

  lemma ApartIsFiled(labels: map<string, nat>, keys: seq<string>, news: seq<nat>, was: Counts, size: nat)
    requires |keys| == |news| && Distinct(keys) && Apart(was) && Apart(Updated(was, keys, news))
    requires Bijection(labels, was, size) && Surplus(PrepareAll(Swap(labels, [], []), keys, news, was)) == 0
    ensures Bijection(Redistributed(labels, keys, news, was), Updated(was, keys, news), size)
    ensures SurvivorsStay(labels, was, Redistributed(labels, keys, news, was), Updated(was, keys, news))
  {
    PrepareAllBalances(labels, keys, news, was, size);
    UpdatedAt(was, keys, news);
    var sw, goal := PrepareAll(Swap(labels, [], []), keys, news, was), Updated(was, keys, news);
    AssignBalances(sw, was, goal, size, |sw.needs|);
    GoalNames(sw, was, goal, size);
    assert sw.needs[..|sw.needs|] == sw.needs && sw.free[|sw.free|..] == [];
    forall k, i: nat | k in was && i < was[k] && i < At(goal, k)
      ensures Stays(labels, Redistributed(labels, keys, news, was), k, i)
    {
      Survives(labels, keys, news, was, size, k, i);
    }
  }

  /** The labels are as many as the replicas, before and after. */
  lemma FiledIsApart(labels: map<string, nat>, keys: seq<string>, news: seq<nat>, was: Counts, size: nat)
    requires |keys| == |news| && Distinct(keys) && Apart(was) && Bijection(labels, was, size)
    requires Surplus(PrepareAll(Swap(labels, [], []), keys, news, was)) == 0
    requires Bijection(Redistributed(labels, keys, news, was), Updated(was, keys, news), size)
    ensures Apart(Updated(was, keys, news))
  {
    hide Names, Partition, Apart, Balanced, Bijection;
    PrepareAllBalances(labels, keys, news, was, size);
    UpdatedAt(was, keys, news);
    var others := Enumerated(was.Keys - Elems(keys));
    DistinctConcat(keys, others);
    FiledExactly(labels, was, size, keys + others);
    FiledExactly(Redistributed(labels, keys, news, was), Updated(was, keys, news), size, keys + others);
    AlongConcat(keys, others, was);
    AlongConcat(keys, others, Updated(was, keys, news));
    AlongGives(keys, news, Updated(was, keys, news));
    AlongAgree(others, was, Updated(was, keys, news));
  }

  lemma {:induction false} Enumerated(keys: set<string>) returns (s: seq<string>)
    ensures Distinct(s) && forall k :: k in s <==> k in keys
  {
    if keys == {} {
      s := [];
    } else {
      var k :| k in keys;
      var rest := Enumerated(keys - {k});
      s := rest + [k];
    }
  }

  /** Every replica that exists before and after has the same label. */
  ghost predicate SurvivorsStay(labels: map<string, nat>, counts: Counts, labels': map<string, nat>, counts': Counts) {
    forall k, i: nat :: k in counts && i < counts[k] && i < At(counts', k) ==> Stays(labels, labels', k, i)
  }

  ghost predicate Stays(labels: map<string, nat>, labels': map<string, nat>, k: string, i: nat) {
    Name(k, i) in labels' && Name(k, i) in labels && labels'[Name(k, i)] == labels[Name(k, i)]
  }

  /** A replica that exists before and after is never released, and keeps its label. */
  lemma Survives(labels: map<string, nat>, keys: seq<string>, news: seq<nat>, was: Counts, size: nat, k: string, i: nat)
    requires |keys| == |news| && Distinct(keys) && Apart(was) && Bijection(labels, was, size)
    requires k in was && i < was[k] && i < At(Updated(was, keys, news), k)
    ensures var sw := PrepareAll(Swap(labels, [], []), keys, news, was);
            Name(k, i) in labels && Name(k, i) in sw.labels && sw.labels[Name(k, i)] == labels[Name(k, i)]
  {
    hide Apart, Partition;
    PrepareAllBalances(labels, keys, news, was, size);
    var low := Lower(was, Updated(was, keys, news));
    assert k in low.Keys && i < low[k];
    assert Name(k, i) in Names(low);
  }

  /** Over the same keys, with new counts of the same total, they do match. */
  lemma RedistributedIsBijection(labels: map<string, nat>, keys: seq<string>, news: seq<nat>, was: Counts, size: nat)
    requires |keys| == |news| && Distinct(keys) && was.Keys == Elems(keys) && Apart(was) && Apart(CountsOf(keys, news))
    requires Bijection(labels, was, size) && Total(news) == size
    ensures Surplus(PrepareAll(Swap(labels, [], []), keys, news, was)) == 0
    ensures Bijection(Redistributed(labels, keys, news, was), CountsOf(keys, news), size)
    ensures SurvivorsStay(labels, was, Redistributed(labels, keys, news, was), CountsOf(keys, news))
  {
    hide Bijection, Apart, Balanced, SurvivorsStay;
    FiledExactly(labels, was, size, keys);
    PrepareAllBalances(labels, keys, news, was, size);
    UpdatedAt(was, keys, news);
    CountsOfKeys(keys, news);
    assert was.Keys + Elems(keys) == Elems(keys);
    assert Updated(was, keys, news) == CountsOf(keys, news);
    RedistributedKeepsLabels(labels, keys, news, was, size);
  }

  /** One key more, which is not among the others. */
  lemma {:induction false} UpdatedBeside(was: Counts, keys: seq<string>, news: seq<nat>, k: string, n: nat)
    requires |keys| == |news| && k !in keys
    ensures Updated(was[k := n], keys, news) == Updated(was, keys, news)[k := n]
  {
    if keys != [] {
      assert keys[|keys| - 1] in keys;
      UpdatedBeside(was, keys[..|keys| - 1], news[..|news| - 1], k, n);
    }
  }

  /** For any change of the key set the assertion `needs_labels.size() == unassigned_labels.size()`
      passes exactly when the new total plus what the vanished keys held is the old total:
      labels of vanished keys are never released. */
  lemma SwapAssertExact(labels: map<string, nat>, keys: seq<string>, news: seq<nat>, was: Counts, size: nat,
                        oldKeys: seq<string>, added: seq<string>, vanished: seq<string>)
    requires |keys| == |news| && Distinct(keys) && Apart(was) && Bijection(labels, was, size)
    requires Distinct(oldKeys) && (forall k :: k in oldKeys <==> k in was)
    requires Distinct(added) && (forall k :: k in added <==> k in keys && k !in was)
    requires Distinct(vanished) && (forall k :: k in vanished <==> k in was && k !in keys)
    ensures var sw := PrepareAll(Swap(labels, [], []), keys, news, was);
            |sw.needs| == |sw.free| <==> Total(news) + Along(vanished, was) == size
  {
    hide Bijection, Apart, Balanced;
    FiledExactly(labels, was, size, oldKeys);
    PrepareAllBalances(labels, keys, news, was, size);
    DistinctConcat(keys, vanished);
    DistinctConcat(oldKeys, added);
    AlongAnyOrder(keys + vanished, oldKeys + added, was);
    AlongConcat(keys, vanished, was);
    AlongConcat(oldKeys, added, was);
    AlongAbsent(added, was);
  }

  lemma DistinctConcat(a: seq<string>, b: seq<string>)
    requires Distinct(a) && Distinct(b) && forall k :: k in b ==> k !in a
    ensures Distinct(a + b)
  {
    var c := a + b;
    forall i, j | 0 <= i < j < |c|
      ensures c[i] != c[j]
    {
      if i < |a| <= j {
        assert c[j] in b;
      }
    }
  }

  lemma {:induction false} AlongAbsent(keys: seq<string>, counts: Counts)
    requires forall k :: k in keys ==> k !in counts
    ensures Along(keys, counts) == 0
  {
    if keys != [] {
      AlongAbsent(keys[..|keys| - 1], counts);
    }
  }

  /** The m-th call of `prepare_for_swapping`. */
  lemma PrepareAllNext(sw: Swap, keys: seq<string>, news: seq<nat>, was: Counts, m: nat)
    requires m < |keys| == |news|
    ensures PrepareAll(sw, keys[..m + 1], news[..m + 1], was)
            == Prepare(PrepareAll(sw, keys[..m], news[..m], was), keys[m], news[m], At(was, keys[m]))
  {
    assert keys[..m + 1][..m] == keys[..m] && news[..m + 1][..m] == news[..m];
  }

  /** The assertion inside `prepare_for_swapping` holds: when a key shrinks, the replicas it gives up
      are in the directory. */
  lemma Releasable(labels: map<string, nat>, keys: seq<string>, news: seq<nat>, was: Counts, size: nat, m: nat)
    requires m < |keys| == |news| && Distinct(keys) && Apart(was)
    requires Bijection(labels, was, size) && news[m] < At(was, keys[m])
    ensures Range(keys[m], news[m], At(was, keys[m]))
            <= PrepareAll(Swap(labels, [], []), keys[..m], news[..m], was).labels.Keys
  {
    hide Apart, Partition;
    var front, key := keys[..m], keys[m];
    assert key !in front;
    PrepareAllBalances(labels, front, news[..m], was, size);
    UpdatedAt(was, front, news[..m]);
    var low := Lower(was, Updated(was, front, news[..m]));
    forall i: nat | news[m] <= i < At(was, key)
      ensures Name(key, i) in Names(low)
    {
      assert key in low.Keys && i < low[key];
    }
  }

  lemma {:induction false} AlongGives(keys: seq<string>, news: seq<nat>, counts: Counts)
    requires |keys| == |news| && forall i :: 0 <= i < |keys| ==> At(counts, keys[i]) == news[i]
    ensures Along(keys, counts) == Total(news)
  {
    if keys != [] {
      AlongGives(keys[..|keys| - 1], news[..|news| - 1], counts);
    }
  }
}
