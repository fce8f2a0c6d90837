/** Which label a new replica gets: requests are served, in the order in which they were made, by the labels that
    were given up, in the order in which they were. */
module SwapOrder {
  import opened Naming
  import opened Sums
  import opened Directory

  /** How many replicas the first m keys give up, and how many they ask for. */
  function GivenUp(keys: seq<string>, news: seq<nat>, was: Counts, m: nat): nat
    requires m <= |keys| == |news|
  {
    if m == 0 then 0
    else GivenUp(keys, news, was, m - 1)
         + if news[m - 1] < At(was, keys[m - 1]) then At(was, keys[m - 1]) - news[m - 1] else 0
  }

  function AskedFor(keys: seq<string>, news: seq<nat>, was: Counts, m: nat): nat
    requires m <= |keys| == |news|
  {
    if m == 0 then 0
    else AskedFor(keys, news, was, m - 1)
         + if At(was, keys[m - 1]) < news[m - 1] then news[m - 1] - At(was, keys[m - 1]) else 0
  }

  // ------------------------------------------------------------------ one key

  /** The labels of the replicas lo..hi-1 follow in this order. */
  ghost predicate AppendsLabels(free: seq<nat>, free': seq<nat>, labels: map<string, nat>, key: string, lo: nat,
                                hi: int)
    requires lo <= hi
  {
    && |free'| == |free| + (hi - lo) && free <= free'
    && forall i: nat :: lo <= i < hi ==> Name(key, i) in labels && free'[|free| + (i - lo)] == labels[Name(key, i)]
  }

  predicate InDirectory(labels: map<string, nat>, key: string, lo: nat, hi: int) {
    forall i: nat :: lo <= i < hi ==> Name(key, i) in labels
  }

  lemma RangeInDirectory(labels: map<string, nat>, key: string, lo: nat, hi: int)
    requires Range(key, lo, hi) <= labels.Keys
    ensures InDirectory(labels, key, lo, hi)
  {
    forall i: nat | lo <= i < hi
      ensures Name(key, i) in labels
    {
      assert Name(key, i) in Range(key, lo, hi);
    }
  }

  /** One turn of the loop takes one name off the directory, and no later one. */
  lemma OneReleased(labels: map<string, nat>, key: string, lo: nat, hi: int)
    requires lo < hi && InDirectory(labels, key, lo, hi)
    ensures Name(key, lo) in labels && InDirectory(labels - {Name(key, lo)}, key, lo + 1, hi)
    ensures forall i: nat :: lo + 1 <= i < hi ==>
              && Name(key, i) in labels - {Name(key, lo)}
              && (labels - {Name(key, lo)})[Name(key, i)] == labels[Name(key, i)]
  {
    forall i: nat | lo + 1 <= i < hi
      ensures Name(key, i) in labels && Name(key, i) != Name(key, lo)
    {
      if Name(key, i) == Name(key, lo) {
        SameKeyName(key, i, lo);
      }
    }
  }

  lemma AppendsOneMore(free: seq<nat>, free': seq<nat>, labels: map<string, nat>, rest: map<string, nat>, key: string,
                       lo: nat, hi: int)
    requires lo < hi && Name(key, lo) in labels
    requires AppendsLabels(free + [labels[Name(key, lo)]], free', rest, key, lo + 1, hi)
    requires forall i: nat :: lo + 1 <= i < hi ==> Name(key, i) in labels && Name(key, i) in rest
                                                   && rest[Name(key, i)] == labels[Name(key, i)]
    ensures AppendsLabels(free, free', labels, key, lo, hi)
  {
    var id := labels[Name(key, lo)];
    assert (free + [id])[|free|] == id;
    assert free <= free + [id];
  }

  lemma {:induction false} ReleaseAppends(sw: Swap, key: string, lo: nat, hi: int)
    requires InDirectory(sw.labels, key, lo, hi) && lo <= hi
    ensures AppendsLabels(sw.free, Release(sw, key, lo, hi).free, sw.labels, key, lo, hi)
    ensures Release(sw, key, lo, hi).needs == sw.needs
    decreases hi - lo
  {
    if lo < hi {
      hide AppendsLabels, InDirectory;
      OneReleased(sw.labels, key, lo, hi);
      var next := Swap(sw.labels - {Name(key, lo)}, sw.free + [sw.labels[Name(key, lo)]], sw.needs);
      ReleaseAppends(next, key, lo + 1, hi);
      AppendsOneMore(sw.free, Release(next, key, lo + 1, hi).free, sw.labels, next.labels, key, lo, hi);
    }
  }

  ghost predicate AppendsRequests(needs: seq<(string, nat)>, needs': seq<(string, nat)>, key: string, lo: nat, hi: int)
    requires lo <= hi
  {
    && |needs'| == |needs| + (hi - lo) && needs <= needs'
    && forall i: nat :: lo <= i < hi ==> needs'[|needs| + (i - lo)] == (key, i)
  }

  lemma {:induction false} RequestAppends(sw: Swap, key: string, lo: nat, hi: int)
    requires lo <= hi
    ensures AppendsRequests(sw.needs, Request(sw, key, lo, hi).needs, key, lo, hi)
    ensures Request(sw, key, lo, hi).free == sw.free
    decreases hi - lo
  {
    if lo < hi {
      RequestAppends(sw.(needs := sw.needs + [(key, lo)]), key, lo + 1, hi);
    }
  }

  // ------------------------------------------------------------------ all keys

  /** After the first n keys: the lists have these lengths, and hold what each of these keys gave up or asked for
      at its place. */
  ghost predicate Listed(labels: map<string, nat>, sw: Swap, keys: seq<string>, news: seq<nat>, was: Counts, n: nat)
    requires n <= |keys| == |news|
  {
    && |sw.free| == GivenUp(keys, news, was, n) && |sw.needs| == AskedFor(keys, news, was, n)
    && (forall m, i: nat :: 0 <= m < n && news[m] <= i < At(was, keys[m]) ==>
          ListedFree(labels, sw.free, keys, news, was, m, i))
    && forall m, i: nat :: 0 <= m < n && At(was, keys[m]) <= i < news[m] ==>
         ListedNeed(sw.needs, keys, news, was, m, i)
  }

  /** Replica i of key m gave up its label at this place. */
  ghost predicate ListedFree(labels: map<string, nat>, free: seq<nat>, keys: seq<string>, news: seq<nat>, was: Counts,
                             m: nat, i: nat)
    requires m < |keys| == |news| && news[m] <= i
  {
    var at := GivenUp(keys, news, was, m) + (i - news[m]);
    at < |free| && Name(keys[m], i) in labels && free[at] == labels[Name(keys[m], i)]
  }

  /** And replica i of key m asked for one at this place. */
  ghost predicate ListedNeed(needs: seq<(string, nat)>, keys: seq<string>, news: seq<nat>, was: Counts, m: nat, i: nat)
    requires m < |keys| == |news| && At(was, keys[m]) <= i
  {
    var at := AskedFor(keys, news, was, m) + (i - At(was, keys[m]));
    at < |needs| && needs[at] == (keys[m], i)
  }

  lemma {:induction false} AllListed(labels: map<string, nat>, keys: seq<string>, news: seq<nat>, was: Counts,
                                     size: nat, n: nat)
    requires n <= |keys| == |news| && Distinct(keys) && Apart(was) && Bijection(labels, was, size)
    ensures Listed(labels, PrepareAll(Swap(labels, [], []), keys[..n], news[..n], was), keys, news, was, n)
  {
    hide Apart, Bijection, Listed, Prepare, Range;
    if n == 0 {
      NothingListed(labels, keys, news, was);
    } else {
      AllListed(labels, keys, news, was, size, n - 1);
      var sw := PrepareAll(Swap(labels, [], []), keys[..n - 1], news[..n - 1], was);
      assert keys[..n][..n - 1] == keys[..n - 1] && news[..n][..n - 1] == news[..n - 1];
      if news[n - 1] < At(was, keys[n - 1]) {
        Releasable(labels, keys, news, was, size, n - 1);
      }
      StillFiled(labels, keys, news, was, size, n - 1);
      OneMoreListed(labels, sw, keys, news, was, n);
    }
  }

  lemma NothingListed(labels: map<string, nat>, keys: seq<string>, news: seq<nat>, was: Counts)
    requires |keys| == |news|
    ensures Listed(labels, PrepareAll(Swap(labels, [], []), keys[..0], news[..0], was), keys, news, was, 0)
  {
  }

  /** What is still filed has its old label. */
  lemma StillFiled(labels: map<string, nat>, keys: seq<string>, news: seq<nat>, was: Counts, size: nat, n: nat)
    requires n <= |keys| == |news| && Distinct(keys) && Apart(was) && Bijection(labels, was, size)
    ensures Kept(labels, PrepareAll(Swap(labels, [], []), keys[..n], news[..n], was).labels)
  {
    hide Apart, Bijection, Balanced;
    PrepareAllBalances(labels, keys[..n], news[..n], was, size);
  }

  lemma OneMoreListed(labels: map<string, nat>, sw: Swap, keys: seq<string>, news: seq<nat>, was: Counts, n: nat)
    requires 0 < n <= |keys| == |news| && Listed(labels, sw, keys, news, was, n - 1) && Kept(labels, sw.labels)
    requires news[n - 1] < At(was, keys[n - 1]) ==>
               Range(keys[n - 1], news[n - 1], At(was, keys[n - 1])) <= sw.labels.Keys
    ensures Listed(labels, Prepare(sw, keys[n - 1], news[n - 1], At(was, keys[n - 1])), keys, news, was, n)
  {
    hide Release, Request, Range, ListedFree, ListedNeed;
    var key, lo, hi := keys[n - 1], news[n - 1], At(was, keys[n - 1]);
    var sw' := Prepare(sw, key, lo, hi);
    if lo < hi {
      RangeInDirectory(sw.labels, key, lo, hi);
      ReleaseAppends(sw, key, lo, hi);
    } else if hi < lo {
      RequestAppends(sw, key, hi, lo);
    }
    forall m, i: nat | 0 <= m < n && news[m] <= i < At(was, keys[m])
      ensures ListedFree(labels, sw'.free, keys, news, was, m, i)
    {
      FreeStays(labels, sw, sw', keys, news, was, n, m, i);
    }
    forall m, i: nat | 0 <= m < n && At(was, keys[m]) <= i < news[m]
      ensures ListedNeed(sw'.needs, keys, news, was, m, i)
    {
      NeedStays(sw, sw', keys, news, was, n, m, i);
    }
  }

  lemma FreeStays(labels: map<string, nat>, sw: Swap, sw': Swap, keys: seq<string>, news: seq<nat>, was: Counts, n: nat,
                  m: nat, i: nat)
    requires 0 < n <= |keys| == |news| && Listed(labels, sw, keys, news, was, n - 1) && Kept(labels, sw.labels)
    requires sw.free <= sw'.free && m < n && news[m] <= i < At(was, keys[m])
    requires m == n - 1 ==> AppendsLabels(sw.free, sw'.free, sw.labels, keys[m], news[m], At(was, keys[m]))
    ensures ListedFree(labels, sw'.free, keys, news, was, m, i)
  {
    if m < n - 1 {
      assert ListedFree(labels, sw.free, keys, news, was, m, i);
    }
  }

  lemma NeedStays(sw: Swap, sw': Swap, keys: seq<string>, news: seq<nat>, was: Counts, n: nat, m: nat, i: nat)
    requires 0 < n <= |keys| == |news| && m < n && At(was, keys[m]) <= i < news[m]
    requires |sw.needs| == AskedFor(keys, news, was, n - 1) && sw.needs <= sw'.needs
    requires m < n - 1 ==> ListedNeed(sw.needs, keys, news, was, m, i)
    requires m == n - 1 ==> AppendsRequests(sw.needs, sw'.needs, keys[m], At(was, keys[m]), news[m])
    ensures ListedNeed(sw'.needs, keys, news, was, m, i)
  {
  }

  // ------------------------------------------------------------------ who gets which label

  lemma {:induction false} ServedInOrder(sw: Swap, was: Counts, goal: Counts, size: nat, upTo: nat, j: nat)
    requires Balanced(sw, was, goal, size) && Apart(goal) && was.Keys <= goal.Keys
    requires j < upTo <= |sw.needs| && upTo <= |sw.free|
    ensures var labels := Assign(sw.labels, sw.free, sw.needs, upTo);
            NameOf(sw.needs[j]) in labels && labels[NameOf(sw.needs[j])] == sw.free[j]
  {
    hide Balanced, Apart, NeedNames;
    if j < upTo - 1 {
      ServedInOrder(sw, was, goal, size, upTo - 1, j);
      OwnName(sw, was, goal, size, upTo - 1, j);
    }
  }

  lemma OwnName(sw: Swap, was: Counts, goal: Counts, size: nat, m: nat, j: nat)
    requires Balanced(sw, was, goal, size) && Apart(goal) && was.Keys <= goal.Keys && j < m < |sw.needs|
    ensures NameOf(sw.needs[j]) != NameOf(sw.needs[m])
  {
    hide Apart;
    NeedIsNew(sw, was, goal, size, m);
    assert sw.needs[..m][j] == sw.needs[j];
  }

  /** If the lists match and no two of the new replicas share a name: a replica that is new gets the label of the
      replica that was the j-th to be given up, where j is the number of replicas asked for before it.  Keys
      give up and ask in the order of the new distribution, the dummy last, and each by rising number. */
  lemma FiledInOrder(labels: map<string, nat>, keys: seq<string>, news: seq<nat>, was: Counts, size: nat, m: nat,
                     i: nat, m': nat, i': nat)
    requires |keys| == |news| && Distinct(keys) && Apart(was) && Apart(Updated(was, keys, news))
    requires Bijection(labels, was, size) && Surplus(PrepareAll(Swap(labels, [], []), keys, news, was)) == 0
    requires m < |keys| && At(was, keys[m]) <= i < news[m]
    requires m' < |keys| && news[m'] <= i' < At(was, keys[m'])
    requires AskedFor(keys, news, was, m) + (i - At(was, keys[m])) == GivenUp(keys, news, was, m') + (i' - news[m'])
    ensures Name(keys[m], i) in Redistributed(labels, keys, news, was) && Name(keys[m'], i') in labels
    ensures Redistributed(labels, keys, news, was)[Name(keys[m], i)] == labels[Name(keys[m'], i')]
  {
    hide Apart, Bijection, Balanced, PrepareAll, Assign, Updated, AskedFor, GivenUp, NameOf;
    var sw := PrepareAll(Swap(labels, [], []), keys, news, was);
    AllListed(labels, keys, news, was, size, |keys|);
    assert keys[..|keys|] == keys && news[..|keys|] == news;
    PrepareAllBalances(labels, keys, news, was, size);
    UpdatedAt(was, keys, news);
    ListedAt(labels, sw, keys, news, was, m, i, m', i');
    ServedInOrder(sw, was, Updated(was, keys, news), size, |sw.needs|,
                  AskedFor(keys, news, was, m) + (i - At(was, keys[m])));
  }

  lemma ListedAt(labels: map<string, nat>, sw: Swap, keys: seq<string>, news: seq<nat>, was: Counts, m: nat, i: nat,
                 m': nat, i': nat)
    requires |keys| == |news| && Listed(labels, sw, keys, news, was, |keys|)
    requires m < |keys| && At(was, keys[m]) <= i < news[m]
    requires m' < |keys| && news[m'] <= i' < At(was, keys[m'])
    ensures var j := AskedFor(keys, news, was, m) + (i - At(was, keys[m]));
            j < |sw.needs| && NameOf(sw.needs[j]) == Name(keys[m], i)
    ensures var j := GivenUp(keys, news, was, m') + (i' - news[m']);
            j < |sw.free| && Name(keys[m'], i') in labels && sw.free[j] == labels[Name(keys[m'], i')]
  {
    assert ListedNeed(sw.needs, keys, news, was, m, i) && ListedFree(labels, sw.free, keys, news, was, m', i');
  }
}
