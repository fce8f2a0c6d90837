/** `update_distribution`: what its loop leaves behind, when its assertions pass, and what then holds. */
module Redistribution {
  import opened Naming
  import opened Sums
  import opened Smoothing
  import opened Directory
  import opened SwapOrder
  import opened UpdateCache
  import opened Storage
  import opened Refinement
  import opened Plans

  /** A new distribution; its keys need not be the old ones. */
  datatype Target = Target(keys: seq<string>, probs: seq<real>)

  /** What the proxy can be asked to move to: distinct keys with a distribution.  All that is asked of the
      proxy is a directory in order. */
  ghost predicate MayMoveTo(p: Plan, t: Target) {
    p.AllFiled() && IsTarget(t, p.dummyKey)
  }

  ghost predicate IsTarget(t: Target, dummyKey: string) {
    |t.keys| == |t.probs| && IsDistribution(t.probs) && Distinct(t.keys) && dummyKey !in t.keys
  }

  /** The new replica counts of the real keys. */
  function News(p: Plan, t: Target): (news: seq<nat>)
    requires p.alpha > 0.0 && |t.keys| == |t.probs| && forall i :: 0 <= i < |t.probs| ==> t.probs[i] > 0.0
    ensures |news| == |t.keys|
  {
    NatCounts(t.probs, p.alpha)
  }

  // ------------------------------------------------------------------ the loop

  /** What the loop works on: directory and swap lists, missing replicas, counts, new frequencies. */
  datatype Moves = Moves(sw: Swap, missing: Entries, replicas: Counts, freq: map<string, real>)

  function Begin(p: Plan, missing: Entries, freq: map<string, real>): Moves {
    Moves(Swap(p.labels, [], []), missing, p.replicas, freq)
  }

  /** The missing replicas after one call of `prepare_for_swapping`. */
  function Grow(missing: Entries, key: string, rNew: nat, rOld: nat, dummyKey: string): Entries {
    if rNew > rOld && key != dummyKey then EditBitVectorSize(missing, key, rNew) else missing
  }

  /** One turn for a real key. */
  function Move(s: Moves, key: string, pi: real, rNew: nat, dummyKey: string): Moves {
    var rOld := At(s.replicas, key);
    Moves(Prepare(s.sw, key, rNew, rOld), Grow(s.missing, key, rNew, rOld, dummyKey), s.replicas[key := rNew],
          s.freq[key := pi])
  }

  /** The first m turns. */
  function MoveFirst(s: Moves, t: Target, news: seq<nat>, dummyKey: string, m: nat): Moves
    requires m <= |t.keys| == |t.probs| == |news|
  {
    if m == 0 then s
    else Move(MoveFirst(s, t, news, dummyKey, m - 1), t.keys[m - 1], t.probs[m - 1], news[m - 1], dummyKey)
  }

  /** The dummy's turn, which comes last. */
  function MoveDummy(s: Moves, dummyKey: string, rNew: nat, rOld: nat): Moves {
    s.(sw := Prepare(s.sw, dummyKey, rNew, rOld), missing := Grow(s.missing, dummyKey, rNew, rOld, dummyKey))
  }

  /** Everything that is prepared before the labels are handed out. */
  function Prepared(p: Plan, t: Target, news: seq<nat>, s: Moves): Moves
    requires |t.keys| == |t.probs| == |news| && Total(news) < 2 * |t.keys|
  {
    MoveDummy(MoveFirst(s, t, news, p.dummyKey, |t.keys|), p.dummyKey, 2 * |t.keys| - Total(news), p.dummies)
  }

  // ------------------------------------------------------------------ what the loop leaves

  lemma UpdatedNext(was: Counts, keys: seq<string>, news: seq<nat>, m: nat)
    requires m < |keys| == |news|
    ensures Updated(was, keys[..m + 1], news[..m + 1]) == Updated(was, keys[..m], news[..m])[keys[m] := news[m]]
  {
    assert keys[..m + 1][..m] == keys[..m] && news[..m + 1][..m] == news[..m];
  }

  lemma GrownNext(missing: Entries, keys: seq<string>, news: seq<nat>, was: Counts, m: nat)
    requires m < |keys| == |news|
    ensures var g := Grown(missing, keys[..m], news[..m], was);
            Grown(missing, keys[..m + 1], news[..m + 1], was)
            == if news[m] > At(was, keys[m]) then EditBitVectorSize(g, keys[m], news[m]) else g
  {
    assert keys[..m + 1][..m] == keys[..m] && news[..m + 1][..m] == news[..m];
  }

  /** The count that a turn reads is the one from before the redistribution. */
  lemma ReadsOldCount(p: Plan, t: Target, news: seq<nat>, m: nat)
    requires MayMoveTo(p, t) && m < |t.keys| == |news|
    ensures t.keys[m] != p.dummyKey
    ensures At(Updated(p.replicas, t.keys[..m], news[..m]), t.keys[m]) == At(p.Counts(), t.keys[m])
  {
    assert t.keys[m] in t.keys && t.keys[m] !in t.keys[..m];
    UpdatedAt(p.replicas, t.keys[..m], news[..m]);
  }

  /** After m turns: the lists and the directory of the first m calls, the missing replicas of the keys
      that grew, the updated counts. */
  ghost predicate TurnsDone(p: Plan, t: Target, news: seq<nat>, s: Moves, s': Moves, m: nat)
    requires m <= |t.keys| == |news|
  {
    && s'.sw == PrepareAll(Swap(p.labels, [], []), t.keys[..m], news[..m], p.Counts())
    && s'.missing == Grown(s.missing, t.keys[..m], news[..m], p.Counts())
    && s'.replicas == Updated(p.replicas, t.keys[..m], news[..m])
  }

  lemma OneMoreTurn(p: Plan, t: Target, news: seq<nat>, s: Moves, s': Moves, m: nat)
    requires MayMoveTo(p, t) && m < |t.keys| == |t.probs| == |news| && TurnsDone(p, t, news, s, s', m)
    ensures TurnsDone(p, t, news, s, Move(s', t.keys[m], t.probs[m], news[m], p.dummyKey), m + 1)
  {
    hide MayMoveTo, Prepare, PrepareAll, Grown, Updated, EditBitVectorSize;
    ReadsOldCount(p, t, news, m);
    PrepareAllNext(Swap(p.labels, [], []), t.keys, news, p.Counts(), m);
    GrownNext(s.missing, t.keys, news, p.Counts(), m);
    UpdatedNext(p.replicas, t.keys, news, m);
  }

  lemma NoTurns(p: Plan, t: Target, news: seq<nat>, s: Moves)
    requires |t.keys| == |news| && s.sw == Swap(p.labels, [], []) && s.replicas == p.replicas
    ensures TurnsDone(p, t, news, s, s, 0)
  {
    assert t.keys[..0] == [] && news[..0] == [];
  }

  lemma {:induction false} AfterTurns(p: Plan, t: Target, news: seq<nat>, s: Moves, m: nat)
    requires MayMoveTo(p, t) && m <= |t.keys| == |news|
    requires s.sw == Swap(p.labels, [], []) && s.replicas == p.replicas
    ensures TurnsDone(p, t, news, s, MoveFirst(s, t, news, p.dummyKey, m), m)
  {
    hide MayMoveTo, TurnsDone, Move;
    MayMoveNeeds(p, t);
    if m == 0 {
      NoTurns(p, t, news, s);
    } else {
      AfterTurns(p, t, news, s, m - 1);
      OneMoreTurn(p, t, news, s, MoveFirst(s, t, news, p.dummyKey, m - 1), m - 1);
    }
  }

  /** The new frequencies are the probabilities; earlier entries of other keys stay. */
  lemma {:induction false} FrequenciesAfterTurns(s: Moves, t: Target, news: seq<nat>, dummyKey: string, m: nat)
    requires m <= |t.keys| == |t.probs| == |news| && Distinct(t.keys)
    ensures FirstProbs(s.freq, t, m, MoveFirst(s, t, news, dummyKey, m).freq)
  {
    if m > 0 {
      hide FirstProbs;
      FrequenciesAfterTurns(s, t, news, dummyKey, m - 1);
      NextProb(s.freq, t, m - 1, MoveFirst(s, t, news, dummyKey, m - 1).freq);
    }
  }

  ghost predicate FirstProbs(was: map<string, real>, t: Target, m: nat, freq: map<string, real>)
    requires m <= |t.keys| == |t.probs|
  {
    && (forall k :: k in freq <==> k in was || k in t.keys[..m])
    && forall i :: 0 <= i < m ==> HasProb(t, i, freq)
  }

  ghost predicate HasProb(t: Target, i: nat, freq: map<string, real>)
    requires i < |t.keys| == |t.probs|
  {
    t.keys[i] in freq && freq[t.keys[i]] == t.probs[i]
  }

  lemma NextProb(was: map<string, real>, t: Target, m: nat, freq: map<string, real>)
    requires m < |t.keys| == |t.probs| && Distinct(t.keys) && FirstProbs(was, t, m, freq)
    ensures FirstProbs(was, t, m + 1, freq[t.keys[m] := t.probs[m]])
  {
    assert t.keys[..m + 1] == t.keys[..m] + [t.keys[m]];
    var freq' := freq[t.keys[m] := t.probs[m]];
    forall i | 0 <= i <= m
      ensures HasProb(t, i, freq')
    {
      assert i < m ==> HasProb(t, i, freq) && t.keys[i] != t.keys[m];
    }
  }

  /** The assertion in the release loop of `prepare_for_swapping` holds in every turn. */
  lemma TurnReleases(p: Plan, t: Target, news: seq<nat>, s: Moves, m: nat)
    requires MayMoveTo(p, t) && m < |t.keys| == |news|
    requires s.sw == Swap(p.labels, [], []) && s.replicas == p.replicas
    ensures var s' := MoveFirst(s, t, news, p.dummyKey, m);
            news[m] < At(s'.replicas, t.keys[m])
            ==> Range(t.keys[m], news[m], At(s'.replicas, t.keys[m])) <= s'.sw.labels.Keys
  {
    AfterTurns(p, t, news, s, m);
    ReadsOldCount(p, t, news, m);
    if news[m] < At(p.Counts(), t.keys[m]) {
      Releasable(p.labels, t.keys, news, p.Counts(), 2 * p.size, m);
    }
  }

  function WithDummy(news: seq<nat>, dummies: nat): seq<nat> {
    news + [dummies]
  }

  function KeysAndDummy(p: Plan, t: Target): seq<string> {
    t.keys + [p.dummyKey]
  }

  /** With the dummy last the keys are still distinct, and the old names are apart. */
  lemma AllKeys(p: Plan, t: Target)
    requires MayMoveTo(p, t)
    ensures Distinct(KeysAndDummy(p, t)) && Apart(p.Counts())
    ensures Elems(KeysAndDummy(p, t)) == Elems(t.keys) + {p.dummyKey}
  {
    hide Apart, Bijection;
    LastKey(t.keys, p.dummyKey);
  }

  /** The dummy can release what it gives up. */
  lemma DummyReleases(p: Plan, t: Target, news: seq<nat>, dummies: nat)
    requires MayMoveTo(p, t) && |news| == |t.keys| && dummies < p.dummies
    ensures Range(p.dummyKey, dummies, p.dummies)
            <= PrepareAll(Swap(p.labels, [], []), t.keys, news, p.Counts()).labels.Keys
  {
    AllKeys(p, t);
    var all, allNews := KeysAndDummy(p, t), WithDummy(news, dummies);
    assert all[..|t.keys|] == t.keys && allNews[..|t.keys|] == news;
    Releasable(p.labels, all, allNews, p.Counts(), 2 * p.size, |t.keys|);
  }

  lemma DummyTurn(p: Plan, keys: seq<string>, news: seq<nat>, dummies: nat)
    requires |keys| == |news|
    ensures PrepareAll(Swap(p.labels, [], []), keys + [p.dummyKey], WithDummy(news, dummies), p.Counts())
            == Prepare(PrepareAll(Swap(p.labels, [], []), keys, news, p.Counts()), p.dummyKey, dummies, p.dummies)
    ensures Updated(p.Counts(), keys + [p.dummyKey], WithDummy(news, dummies))
            == Updated(p.Counts(), keys, news)[p.dummyKey := dummies]
  {
    var all, allNews := keys + [p.dummyKey], WithDummy(news, dummies);
    assert all[..|keys|] == keys && allNews[..|keys|] == news;
  }

  /** Everything prepared, in terms of the old plan. */
  lemma PreparedIs(p: Plan, t: Target, news: seq<nat>, s: Moves)
    requires MayMoveTo(p, t) && |news| == |t.keys| && Total(news) < 2 * |t.keys|
    requires s.sw == Swap(p.labels, [], []) && s.replicas == p.replicas
    ensures var s' := Prepared(p, t, news, s);
            && s'.sw == PrepareAll(Swap(p.labels, [], []), KeysAndDummy(p, t),
                                   WithDummy(news, 2 * |t.keys| - Total(news)), p.Counts())
            && s'.missing == Grown(s.missing, t.keys, news, p.Counts())
            && s'.replicas == Updated(p.replicas, t.keys, news)
  {
    hide MayMoveTo, Prepare, PrepareAll, Grown, Updated;
    AfterTurns(p, t, news, s, |t.keys|);
    assert t.keys[..|t.keys|] == t.keys && news[..|t.keys|] == news;
    DummyTurn(p, t.keys, news, 2 * |t.keys| - Total(news));
  }

  // ------------------------------------------------------------------ the assertions

  /** No key in transition loses replicas. */
  ghost predicate NoneShrinks(was: Counts, missing: Entries, keys: seq<string>, news: seq<nat>)
    requires |keys| == |news|
  {
    forall i :: 0 <= i < |keys| && keys[i] in missing ==> At(was, keys[i]) <= news[i]
  }

  /** The vectors have the sizes of the counts: the assertion `bit_vec.size() == r`. */
  ghost predicate SizesMatch(missing: Entries, counts: Counts) {
    forall k :: k in missing ==> |missing[k].bits| == At(counts, k)
  }

  /** All assertions of `update_distribution` pass: fewer than 2n' real replicas, no key in transition
      shrinks, and the new keys and the dummy held exactly 2n' labels before. */
  ghost predicate Passes(p: Plan, t: Target, missing: Entries)
    requires MayMoveTo(p, t)
  {
    && Total(News(p, t)) < 2 * |t.keys|
    && NoneShrinks(p.Counts(), missing, t.keys, News(p, t))
    && Along(KeysAndDummy(p, t), p.Counts()) == 2 * |t.keys|
  }

  lemma GrownAtKey(missing: Entries, keys: seq<string>, news: seq<nat>, was: Counts, i: nat)
    requires i < |keys| == |news| && Distinct(keys)
    ensures var g := Grown(missing, keys, news, was);
            if news[i] > At(was, keys[i]) then keys[i] in g && |g[keys[i]].bits| == news[i]
            else (keys[i] in g <==> keys[i] in missing) && (keys[i] in missing ==> g[keys[i]] == missing[keys[i]])
  {
    GrownAt(missing, keys, news, was, i);
  }

  /** The vector of a key of the new distribution fits its new count unless it shrank in transition. */
  lemma SizeAt(missing: Entries, keys: seq<string>, news: seq<nat>, was: Counts, i: nat)
    requires i < |keys| == |news| && Distinct(keys) && SizesMatch(missing, was)
    ensures var g := Grown(missing, keys, news, was);
            keys[i] in g ==>
              (|g[keys[i]].bits| == news[i] <==> (keys[i] in missing ==> At(was, keys[i]) <= news[i]))
    ensures keys[i] in missing ==> keys[i] in Grown(missing, keys, news, was)
  {
    GrownAtKey(missing, keys, news, was, i);
  }

  lemma SizeBeside(missing: Entries, keys: seq<string>, news: seq<nat>, was: Counts, k: string)
    requires |keys| == |news| && SizesMatch(missing, was) && k !in keys && k in Grown(missing, keys, news, was)
    ensures |Grown(missing, keys, news, was)[k].bits| == At(was, k)
  {
    GrownOther(missing, keys, news, was, k);
  }

  /** The assertion `bit_vec.size() == r` passes exactly when no key in transition shrank. */
  lemma SizesExactly(missing: Entries, keys: seq<string>, news: seq<nat>, was: Counts, counts: Counts)
    requires |keys| == |news| && Distinct(keys) && SizesMatch(missing, was)
    requires forall i :: 0 <= i < |keys| ==> At(counts, keys[i]) == news[i]
    requires forall k :: k in missing && k !in keys ==> At(counts, k) == At(was, k)
    ensures SizesMatch(Grown(missing, keys, news, was), counts) <==> NoneShrinks(was, missing, keys, news)
  {
    var grown := Grown(missing, keys, news, was);
    GrownDomain(missing, keys, news, was);
    if NoneShrinks(was, missing, keys, news) {
      forall k | k in grown
        ensures |grown[k].bits| == At(counts, k)
      {
        if k in keys {
          var i :| 0 <= i < |keys| && keys[i] == k;
          SizeAt(missing, keys, news, was, i);
        } else {
          SizeBeside(missing, keys, news, was, k);
        }
      }
    }
    if SizesMatch(grown, counts) {
      forall i | 0 <= i < |keys| && keys[i] in missing
        ensures At(was, keys[i]) <= news[i]
      {
        SizeAt(missing, keys, news, was, i);
      }
    }
  }

  /** The vectors of missing replicas have the sizes of the counts; the dummy has none. */
  ghost predicate Matching(p: Plan, missing: Entries) {
    SizesMatch(missing, p.replicas) && p.dummyKey !in missing
  }

  lemma TransitionMatches(p: Plan, missing: Entries)
    requires p.Transition(missing)
    ensures Matching(p, missing)
  {
  }

  /** The sizes of the prepared state. */
  lemma PreparedSizes(p: Plan, t: Target, missing: Entries)
    requires MayMoveTo(p, t) && Matching(p, missing)
    ensures SizesMatch(Grown(missing, t.keys, News(p, t), p.Counts()), Updated(p.replicas, t.keys, News(p, t)))
            <==> NoneShrinks(p.Counts(), missing, t.keys, News(p, t))
  {
    hide Apart, Bijection;
    UpdatedAt(p.replicas, t.keys, News(p, t));
    assert forall i :: 0 <= i < |t.keys| ==> t.keys[i] in t.keys;
    SizesExactly(missing, t.keys, News(p, t), p.Counts(), Updated(p.replicas, t.keys, News(p, t)));
  }

  /** The assertion `needs_labels.size() == unassigned_labels.size()` passes exactly when the new keys and
      the dummy held 2n' labels before. */
  lemma SwapExactly(p: Plan, t: Target, news: seq<nat>)
    requires MayMoveTo(p, t) && |news| == |t.keys| && Total(news) < 2 * |t.keys|
    ensures var sw := PrepareAll(Swap(p.labels, [], []), KeysAndDummy(p, t),
                                 WithDummy(news, 2 * |t.keys| - Total(news)), p.Counts());
            Surplus(sw) == 0 <==> Along(KeysAndDummy(p, t), p.Counts()) == 2 * |t.keys|
  {
    AllKeys(p, t);
    PrepareAllBalances(p.labels, KeysAndDummy(p, t), WithDummy(news, 2 * |t.keys| - Total(news)), p.Counts(),
                       2 * p.size);
    TotalSnoc(news, 2 * |t.keys| - Total(news));
  }

  /** The two later assertions pass exactly under the conditions of `Passes`. */
  lemma AssertionsExactly(p: Plan, t: Target, s: Moves)
    requires MayMoveTo(p, t) && Matching(p, s.missing) && Total(News(p, t)) < 2 * |t.keys|
    requires s.sw == Swap(p.labels, [], []) && s.replicas == p.replicas
    ensures var s' := Prepared(p, t, News(p, t), s);
            SizesMatch(s'.missing, s'.replicas) && Surplus(s'.sw) == 0 <==> Passes(p, t, s.missing)
  {
    hide Updated, Bijection, Apart, PrepareAll, Grown, Prepared, Matching;
    PreparedIs(p, t, News(p, t), s);
    PreparedSizes(p, t, s.missing);
    SwapExactly(p, t, News(p, t));
  }

  // ------------------------------------------------------------------ the directory afterwards

  /** All counts afterwards; a key that vanished from the distribution keeps its replicas. */
  function Goal(p: Plan, t: Target, news: seq<nat>): Counts
    requires |news| == |t.keys| && Total(news) < 2 * |t.keys|
  {
    Updated(p.replicas, t.keys, news)[p.dummyKey := 2 * |t.keys| - Total(news)]
  }

  function Filed(sw: Swap): map<string, nat>
    requires |sw.needs| == |sw.free|
  {
    Assign(sw.labels, sw.free, sw.needs, |sw.needs|)
  }

  /** If the lists match, the directory is a bijection from the new replicas, the dummies, and whatever
      vanished keys still hold, onto the same labels as before, exactly if no two of these replicas share
      a name; survivors then keep theirs. */
  lemma FiledAgain(p: Plan, t: Target, news: seq<nat>, s: Moves)
    requires MayMoveTo(p, t) && |news| == |t.keys| && Total(news) < 2 * |t.keys|
    requires s.sw == Swap(p.labels, [], []) && s.replicas == p.replicas
    requires Surplus(Prepared(p, t, news, s).sw) == 0
    ensures Bijection(Filed(Prepared(p, t, news, s).sw), Goal(p, t, news), 2 * p.size) <==> Apart(Goal(p, t, news))
    ensures Apart(Goal(p, t, news)) ==>
              SurvivorsStay(p.labels, p.Counts(), Filed(Prepared(p, t, news, s).sw), Goal(p, t, news))
  {
    hide Bijection, Apart, Prepared, PrepareAll, Updated, Goal, SurvivorsStay;
    PreparedIs(p, t, news, s);
    AllKeys(p, t);
    GoalIs(p, t, news);
    FiledIsRedistributed(p.labels, KeysAndDummy(p, t), WithDummy(news, 2 * |t.keys| - Total(news)), p.Counts());
    RedistributedKeepsLabels(p.labels, KeysAndDummy(p, t), WithDummy(news, 2 * |t.keys| - Total(news)), p.Counts(),
                             2 * p.size);
  }

  lemma FiledIsRedistributed(labels: map<string, nat>, keys: seq<string>, news: seq<nat>, was: Counts)
    requires |keys| == |news| && Surplus(PrepareAll(Swap(labels, [], []), keys, news, was)) == 0
    ensures Filed(PrepareAll(Swap(labels, [], []), keys, news, was)) == Redistributed(labels, keys, news, was)
  {
  }

  lemma GoalIs(p: Plan, t: Target, news: seq<nat>)
    requires MayMoveTo(p, t) && |news| == |t.keys| && Total(news) < 2 * |t.keys|
    ensures Goal(p, t, news) == Updated(p.Counts(), KeysAndDummy(p, t), WithDummy(news, 2 * |t.keys| - Total(news)))
  {
    hide Updated;
    DummyTurn(p, t.keys, news, 2 * |t.keys| - Total(news));
    UpdatedBeside(p.replicas, t.keys, news, p.dummyKey, p.dummies);
  }

  // ------------------------------------------------------------------ the same keys

  /** The counts of some keys and a dummy, summed in any order of the keys. */
  lemma TotalWithDummy(counts: Counts, dummyKey: string, dummies: nat, keys: seq<string>, news: seq<nat>,
                       newKeys: seq<string>)
    requires |keys| == |news| && Gives(counts, keys, news) && dummyKey !in keys
    requires Distinct(keys) && Distinct(newKeys) && SameKeys(keys, newKeys)
    ensures Along(newKeys + [dummyKey], counts[dummyKey := dummies]) == Total(news) + dummies
  {
    var all := counts[dummyKey := dummies];
    forall i | 0 <= i < |keys|
      ensures At(all, keys[i]) == news[i]
    {
      assert keys[i] in keys;
    }
    AlongGives(keys, news, all);
    AlongAnyOrder(keys, newKeys, all);
    AlongSnoc(newKeys, dummyKey, all);
  }

  lemma SameKeysSameNumber(a: seq<string>, b: seq<string>)
    requires Distinct(a) && Distinct(b) && SameKeys(a, b)
    ensures |a| == |b| && Elems(a) == Elems(b)
  {
    DistinctCount(a);
    DistinctCount(b);
    assert Elems(a) == Elems(b);
  }

  /** For an unchanged key set the first and the last assertion always pass. */
  lemma SameKeysPass(p: Plan, t: Target, missing: Entries)
    requires p.Smooth() && MayMoveTo(p, t) && SameKeys(p.keys, t.keys)
    ensures |t.keys| == p.size && Fitting(t.keys, t.probs, p.alpha, p.dummyKey, p.size)
    ensures Total(News(p, t)) < 2 * |t.keys| && 2 * |t.keys| - Total(News(p, t)) == DummyCount(t.probs, p.alpha)
    ensures Passes(p, t, missing) <==> NoneShrinks(p.Counts(), missing, t.keys, News(p, t))
  {
    SameKeysSameNumber(p.keys, t.keys);
    BudgetOf(t.probs, p.size, p.alpha);
    BudgetOf(p.probs, p.size, p.alpha);
    TotalWithDummy(p.replicas, p.dummyKey, p.dummies, p.keys, NatCounts(p.probs, p.alpha), t.keys);
  }

  /** There are never more keys than the labels were made for: if the last assertion passes there are at
      most n of them, also after other key sets, and from the original n keys n only if they are the same. */
  lemma NoKeyIsAdded(p: Plan, t: Target)
    requires MayMoveTo(p, t) && Along(KeysAndDummy(p, t), p.Counts()) == 2 * |t.keys|
    ensures |t.keys| <= p.size
    ensures p.Smooth() && |t.keys| == p.size ==> SameKeys(p.keys, t.keys)
  {
    hide Bijection, Apart, Plan.Smooth, Distinct, Along;
    AllKeys(p, t);
    var everything := Enumerated(Elems(KeysAndDummy(p, t)) + p.Counts().Keys);
    FiledExactly(p.labels, p.Counts(), 2 * p.size, everything);
    SomeOf(KeysAndDummy(p, t), everything, p.Counts());
    if p.Smooth() && |t.keys| == p.size {
      NoneIsReplaced(p, t);
    }
  }

  /** Some of the keys hold no more labels than all. */
  lemma SomeOf(some: seq<string>, keys: seq<string>, counts: Counts)
    requires Distinct(some) && Distinct(keys) && forall k :: k in keys <==> k in Elems(some) + counts.Keys
    ensures Along(some, counts) <= Along(keys, counts)
  {
    AlongPart(some, keys, counts);
  }

  lemma NoneIsReplaced(p: Plan, t: Target)
    requires p.Smooth() && MayMoveTo(p, t)
    requires Along(KeysAndDummy(p, t), p.Counts()) == 2 * |t.keys| && |t.keys| == p.size
    ensures SameKeys(p.keys, t.keys)
  {
    hide Bijection;
    AllKeys(p, t);
    AllLabels(p);
    AlongPart(KeysAndDummy(p, t), p.keys + [p.dummyKey], p.Counts());
    forall k | k in p.keys
      ensures k in t.keys
    {
      assert k in p.keys + [p.dummyKey] && At(p.Counts(), k) > 0;
    }
    AsManyKeys(p.keys, t.keys);
  }

  lemma AsManyKeys(a: seq<string>, b: seq<string>)
    requires Distinct(a) && Distinct(b) && |a| == |b| && forall k :: k in a ==> k in b
    ensures SameKeys(a, b)
  {
    DistinctCount(a);
    DistinctCount(b);
    SubsetOfSameSize(Elems(a), Elems(b));
    forall k
      ensures k in a <==> k in b
    {
      assert k in b <==> k in Elems(b);
      assert k in a <==> k in Elems(a);
    }
  }

  lemma SubsetOfSameSize(a: set<string>, b: set<string>)
    requires a <= b && |a| == |b|
    ensures a == b
  {
    assert b == a + (b - a) && |b| == |a| + |b - a|;
  }

  lemma SameKeysGive(p: Plan, t: Target)
    requires p.Smooth() && MayMoveTo(p, t) && SameKeys(p.keys, t.keys)
    ensures Gives(Updated(p.replicas, t.keys, News(p, t)), t.keys, News(p, t))
  {
    SameKeysSameNumber(p.keys, t.keys);
    UpdatedAt(p.replicas, t.keys, News(p, t));
    assert forall i :: 0 <= i < |t.keys| ==> t.keys[i] in t.keys;
  }

  // ------------------------------------------------------------------ p_max and keys in transition

  /** `recompute_fake_distribution`: p_max is 1/n or the largest new probability of a key in
      transition, whichever is larger. */
  ghost predicate IsPMax(pMax: real, n: nat, missing: Entries, freq: map<string, real>)
    requires n > 0
  {
    && pMax >= MainAlpha(n)
    && (forall k :: k in missing ==> FrequencyOf(freq, k) <= pMax)
    && (pMax == MainAlpha(n) || exists k :: k in missing && pMax == FrequencyOf(freq, k))
  }

  lemma PMaxIsEnough(pMax: real, n: nat, missing: Entries, freq: map<string, real>)
    requires n > 0 && IsPMax(pMax, n, missing, freq)
    ensures Enough(pMax, n)
    ensures forall alpha :: IsAlpha(alpha, n) ==> pMax >= alpha
  {
    MainParameters(n);
    assert IsAlpha(MainAlpha(n), n);
    AlphaIsEnough(MainAlpha(n), n);
    LargerIsEnough(MainAlpha(n), pMax, n);
    forall alpha | IsAlpha(alpha, n)
      ensures pMax >= alpha
    {
      SameInverse(alpha, MainAlpha(n), n as real);
    }
  }

  lemma SameInverse(a: real, b: real, n: real)
    requires n > 0.0 && a * n == 1.0 && b * n == 1.0
    ensures a == b
  {
    assert (a - b) * n == 0.0;
  }

  /** A key in transition after the change: it grew, or was in transition before. */
  lemma GrownEntry(missing: Entries, keys: seq<string>, news: seq<nat>, was: Counts, k: string) returns (i: nat)
    requires |keys| == |news| && Distinct(keys) && SizesMatch(missing, was) && forall k :: k in missing ==> k in keys
    requires NoneShrinks(was, missing, keys, news) && k in Grown(missing, keys, news, was)
    ensures i < |keys| && keys[i] == k && |Grown(missing, keys, news, was)[k].bits| == news[i]
    ensures news[i] >= At(was, k) && (news[i] > At(was, k) || k in missing)
  {
    GrownDomain(missing, keys, news, was);
    i :| 0 <= i < |keys| && keys[i] == k;
    GrownAtKey(missing, keys, news, was, i);
  }

  lemma OneReplicaAtLeast(p: Plan, keys: seq<string>, i: nat)
    requires p.Smooth() && SameKeys(p.keys, keys) && i < |keys|
    ensures At(p.Counts(), keys[i]) >= 1 && keys[i] != p.dummyKey
  {
    assert keys[i] in p.keys;
    var j :| 0 <= j < |p.keys| && p.keys[j] == keys[i];
    assert NatCounts(p.probs, p.alpha)[j] >= 1;
  }

  lemma TransitionSized(p: Plan, missing: Entries, keys: seq<string>)
    requires p.Smooth() && p.Transition(missing) && SameKeys(p.keys, keys)
    ensures SizesMatch(missing, p.Counts()) && forall k :: k in missing ==> k in keys
  {
  }

  /** q is what the redistribution makes of p. */
  ghost predicate Follows(p: Plan, q: Plan) {
    && q.alpha == p.alpha && q.dummyKey == p.dummyKey && q.size == p.size
    && q.Sensible() && SameKeys(p.keys, q.keys)
    && Gives(q.replicas, q.keys, NatCounts(q.probs, q.alpha)) && q.dummies == DummyCount(q.probs, q.alpha)
    && q.FrequencyIsProbs() && Enough(q.pMax, q.size)
    && q.labels == Redistributed(p.labels, q.keys + [q.dummyKey], WithDummy(NatCounts(q.probs, q.alpha), q.dummies),
                                 p.Counts())
  }

  /** After a redistribution in which no key in transition shrank, every key in transition again
      has a vector of its size. */
  lemma GrownTransition(p: Plan, q: Plan, missing: Entries)
    requires p.Smooth() && p.Transition(missing) && Follows(p, q)
    requires NoneShrinks(p.Counts(), missing, q.keys, NatCounts(q.probs, q.alpha))
    requires IsPMax(q.pMax, q.size, Grown(missing, q.keys, NatCounts(q.probs, q.alpha), p.Counts()), q.frequency)
    ensures q.Transition(Grown(missing, q.keys, NatCounts(q.probs, q.alpha), p.Counts()))
  {
    hide Bijection, Apart;
    var grown := Grown(missing, q.keys, NatCounts(q.probs, q.alpha), p.Counts());
    GrownStepped(missing, q.keys, NatCounts(q.probs, q.alpha), p.Counts());
    forall k | k in grown
      ensures InTransitionOf(q, grown, k)
    {
      GrownKeyFits(p, q, missing, k);
    }
    TransitionOf(q, grown);
  }

  /** One key in transition. */
  ghost predicate InTransitionOf(q: Plan, missing: Entries, k: string)
    requires k in missing
  {
    && k in q.replicas && k != q.dummyKey && q.replicas[k] >= 2 && |missing[k].bits| == q.replicas[k]
    && k in q.frequency && q.frequency[k] <= q.pMax
  }

  lemma TransitionOf(q: Plan, missing: Entries)
    requires AllStepped(missing) && forall k :: k in missing ==> InTransitionOf(q, missing, k)
    ensures q.Transition(missing)
  {
    forall k | k in missing
      ensures k in q.replicas && k != q.dummyKey && q.replicas[k] >= 2 && |missing[k].bits| == q.replicas[k]
              && k in q.frequency && q.frequency[k] <= q.pMax
    {
      assert InTransitionOf(q, missing, k);
    }
  }

  lemma GrownKeyFits(p: Plan, q: Plan, missing: Entries, k: string)
    requires p.Smooth() && p.Transition(missing) && Follows(p, q)
    requires NoneShrinks(p.Counts(), missing, q.keys, NatCounts(q.probs, q.alpha))
    requires IsPMax(q.pMax, q.size, Grown(missing, q.keys, NatCounts(q.probs, q.alpha), p.Counts()), q.frequency)
    requires k in Grown(missing, q.keys, NatCounts(q.probs, q.alpha), p.Counts())
    ensures InTransitionOf(q, Grown(missing, q.keys, NatCounts(q.probs, q.alpha), p.Counts()), k)
  {
    hide Bijection, Apart;
    TransitionSized(p, missing, q.keys);
    var i := GrownEntry(missing, q.keys, NatCounts(q.probs, q.alpha), p.Counts(), k);
    OneReplicaAtLeast(p, q.keys, i);
  }

  // ------------------------------------------------------------------ the plan afterwards

  lemma FollowedTarget(p: Plan, q: Plan)
    requires p.Smooth() && Follows(p, q)
    ensures MayMoveTo(p, Target(q.keys, q.probs)) && News(p, Target(q.keys, q.probs)) == NatCounts(q.probs, q.alpha)
  {
    hide PrepareAll, Bijection, Apart;
    CountsApart(p);
    SameKeysSameNumber(p.keys, q.keys);
  }

  /** One redistribution over the same keys takes a smooth plan to a smooth plan - the directory stays a
      bijection onto the same 2n labels - exactly if no two of the new replicas share a name; then replicas
      that survive keep their labels. */
  lemma RedistributedPlan(p: Plan, q: Plan)
    requires p.Smooth() && Follows(p, q)
    ensures q.Smooth() <==> Apart(q.Counts())
    ensures Apart(q.Counts()) ==> SurvivorsStay(p.labels, p.Counts(), q.labels, q.Counts())
  {
    hide Bijection, SurvivorsStay, Apart;
    if Apart(q.Counts()) {
      ApartFollows(p, q);
    }
    if q.Smooth() {
      CountsApart(q);
    }
  }

  lemma ApartFollows(p: Plan, q: Plan)
    requires p.Smooth() && Follows(p, q) && Apart(q.Counts())
    ensures q.Smooth() && SurvivorsStay(p.labels, p.Counts(), q.labels, q.Counts())
  {
    hide Bijection, SurvivorsStay, Apart;
    var t := Target(q.keys, q.probs);
    FollowedTarget(p, q);
    SameKeysPass(p, t, map[]);
    AssertionsWithoutMissing(p, t);
    FiledAgain(p, t, News(p, t), Begin(p, map[], map[]));
    FollowsGoal(p, q);
    FollowsFiled(p, q);
  }

  lemma FollowsGoal(p: Plan, q: Plan)
    requires p.Smooth() && Follows(p, q) && Total(NatCounts(q.probs, q.alpha)) < 2 * |q.keys|
    ensures 2 * |q.keys| - Total(NatCounts(q.probs, q.alpha)) == q.dummies
    ensures Goal(p, Target(q.keys, q.probs), NatCounts(q.probs, q.alpha)) == q.Counts()
  {
    hide Bijection, Apart;
    FollowedTarget(p, q);
    SameKeysGive(p, Target(q.keys, q.probs));
    SameCounts(q.replicas, Updated(p.replicas, q.keys, NatCounts(q.probs, q.alpha)), q.keys,
               NatCounts(q.probs, q.alpha));
  }

  lemma FollowsFiled(p: Plan, q: Plan)
    requires p.Smooth() && Follows(p, q) && Total(NatCounts(q.probs, q.alpha)) < 2 * |q.keys|
    requires MayMoveTo(p, Target(q.keys, q.probs))
    requires Surplus(Prepared(p, Target(q.keys, q.probs), NatCounts(q.probs, q.alpha), Begin(p, map[], map[])).sw) == 0
    ensures q.labels == Filed(Prepared(p, Target(q.keys, q.probs), NatCounts(q.probs, q.alpha),
                                       Begin(p, map[], map[])).sw)
  {
    hide Bijection, Apart, Prepared, PrepareAll, Filed, MayMoveTo, Updated, Grown, Plan.Smooth, Redistributed;
    PreparedIs(p, Target(q.keys, q.probs), NatCounts(q.probs, q.alpha), Begin(p, map[], map[]));
    FollowsGoal(p, q);
    FiledIsRedistributed(p.labels, q.keys + [q.dummyKey], WithDummy(NatCounts(q.probs, q.alpha), q.dummies),
                         p.Counts());
  }

  lemma AssertionsWithoutMissing(p: Plan, t: Target)
    requires MayMoveTo(p, t) && Passes(p, t, map[])
    ensures Surplus(Prepared(p, t, News(p, t), Begin(p, map[], map[])).sw) == 0
  {
    hide Bijection, Apart, PrepareAll, Grown, Updated, Prepared, NoneShrinks;
    PreparedIs(p, t, News(p, t), Begin(p, map[], map[]));
    SwapExactly(p, t, News(p, t));
  }

  lemma SameCounts(a: Counts, b: Counts, keys: seq<string>, news: seq<nat>)
    requires |keys| == |news| && Gives(a, keys, news) && Gives(b, keys, news) && Distinct(keys)
    ensures a == b
  {
    GivesIsCountsOf(a, keys, news);
    GivesIsCountsOf(b, keys, news);
  }

  /** After any number of redistributions the directory is a bijection from the replicas, dummies
      included, onto the same 2n labels: none is lost, duplicated or invented. */
  lemma {:induction false} EveryPlanIsSmooth(plans: seq<Plan>, i: nat)
    requires i < |plans| && plans[0].Smooth()
    requires forall j :: 0 <= j < |plans| - 1 ==> Follows(plans[j], plans[j + 1])
    requires forall j :: 0 < j <= i ==> Apart(plans[j].Counts())
    ensures plans[i].Smooth() && plans[i].size == plans[0].size
    ensures Bijection(plans[i].labels, plans[i].Counts(), 2 * plans[0].size)
  {
    if i > 0 {
      EveryPlanIsSmooth(plans, i - 1);
      assert Follows(plans[i - 1], plans[i]);
      RedistributedPlan(plans[i - 1], plans[i]);
    }
  }

  /** Replica j of the dummy is filed, under a name that no key's replica has. */
  ghost predicate OwnDummyLabel(p: Plan, j: nat) {
    && Name(p.dummyKey, j) in p.labels
    && forall k, i: nat :: k in p.replicas && k != p.dummyKey && i < p.replicas[k] ==> Name(k, i) != Name(p.dummyKey, j)
  }

  /** `execute_batch` draws dummies with the count of creation, which is never updated.  All those draws
      find a dummy's label exactly if the dummies have not become fewer. */
  lemma StaleDummyCount(p: Plan, created: nat)
    requires p.Smooth()
    ensures (forall j: nat :: j < created ==> OwnDummyLabel(p, j)) <==> created <= p.dummies
  {
    hide Apart;
    CountsApart(p);
    forall j: nat
      ensures OwnDummyLabel(p, j) <==> j < p.dummies
    {
      DummyLabel(p, j);
    }
    if created > p.dummies {
      assert !OwnDummyLabel(p, p.dummies);
    }
  }

  lemma DummyLabel(p: Plan, j: nat)
    requires p.Smooth() && Apart(p.Counts())
    ensures OwnDummyLabel(p, j) <==> j < p.dummies
  {
    hide Apart, Partition;
    var counts := p.Counts();
    if j < p.dummies {
      assert p.dummyKey in counts.Keys;
      assert Name(p.dummyKey, j) in Names(counts);
      forall k, i: nat | k in p.replicas && k != p.dummyKey && i < p.replicas[k]
        ensures Name(k, i) != Name(p.dummyKey, j)
      {
        if Name(k, i) == Name(p.dummyKey, j) {
          ApartNames(counts, k, i, p.dummyKey, j);
        }
      }
    } else if OwnDummyLabel(p, j) {
      assert Name(p.dummyKey, j) in Names(counts);
      var k, i: nat :| k in counts.Keys && 0 <= i < counts[k] && Name(p.dummyKey, j) == Name(k, i);
      if k == p.dummyKey {
        SameKeyName(k, i, j);
      }
      assert false;
    }
  }

  /** The same labels under other names: every replica of the new directory is stored. */
  lemma StoredUnderNewNames(e: Epoch, e': Epoch, stored: map<string, string>)
    requires Playable(e, World(map[], map[], stored), []) && e'.Valid() && e'.size == e.size
    ensures Playable(e', World(map[], map[], stored), [])
  {
    forall k, j: nat | k in e'.counts && j < e'.counts[k]
      ensures AddrStored(e', stored, k, j)
    {
      AddrDefined(e', k, j);
      var l := e'.labels[Name(k, j)];
      assert l in e.labels.Values;
      var s :| s in e.labels && e.labels[s] == l;
      var k', j': nat :| k' in e.counts.Keys && 0 <= j' < e.counts[k'] && s == Name(k', j');
      assert AddrStored(e, stored, k', j');
    }
  }

  /** The plan that takes effect when the requests have been served. */
  function NextPlan(p: Plan, t: Target, s: Moves, pMax: real): Plan
    requires |s.sw.needs| == |s.sw.free| && |t.keys| == |t.probs|
    requires p.alpha > 0.0 && (forall i :: 0 <= i < |t.probs| ==> t.probs[i] > 0.0) && Total(News(p, t)) < 2 * |t.keys|
  {
    Plan(t.keys, t.probs, s.freq, s.replicas, 2 * |t.keys| - Total(News(p, t)), Filed(s.sw), pMax, p.alpha, p.dummyKey,
         p.size)
  }

  /** What is prepared for an unchanged key set. */
  ghost predicate IsPrepared(p: Plan, t: Target, missing: Entries, s: Moves)
    requires MayMoveTo(p, t) && Total(News(p, t)) < 2 * |t.keys|
  {
    && s.sw == PrepareAll(Swap(p.labels, [], []), KeysAndDummy(p, t),
                          WithDummy(News(p, t), 2 * |t.keys| - Total(News(p, t))), p.Counts())
    && s.missing == Grown(missing, t.keys, News(p, t), p.Counts())
    && s.replicas == Updated(p.replicas, t.keys, News(p, t))
    && HasFrequencies(t, s.freq)
  }

  ghost predicate HasFrequencies(t: Target, freq: map<string, real>) {
    freq.Keys == Elems(t.keys) && HasProbs(t, freq)
  }

  ghost predicate HasProbs(t: Target, freq: map<string, real>) {
    |t.keys| == |t.probs| && forall i :: 0 <= i < |t.keys| ==> t.keys[i] in freq && freq[t.keys[i]] == t.probs[i]
  }

  lemma LoopPrepares(p: Plan, t: Target, s: Moves)
    requires p.Smooth() && MayMoveTo(p, t) && SameKeys(p.keys, t.keys) && Total(News(p, t)) < 2 * |t.keys|
    requires s.sw == Swap(p.labels, [], []) && s.replicas == p.replicas && s.freq.Keys <= Elems(p.keys)
    ensures IsPrepared(p, t, s.missing, Prepared(p, t, News(p, t), s))
  {
    hide Bijection, Apart, PrepareAll, Grown, Updated, Prepared, Gives;
    PreparedIs(p, t, News(p, t), s);
    SameKeysSameNumber(p.keys, t.keys);
    NextFrequencies(p, t, s);
  }

  /** `operator[]` of `recompute_fake_distribution` gives every key in transition an entry. */
  function LookedUp(freq: map<string, real>, missing: Entries): map<string, real> {
    map k | k in freq.Keys + missing.Keys :: FrequencyOf(freq, k)
  }

  /** q has the counts and the directory that p gets from a redistribution which passes its assertions on
      counts and lists, for any new key set. */
  ghost predicate MovesTo(p: Plan, t: Target, q: Plan) {
    && p.alpha > 0.0 && IsTarget(t, p.dummyKey)
    && Total(News(p, t)) < 2 * |t.keys| && Along(KeysAndDummy(p, t), p.Counts()) == 2 * |t.keys|
    && q.alpha == p.alpha && q.dummyKey == p.dummyKey && q.size == p.size && q.keys == t.keys && q.probs == t.probs
    && q.replicas == Updated(p.replicas, t.keys, News(p, t)) && q.dummies == 2 * |t.keys| - Total(News(p, t))
    && q.labels == Redistributed(p.labels, t.keys + [p.dummyKey], News(p, t) + [q.dummies], p.Counts())
  }

  /** And its frequencies, p_max and keys in transition. */
  ghost predicate Moved(p: Plan, t: Target, missing: Entries, q: Plan, missing': Entries) {
    && MovesTo(p, t, q) && missing' == Grown(missing, t.keys, News(p, t), p.Counts())
    && HasProbs(t, q.frequency) && IsPMax(q.pMax, |t.keys|, missing', q.frequency)
  }

  /** `new_key_to_frequency_` afterwards: an entry for each key that had one, is new, or is in transition; of keys
      that are not in the new distribution the entries have stayed, or are 0. */
  ghost predicate FrequenciesLeft(was: map<string, real>, t: Target, missing': Entries, freq: map<string, real>) {
    && (forall k :: k in freq <==> k in was || k in t.keys || k in missing')
    && forall k :: k in freq && k !in t.keys ==> freq[k] == if k in was then was[k] else 0.0
  }

  lemma LeftFrequencies(p: Plan, t: Target, s: Moves, s': Moves)
    requires MayMoveTo(p, t) && Total(News(p, t)) < 2 * |t.keys|
    requires var m := Prepared(p, t, News(p, t), s); s' == m.(freq := LookedUp(m.freq, m.missing))
    ensures FrequenciesLeft(s.freq, t, s'.missing, s'.freq)
  {
    hide MoveFirst, Bijection, Apart;
    FrequenciesAfterTurns(s, t, News(p, t), p.dummyKey, |t.keys|);
    OthersAfterTurns(s, t, News(p, t), p.dummyKey, |t.keys|);
    assert t.keys[..|t.keys|] == t.keys;
  }

  lemma {:induction false} OthersAfterTurns(s: Moves, t: Target, news: seq<nat>, dummyKey: string, m: nat)
    requires m <= |t.keys| == |t.probs| == |news|
    ensures forall k :: k in s.freq && k !in t.keys ==>
              k in MoveFirst(s, t, news, dummyKey, m).freq && MoveFirst(s, t, news, dummyKey, m).freq[k] == s.freq[k]
  {
    if m > 0 {
      OthersAfterTurns(s, t, news, dummyKey, m - 1);
      assert t.keys[m - 1] in t.keys;
    }
  }

  /** Whatever the new keys: the directory is in order again exactly if no two replicas share a name, those of
      vanished keys included; replicas that survive keep their labels. */
  lemma MoveKeepsLabels(p: Plan, t: Target, q: Plan)
    requires p.AllFiled() && MovesTo(p, t, q)
    ensures q.AllFiled() <==> Apart(q.Counts())
    ensures Apart(q.Counts()) ==> SurvivorsStay(p.labels, p.Counts(), q.labels, q.Counts())
  {
    hide Bijection, Apart, PrepareAll, Updated, Redistributed, SurvivorsStay;
    AllKeys(p, t);
    SwapExactly(p, t, News(p, t));
    GoalIs(p, t, News(p, t));
    RedistributedKeepsLabels(p.labels, KeysAndDummy(p, t), WithDummy(News(p, t), q.dummies), p.Counts(), 2 * p.size);
  }

  /** A replica that is new gets the label of the replica that was given up as many places from the start as it was
      asked for: keys in the order of the new distribution, the dummy last. */
  lemma MovedInOrder(p: Plan, t: Target, q: Plan, m: nat, i: nat, m': nat, i': nat)
    requires p.AllFiled() && MovesTo(p, t, q) && Apart(q.Counts()) && p.alpha > 0.0 && IsTarget(t, p.dummyKey)
    requires var (keys, news) := (t.keys + [p.dummyKey], News(p, t) + [q.dummies]);
             && m < |keys| && At(p.Counts(), keys[m]) <= i < news[m]
             && m' < |keys| && news[m'] <= i' < At(p.Counts(), keys[m'])
             && AskedFor(keys, news, p.Counts(), m) + (i - At(p.Counts(), keys[m]))
                == GivenUp(keys, news, p.Counts(), m') + (i' - news[m'])
    ensures var keys := t.keys + [p.dummyKey];
            && Name(keys[m], i) in q.labels && Name(keys[m'], i') in p.labels
            && q.labels[Name(keys[m], i)] == p.labels[Name(keys[m'], i')]
  {
    hide Bijection, Apart, PrepareAll, Updated, Redistributed, AskedFor, GivenUp, MovesTo, Plan.AllFiled, Distinct;
    hide Surplus;
    MovedLists(p, t, q);
    FiledInOrder(p.labels, t.keys + [p.dummyKey], News(p, t) + [q.dummies], p.Counts(), 2 * p.size, m, i, m', i');
  }

  lemma MovedLists(p: Plan, t: Target, q: Plan)
    requires p.AllFiled() && MovesTo(p, t, q) && Apart(q.Counts())
    ensures var (keys, news, was) := (t.keys + [p.dummyKey], News(p, t) + [q.dummies], p.Counts());
            && |keys| == |news| && Distinct(keys) && Apart(was) && Apart(Updated(was, keys, news))
            && Bijection(p.labels, was, 2 * p.size) && q.labels == Redistributed(p.labels, keys, news, was)
            && Surplus(PrepareAll(Swap(p.labels, [], []), keys, news, was)) == 0
  {
    hide Bijection, Apart, PrepareAll, Updated, Redistributed;
    AllKeys(p, t);
    SwapExactly(p, t, News(p, t));
    GoalIs(p, t, News(p, t));
  }

  lemma MovedIsReady(p: Plan, t: Target, missing: Entries, q: Plan, missing': Entries)
    requires p.AllFiled() && Moved(p, t, missing, q, missing') && SizesMatch(missing', q.replicas)
             && p.dummyKey !in missing
    ensures q.AllFiled() && Matching(q, missing') <==> Apart(q.Counts())
    ensures Apart(q.Counts()) ==> SurvivorsStay(p.labels, p.Counts(), q.labels, q.Counts())
  {
    hide Apart, Bijection, Updated, Redistributed, SurvivorsStay, SizesMatch, Total, Along;
    MoveKeepsLabels(p, t, q);
    GrownDomain(missing, t.keys, News(p, t), p.Counts());
  }

  /** Over any number of redistributions, to whatever key sets, as long as no two replicas share a name:
      the directory files the same labels, each once, and a replica that exists all the time keeps its
      label. */
  lemma {:induction false} EveryMoveKeepsLabels(plans: seq<Plan>, targets: seq<Target>, i: nat, k: string, r: nat)
    requires i < |plans| <= |targets| + 1 && plans[0].AllFiled()
    requires forall j :: 0 <= j < i ==> MovesTo(plans[j], targets[j], plans[j + 1])
    requires forall j :: 0 < j <= i ==> Apart(plans[j].Counts())
    ensures plans[i].AllFiled() && plans[i].size == plans[0].size
    ensures AlwaysThere(plans, i, k, r) ==> Stays(plans[0].labels, plans[i].labels, k, r)
  {
    hide Apart, Bijection, MovesTo, SurvivorsStay, Exists;
    if i == 0 {
      if AlwaysThere(plans, i, k, r) {
        IsFiled(plans[0], k, r);
      }
    } else {
      EveryMoveKeepsLabels(plans, targets, i - 1, k, r);
      assert MovesTo(plans[i - 1], targets[i - 1], plans[i]);
      MoveKeepsLabels(plans[i - 1], targets[i - 1], plans[i]);
      SameSize(plans[i - 1], targets[i - 1], plans[i]);
      if AlwaysThere(plans, i, k, r) {
        StaysOnce(plans[i - 1], plans[i], k, r);
      }
    }
  }

  /** The replica exists in the plans up to the i-th. */
  ghost predicate AlwaysThere(plans: seq<Plan>, i: nat, k: string, r: nat)
    requires i < |plans|
  {
    forall j :: 0 <= j <= i ==> Exists(plans[j], k, r)
  }

  ghost predicate Exists(p: Plan, k: string, r: nat) {
    r < At(p.Counts(), k)
  }

  lemma StaysOnce(p: Plan, q: Plan, k: string, r: nat)
    requires SurvivorsStay(p.labels, p.Counts(), q.labels, q.Counts()) && Exists(p, k, r) && Exists(q, k, r)
    ensures Stays(p.labels, q.labels, k, r)
  {
  }

  lemma SameSize(p: Plan, t: Target, q: Plan)
    requires MovesTo(p, t, q)
    ensures q.size == p.size
  {
  }

  lemma IsFiled(p: Plan, k: string, r: nat)
    requires p.AllFiled() && Exists(p, k, r)
    ensures Stays(p.labels, p.labels, k, r)
  {
    hide Apart;
    assert k in p.Counts().Keys;
    assert Name(k, r) in Names(p.Counts());
  }

  lemma Finished(p: Plan, t: Target, s: Moves, s': Moves, pMax: real)
    requires MayMoveTo(p, t)
    requires Total(News(p, t)) < 2 * |t.keys| && Along(KeysAndDummy(p, t), p.Counts()) == 2 * |t.keys|
    requires s.sw == Swap(p.labels, [], []) && s.replicas == p.replicas
    requires var m := Prepared(p, t, News(p, t), s); s' == m.(freq := LookedUp(m.freq, m.missing))
    requires Surplus(s'.sw) == 0 && IsPMax(pMax, |t.keys|, s'.missing, s'.freq)
    ensures Moved(p, t, s.missing, NextPlan(p, t, s', pMax), s'.missing)
  {
    hide Bijection, Apart, Prepared, PrepareAll, Grown, Updated, Filed, Redistributed, HasProbs, LookedUp, IsPMax;
    PreparedIs(p, t, News(p, t), s);
    FiledIsRedistributed(p.labels, KeysAndDummy(p, t), WithDummy(News(p, t), 2 * |t.keys| - Total(News(p, t))),
                         p.Counts());
    NextFrequencies(p, t, s);
    LookedUpKeeps(t, Prepared(p, t, News(p, t), s).freq, Prepared(p, t, News(p, t), s).missing);
  }

  lemma LookedUpKeeps(t: Target, freq: map<string, real>, missing: Entries)
    requires HasProbs(t, freq)
    ensures HasProbs(t, LookedUp(freq, missing))
  {
  }

  lemma AlreadyLookedUp(p: Plan, t: Target, s: Moves)
    requires p.Smooth() && MayMoveTo(p, t) && SameKeys(p.keys, t.keys) && Total(News(p, t)) < 2 * |t.keys|
    requires s.sw == Swap(p.labels, [], []) && s.replicas == p.replicas && p.Transition(s.missing)
    ensures var m := Prepared(p, t, News(p, t), s); LookedUp(m.freq, m.missing) == m.freq
  {
    hide Prepared, PrepareAll, Grown, Updated, SameKeys, Plan.Transition, Plan.Smooth, HasProbs, MayMoveTo;
    MayMoveNeeds(p, t);
    PreparedIs(p, t, News(p, t), s);
    NextFrequencies(p, t, s);
    TransitionSized(p, s.missing, t.keys);
    GrownDomain(s.missing, t.keys, News(p, t), p.Counts());
  }

  lemma FinalIsPrepared(p: Plan, t: Target, s: Moves, s': Moves)
    requires p.Smooth() && MayMoveTo(p, t) && SameKeys(p.keys, t.keys) && p.Transition(s.missing)
    requires s.sw == Swap(p.labels, [], []) && s.replicas == p.replicas && s.freq.Keys <= Elems(p.keys)
    requires Total(News(p, t)) < 2 * |t.keys|
    requires var m := Prepared(p, t, News(p, t), s); s' == m.(freq := LookedUp(m.freq, m.missing))
    ensures IsPrepared(p, t, s.missing, s')
  {
    hide Bijection, Prepared, IsPrepared, LookedUp;
    AlreadyLookedUp(p, t, s);
    LoopPrepares(p, t, s);
  }

  /** For an unchanged key set: the next plan follows, and its fake weights are non-negative when alpha is
      1/n. */
  lemma FinishedFollows(p: Plan, t: Target, missing: Entries, s: Moves, pMax: real)
    requires p.Smooth() && MayMoveTo(p, t) && SameKeys(p.keys, t.keys) && Total(News(p, t)) < 2 * |t.keys|
    requires Surplus(s.sw) == 0 && IsPrepared(p, t, missing, s) && IsPMax(pMax, |t.keys|, s.missing, s.freq)
    ensures var q := NextPlan(p, t, s, pMax);
            && Follows(p, q) && q.dummyKey !in q.frequency && q.frequency.Keys == Elems(t.keys)
            && (IsAlpha(p.alpha, p.size) ==> q.Weighted())
  {
    hide Bijection, PrepareAll, Grown, Updated, Filed, Redistributed, Gives;
    SameKeysPass(p, t, missing);
    PMaxIsEnough(pMax, |t.keys|, s.missing, s.freq);
    NextFollows(p, t, missing, s, pMax);
    if IsAlpha(p.alpha, p.size) {
      CountsWeigh(NextPlan(p, t, s, pMax));
    }
  }

  /** For an unchanged key set: if the assertions pass, the next plan is sound again exactly if no two of
      its replicas share a name. */
  lemma NextIsSound(p: Plan, q: Plan, missing: Entries, missing': Entries, shards: seq<Shard>, hash: Hash,
                    stored: map<string, string>)
    requires Sound(p, missing, shards, hash, stored) && Follows(p, q)
    requires NoneShrinks(p.Counts(), missing, q.keys, NatCounts(q.probs, q.alpha))
    requires missing' == Grown(missing, q.keys, NatCounts(q.probs, q.alpha), p.Counts())
    requires IsPMax(q.pMax, q.size, missing', q.frequency)
    ensures Sound(q, missing', shards, hash, stored) <==> Apart(q.Counts())
  {
    hide Bijection, Apart, Redistributed, Grown, Gives, Represents, Plan.Transition;
    RedistributedPlan(p, q);
    if Apart(q.Counts()) {
      GrownTransition(p, q, missing);
      CountsApart(p);
      CountsApart(q);
      StoredUnderNewNames(p.Now(), q.Now(), stored);
    }
  }

  lemma NextFollows(p: Plan, t: Target, missing: Entries, s: Moves, pMax: real)
    requires p.Smooth() && MayMoveTo(p, t) && SameKeys(p.keys, t.keys) && Total(News(p, t)) < 2 * |t.keys|
    requires IsPrepared(p, t, missing, s) && Surplus(s.sw) == 0 && Enough(pMax, |t.keys|)
    ensures Follows(p, NextPlan(p, t, s, pMax))
  {
    hide Bijection, Apart, PrepareAll, Filed, Redistributed, IsPrepared, HasFrequencies, Fitting, Gives;
    SameKeysPass(p, t, missing);
    NextCounts(p, t, missing, s);
    NextFiled(p, t, s, pMax);
    NextFrequenciesFit(p, t, s, pMax);
  }

  lemma NextFrequenciesFit(p: Plan, t: Target, s: Moves, pMax: real)
    requires MayMoveTo(p, t) && Total(News(p, t)) < 2 * |t.keys| && Surplus(s.sw) == 0 && HasFrequencies(t, s.freq)
    ensures NextPlan(p, t, s, pMax).FrequencyIsProbs()
  {
    hide Bijection, Apart;
  }

  lemma NextCounts(p: Plan, t: Target, missing: Entries, s: Moves)
    requires p.Smooth() && MayMoveTo(p, t) && SameKeys(p.keys, t.keys) && Total(News(p, t)) < 2 * |t.keys|
    requires IsPrepared(p, t, missing, s)
    ensures Gives(s.replicas, t.keys, NatCounts(t.probs, p.alpha)) && HasFrequencies(t, s.freq)
    ensures s.sw == PrepareAll(Swap(p.labels, [], []), KeysAndDummy(p, t),
                               WithDummy(News(p, t), 2 * |t.keys| - Total(News(p, t))), p.Counts())
  {
    hide PrepareAll, Grown, Updated, Gives, HasFrequencies, SameKeys, Plan.Smooth, Distinct, Apart;
    SameKeysGive(p, t);
  }

  lemma NextFiled(p: Plan, t: Target, s: Moves, pMax: real)
    requires MayMoveTo(p, t) && Total(News(p, t)) < 2 * |t.keys| && Surplus(s.sw) == 0
    requires 2 * |t.keys| - Total(News(p, t)) == DummyCount(t.probs, p.alpha)
    requires s.sw == PrepareAll(Swap(p.labels, [], []), KeysAndDummy(p, t),
                                WithDummy(News(p, t), 2 * |t.keys| - Total(News(p, t))), p.Counts())
    ensures var q := NextPlan(p, t, s, pMax);
            && q.dummies == DummyCount(q.probs, q.alpha)
            && q.labels == Redistributed(p.labels, q.keys + [q.dummyKey],
                                         WithDummy(NatCounts(q.probs, q.alpha), q.dummies), p.Counts())
  {
    hide Bijection, Apart, PrepareAll, Assign;
    FiledIsRedistributed(p.labels, KeysAndDummy(p, t), WithDummy(News(p, t), 2 * |t.keys| - Total(News(p, t))),
                         p.Counts());
  }

  lemma NextFrequencies(p: Plan, t: Target, s: Moves)
    requires MayMoveTo(p, t) && Total(News(p, t)) < 2 * |t.keys|
    ensures var s' := Prepared(p, t, News(p, t), s);
            s'.freq.Keys == s.freq.Keys + Elems(t.keys) && HasProbs(t, s'.freq)
  {
    hide MoveFirst, Bijection;
    FrequenciesAfterTurns(s, t, News(p, t), p.dummyKey, |t.keys|);
    AllProbs(s.freq, t, MoveFirst(s, t, News(p, t), p.dummyKey, |t.keys|).freq);
  }

  lemma AllProbs(was: map<string, real>, t: Target, freq: map<string, real>)
    requires |t.keys| == |t.probs| && FirstProbs(was, t, |t.keys|, freq)
    ensures freq.Keys == was.Keys + Elems(t.keys) && HasProbs(t, freq)
  {
    assert t.keys[..|t.keys|] == t.keys;
    assert freq.Keys == was.Keys + Elems(t.keys);
    forall i | 0 <= i < |t.keys|
      ensures t.keys[i] in freq && freq[t.keys[i]] == t.probs[i]
    {
      assert HasProb(t, i, freq);
    }
  }

  // ------------------------------------------------------------------ for the method

  /** The keys in transition that have been looked at. */
  function Seen(entries: Entries, todo: set<string>): Entries {
    map k | k in entries && k !in todo :: entries[k]
  }

  lemma SeenNext(freq: map<string, real>, entries: Entries, todo: set<string>, key: string, largest: real, n: nat)
    requires key in todo && todo <= entries.Keys && n > 0 && IsPMax(largest, n, Seen(entries, todo), freq)
    ensures var f := LookedUp(freq, Seen(entries, todo));
            LookedUp(freq, Seen(entries, todo - {key})) == f[key := FrequencyOf(f, key)]
            && FrequencyOf(f, key) == FrequencyOf(freq, key)
    ensures var prob := FrequencyOf(freq, key);
            IsPMax(if largest > prob then largest else prob, n, Seen(entries, todo - {key}), freq)
  {
    assert Seen(entries, todo - {key}).Keys == Seen(entries, todo).Keys + {key};
  }

  lemma NoneSeen(freq: map<string, real>, entries: Entries, n: nat)
    requires n > 0
    ensures LookedUp(freq, Seen(entries, entries.Keys)) == freq
            && IsPMax(MainAlpha(n), n, Seen(entries, entries.Keys), freq)
  {
    assert Seen(entries, entries.Keys) == map[];
  }

  lemma AllSeen(pMax: real, n: nat, missing: Entries, freq: map<string, real>)
    requires n > 0 && IsPMax(pMax, n, Seen(missing, {}), freq)
    ensures Seen(missing, {}) == missing && IsPMax(pMax, n, missing, LookedUp(freq, missing))
  {
    assert Seen(missing, {}) == missing;
  }

  lemma ReadyMoves(p: Plan, t: Target, missing: Entries)
    requires p.AllFiled() && IsTarget(t, p.dummyKey) && Matching(p, missing)
    ensures MayMoveTo(p, t) && p.dummyKey !in missing
  {
  }

  lemma MayMoveNeeds(p: Plan, t: Target)
    requires MayMoveTo(p, t)
    ensures p.AllFiled() && p.alpha > 0.0
    ensures 0 < |t.keys| == |t.probs| && forall i :: 0 <= i < |t.probs| ==> t.probs[i] > 0.0
  {
  }

  lemma DummyTurnReleases(p: Plan, t: Target, news: seq<nat>, s: Moves)
    requires MayMoveTo(p, t) && |news| == |t.keys| && Total(news) < 2 * |t.keys|
    requires s.sw == Swap(p.labels, [], []) && s.replicas == p.replicas
    ensures 2 * |t.keys| - Total(news) < p.dummies
            ==> Range(p.dummyKey, 2 * |t.keys| - Total(news), p.dummies)
                <= MoveFirst(s, t, news, p.dummyKey, |t.keys|).sw.labels.Keys
  {
    hide MayMoveTo, PrepareAll, Grown, Updated, MoveFirst, Range;
    AfterTurns(p, t, news, s, |t.keys|);
    assert t.keys[..|t.keys|] == t.keys && news[..|t.keys|] == news;
    if 2 * |t.keys| - Total(news) < p.dummies {
      DummyReleases(p, t, news, 2 * |t.keys| - Total(news));
    }
  }

  /** What the assertions decide. */
  lemma Decided(p: Plan, t: Target, s: Moves)
    requires Matching(p, s.missing) && MayMoveTo(p, t)
    requires s.sw == Swap(p.labels, [], []) && s.replicas == p.replicas
    ensures Passes(p, t, s.missing)
            <==> Total(News(p, t)) < 2 * |t.keys|
                 && var m := Prepared(p, t, News(p, t), s); SizesMatch(m.missing, m.replicas) && Surplus(m.sw) == 0
  {
    if Total(News(p, t)) < 2 * |t.keys| {
      AssertionsExactly(p, t, s);
    }
  }

  /** What a redistribution that passes its assertions has achieved.  For the same keys everything holds again,
      if the next frequencies were of these keys only. */
  ghost predicate Achieved(p: Plan, t: Target, missing: Entries, q: Plan, missing': Entries, shards: seq<Shard>,
                           hash: Hash, stored: map<string, string>, freq: map<string, real>)
  {
    && Moved(p, t, missing, q, missing') && FrequenciesLeft(freq, t, missing', q.frequency)
    && (q.AllFiled() && Matching(q, missing') <==> Apart(q.Counts()))
    && (Apart(q.Counts()) ==> SurvivorsStay(p.labels, p.Counts(), q.labels, q.Counts()))
    && (Sound(p, missing, shards, hash, stored) && SameKeys(p.keys, t.keys) && freq.Keys <= Elems(p.keys) ==>
          SameKeysAchieved(p, t, q, missing', shards, hash, stored))
  }

  ghost predicate SameKeysAchieved(p: Plan, t: Target, q: Plan, missing': Entries, shards: seq<Shard>, hash: Hash,
                                   stored: map<string, string>)
  {
    && Follows(p, q) && (Sound(q, missing', shards, hash, stored) <==> Apart(q.Counts()))
    && q.dummyKey !in q.frequency && q.frequency.Keys == Elems(t.keys)
    && (IsAlpha(p.alpha, p.size) ==> q.Weighted())
  }

  lemma Concluded(p: Plan, t: Target, s: Moves, s': Moves, pMax: real, q: Plan, shards: seq<Shard>, hash: Hash,
                  stored: map<string, string>)
    requires Matching(p, s.missing) && MayMoveTo(p, t) && Passes(p, t, s.missing)
    requires s.sw == Swap(p.labels, [], []) && s.replicas == p.replicas
    requires var m := Prepared(p, t, News(p, t), s); s' == m.(freq := LookedUp(m.freq, m.missing))
    requires Surplus(s'.sw) == 0 && IsPMax(pMax, |t.keys|, s'.missing, s'.freq) && SizesMatch(s'.missing, s'.replicas)
    requires q == NextPlan(p, t, s', pMax)
    ensures Achieved(p, t, s.missing, q, s'.missing, shards, hash, stored, s.freq)
  {
    hide MayMoveTo, Moved, Prepared, IsPMax, SameKeys, IsPrepared, LookedUp, Apart, Matching, Sound, SameKeysAchieved;
    hide Plan.Smooth, Plan.Transition, Plan.AllFiled, SurvivorsStay, SizesMatch, Filed, FrequenciesLeft;
    Finished(p, t, s, s', pMax);
    LeftFrequencies(p, t, s, s');
    MatchingNeeds(p, t, s.missing);
    MovedIsReady(p, t, s.missing, q, s'.missing);
    if Sound(p, s.missing, shards, hash, stored) && SameKeys(p.keys, t.keys) && s.freq.Keys <= Elems(p.keys) {
      AchievedForSameKeys(p, t, s, s', pMax, shards, hash, stored);
    }
  }

  lemma MatchingNeeds(p: Plan, t: Target, missing: Entries)
    requires Matching(p, missing) && MayMoveTo(p, t)
    ensures p.AllFiled() && p.dummyKey !in missing
  {
  }

  lemma AchievedForSameKeys(p: Plan, t: Target, s: Moves, s': Moves, pMax: real, shards: seq<Shard>, hash: Hash,
                            stored: map<string, string>)
    requires MayMoveTo(p, t) && Passes(p, t, s.missing) && SameKeys(p.keys, t.keys)
    requires s.sw == Swap(p.labels, [], []) && s.replicas == p.replicas && s.freq.Keys <= Elems(p.keys)
    requires var m := Prepared(p, t, News(p, t), s); s' == m.(freq := LookedUp(m.freq, m.missing))
    requires Surplus(s'.sw) == 0 && IsPMax(pMax, |t.keys|, s'.missing, s'.freq)
    requires Sound(p, s.missing, shards, hash, stored)
    ensures SameKeysAchieved(p, t, NextPlan(p, t, s', pMax), s'.missing, shards, hash, stored)
  {
    hide MayMoveTo, Prepared, IsPMax, SameKeys, NextPlan, IsPrepared, LookedUp, Apart, Plan.Smooth, Plan.Transition;
    FinalIsPrepared(p, t, s, s');
    FinishedFollows(p, t, s.missing, s', pMax);
    FinishedSound(p, t, s.missing, s', pMax, shards, hash, stored);
  }

  lemma FinishedSound(p: Plan, t: Target, missing: Entries, s: Moves, pMax: real, shards: seq<Shard>, hash: Hash,
                      stored: map<string, string>)
    requires Sound(p, missing, shards, hash, stored) && p.Smooth() && MayMoveTo(p, t) && SameKeys(p.keys, t.keys)
    requires Passes(p, t, missing) && IsPrepared(p, t, missing, s) && Surplus(s.sw) == 0
    requires IsPMax(pMax, |t.keys|, s.missing, s.freq) && Follows(p, NextPlan(p, t, s, pMax))
    ensures var q := NextPlan(p, t, s, pMax); Sound(q, s.missing, shards, hash, stored) <==> Apart(q.Counts())
  {
    hide Sound, Follows, Filed, Grown, PrepareAll, Updated, Apart, Bijection, Plan.Smooth, Plan.AllFiled, Prepared;
    SameKeysPass(p, t, missing);
    NextIsSound(p, NextPlan(p, t, s, pMax), missing, s.missing, shards, hash, stored);
  }
}
