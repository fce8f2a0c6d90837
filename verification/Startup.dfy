/** From a trace to a running proxy: what the loader produces is what the proxy needs. */
module Startup {
  import opened Sums
  import opened Smoothing
  import opened Directory
  import opened Storage
  import opened Refinement
  import opened TraceLoader
  import opened Plans
  import opened PlanSmoothing
  import opened EndToEnd
  import opened Lifetime
  import opened Proxy

  function KeysOf(p: Parsed): set<string> {
    set i | 0 <= i < |p| :: p[i].0
  }

  lemma {:induction false} OccurringKeys(p: Parsed, key: string)
    ensures key in KeysOf(p) <==> Occurrences(p, key) > 0
  {
    if p != [] {
      OccurringKeys(p[..|p| - 1], key);
      assert forall i :: 0 <= i < |p| - 1 ==> p[..|p| - 1][i] == p[i];
    }
  }

  /** The replica counts that the loaded distribution leads to, at the alpha of `main`. */
  function TraceCounts(keys: seq<string>, probs: seq<real>, dummyKey: string): Counts
    requires |keys| == |probs| > 0 && forall i :: 0 <= i < |probs| ==> probs[i] > 0.0
    requires MainAlpha(|keys|) > 0.0 && DummyCount(probs, MainAlpha(|keys|)) >= 0
  {
    Planned(keys, NatCounts(probs, MainAlpha(|keys|)), dummyKey, DummyCount(probs, MainAlpha(|keys|)))
  }

  /** The keys of a trace, their relative frequencies, and the alpha and delta of `main` meet every
      precondition of the proxy if and only if none is the dummy and no two of the replicas that the
      frequencies lead to share a name. */
  lemma TraceIsUsable(p: Parsed, keys: seq<string>, probs: seq<real>, dummyKey: string)
    requires Describes(p, keys, probs)
    ensures |keys| > 0 && Elems(keys) == KeysOf(p)
    ensures IsAlpha(MainAlpha(|keys|), |keys|) && DummyCount(probs, MainAlpha(|keys|)) >= 0
    ensures Fitting(keys, probs, MainAlpha(|keys|), dummyKey, |keys|) <==> dummyKey !in KeysOf(p)
    ensures Usable(keys, probs, MainAlpha(|keys|), dummyKey, |keys|)
            <==> dummyKey !in KeysOf(p) && Apart(TraceCounts(keys, probs, dummyKey))
    ensures Divides(MainDelta(|keys|)) && MainDelta(|keys|) == 1.0 / (Labels(|keys|) * MainAlpha(|keys|))
  {
    hide Apart, Enough, IsDistribution, Elems, KeysOf;
    SameElements(p, keys, probs);
    MainRates(|keys|);
    BudgetOf(probs, |keys|, MainAlpha(|keys|));
    InElems(keys, dummyKey);
  }

  /** That is so whatever the names if no key makes up more than ten n-ths of the trace and there are at
      most ten keys' worth of dummies. */
  lemma FewReplicasAreUsable(p: Parsed, keys: seq<string>, probs: seq<real>, dummyKey: string)
    requires Describes(p, keys, probs) && dummyKey !in KeysOf(p)
    requires |keys| > 0 && MainAlpha(|keys|) > 0.0 && DummyCount(probs, MainAlpha(|keys|)) <= 10
    requires forall i :: 0 <= i < |keys| ==> probs[i] <= 10.0 * MainAlpha(|keys|)
    ensures Usable(keys, probs, MainAlpha(|keys|), dummyKey, |keys|)
  {
    hide Apart, Enough, Elems, KeysOf;
    TraceIsUsable(p, keys, probs, dummyKey);
    var alpha := MainAlpha(|keys|);
    var news := NatCounts(probs, alpha);
    CountsOfKeys(keys, news);
    forall k | k in TraceCounts(keys, probs, dummyKey)
      ensures TraceCounts(keys, probs, dummyKey)[k] <= 10
    {
      if k != dummyKey {
        var i :| 0 <= i < |keys| && keys[i] == k;
        CountAtMostTen(probs[i], alpha);
      }
    }
    TenReplicasApart(TraceCounts(keys, probs, dummyKey));
  }

  lemma CountAtMostTen(pi: real, alpha: real)
    requires pi > 0.0 && alpha > 0.0 && pi <= 10.0 * alpha
    ensures ReplicaCount(pi, alpha) <= 10
  {
    CountCovers(pi, alpha);
    BelowEleven(ReplicaCount(pi, alpha) as real, alpha, ReplicaCount(pi, alpha) as real * alpha);
  }

  lemma BelowEleven(r: real, alpha: real, x: real)
    requires alpha > 0.0 && x == r * alpha && x < 11.0 * alpha
    ensures r < 11.0
  {
    InOrder(11.0, r, alpha, 11.0 * alpha, x);
  }

  lemma InElems(keys: seq<string>, k: string)
    ensures k in Elems(keys) <==> k in keys
  {
  }

  lemma SameElements(p: Parsed, keys: seq<string>, probs: seq<real>)
    requires Describes(p, keys, probs)
    ensures |keys| > 0 && Elems(keys) == KeysOf(p)
  {
    hide IsDistribution;
    OccurringKeys(p, p[0].0);
    assert p[0].0 in keys;
    forall k
      ensures k in Elems(keys) <==> k in KeysOf(p)
    {
      OccurringKeys(p, k);
      InElems(keys, k);
    }
  }

  lemma MainRates(n: nat)
    requires n > 0
    ensures IsAlpha(MainAlpha(n), n) && Enough(MainAlpha(n), n) && Divides(MainDelta(n))
    ensures MainDelta(n) == 1.0 / (Labels(n) * MainAlpha(n))
  {
    MainParameters(n);
    AlphaIsEnough(MainAlpha(n), n);
  }

  /** The replicas that the frequencies lead to share no name. */
  ghost predicate IsApart(keys: seq<string>, probs: seq<real>, dummyKey: string) {
    && |keys| == |probs| > 0 && (forall i :: 0 <= i < |probs| ==> probs[i] > 0.0)
    && MainAlpha(|keys|) > 0.0 && DummyCount(probs, MainAlpha(|keys|)) >= 0
    && Apart(TraceCounts(keys, probs, dummyKey))
  }

  /** The batches hold the trace's gets and puts in file order, and are closed when they are full. */
  ghost predicate HoldsTrace(p: Parsed, trace: seq<ClientBatch>, batchSize: int) {
    && AllWellFormed(trace, batchSize) && FlatGets(trace) == Gets(p) && FlatPuts(trace) == Puts(p)
    && AllFullButLast(trace, batchSize)
  }

  lemma LoadedTrace(p: Parsed, trace: seq<ClientBatch>, batchSize: int)
    requires AllWellFormed(trace, batchSize) && FlatGets(trace) == Gets(p) && FlatPuts(trace) == Puts(p)
    requires AllFullButLast(trace, batchSize)
    ensures HoldsTrace(p, trace, batchSize)
  {
  }

  /** alpha is 1/n, and delta is 1/2 or, in terms of alpha, 1/(2*n*alpha). */
  predicate AtMainRates(n: nat, alpha: real, delta: real) {
    n > 0 && alpha == 1.0 / n as real && alpha > 0.0 && delta == 1.0 / 2.0 && delta == 1.0 / (Labels(n) * alpha)
  }

  /** The fake weights are a distribution: the masses that make every label equally likely, for each key r*alpha
      - pi and for the dummy its count times alpha, divided by their sum 2*n*alpha - 1. */
  ghost predicate ProperStart(w: seq<real>, probs: seq<real>, alpha: real) {
    && alpha > 0.0 && (forall i :: 0 <= i < |probs| ==> probs[i] > 0.0)
    && |w| == |probs| + 1 && (forall i :: 0 <= i < |w| ==> w[i] >= 0.0) && Sum(w) == 1.0
    && Weight(2 * |probs|, 1.0, alpha) > 0.0
    && forall i :: 0 <= i < |w| ==>
         w[i] == (if i < |probs| then Weight(NatCounts(probs, alpha)[i], probs[i], alpha)
                  else Weight(DummyCount(probs, alpha), 0.0, alpha)) / Weight(2 * |probs|, 1.0, alpha)
  }

  lemma StartIsProper(w: seq<real>, probs: seq<real>, n: nat, alpha: real, delta: real)
    requires n == |probs| && AtMainRates(n, alpha, delta) && IsDistribution(probs) && Enough(alpha, n)
    requires Divides(delta) && StartWeights(w, probs, alpha, delta)
    ensures ProperStart(w, probs, alpha)
  {
    hide Weight, StartWeights;
    StartWeightsSound(w, probs, n, alpha, delta);
    forall q | 0 <= q <= n
      ensures Weight(2 * n, 1.0, alpha) > 0.0 && |w| == n + 1
      ensures w[q] == (if q < n then Weight(NatCounts(probs, alpha)[q], probs[q], alpha)
                       else Weight(DummyCount(probs, alpha), 0.0, alpha)) / Weight(2 * n, 1.0, alpha)
    {
      StartMass(w, probs, n, alpha, delta, q);
    }
  }

  /** `main`: loads the trace and starts the proxy on it, on a store that may hold data already.  For every
      non-empty trace without a rejected key the proxy gets weights and cached vectors that fit; it starts
      smooth, and with one value per key, exactly if no two replicas share a name. */
  method Start(lines: seq<string>, batchSize: int, dummyKey: string, fill: map<string, string>, store: RocksDb,
               ghost stored: map<string, string>)
    returns (ok: bool, loaded: Loaded, proxy: PancakeProxy?)
    requires lines != [] && dummyKey !in KeysOf(ParseAll(lines))
    requires Represents(store.shards, store.hash, stored)
    requires FillsKeys(fill) && KeysOf(ParseAll(lines)) + {dummyKey} <= fill.Keys
    modifies store
    ensures ok <==> !Rejected(ParseAll(lines))
    ensures ok <==> proxy != null
    ensures ok ==> Describes(ParseAll(lines), loaded.keys, loaded.probs)
    ensures ok ==> HoldsTrace(ParseAll(lines), loaded.trace, batchSize)
    ensures ok ==> fresh(proxy) && proxy.keys == loaded.keys && proxy.probs == loaded.probs
    ensures ok ==> proxy.store == store && proxy.dummyKey == dummyKey
    ensures ok ==> proxy.size == |loaded.keys| && AtMainRates(proxy.size, proxy.alpha, proxy.delta)
    ensures ok ==> ProperStart(proxy.fakeWeights, loaded.probs, proxy.alpha)
    ensures ok ==> proxy.Started(fill) && (proxy.Valid() <==> IsApart(loaded.keys, loaded.probs, dummyKey))
  {
    hide Fitting, Usable, IsApart, Describes, Divides, AtMainRates, IsDistribution, Elems, KeysOf, ParseAll, Rejected;
    hide PancakeProxy.Started, Represents, FillsKeys, StartWeights, ProperStart, HoldsTrace;
    var r, closed := Load(lines, batchSize);
    if r.Err? {
      return false, Loaded([], [], []), null;
    }
    loaded := r.value;
    LoadedTrace(ParseAll(lines), loaded.trace, batchSize);
    LoadedIsFitting(ParseAll(lines), loaded.keys, loaded.probs, dummyKey);
    var n := |loaded.keys|;
    proxy := Init(loaded.keys, loaded.probs, n, MainAlpha(n), MainDelta(n), dummyKey, fill, store, stored);
    ok := true;
    StartedExactly(proxy, fill);
    StartIsProper(proxy.fakeWeights, loaded.probs, n, proxy.alpha, proxy.delta);
  }

  lemma LoadedIsFitting(p: Parsed, keys: seq<string>, probs: seq<real>, dummyKey: string)
    requires Describes(p, keys, probs) && dummyKey !in KeysOf(p)
    ensures |keys| > 0 && Elems(keys + [dummyKey]) == KeysOf(p) + {dummyKey}
    ensures Fitting(keys, probs, MainAlpha(|keys|), dummyKey, |keys|) && Divides(MainDelta(|keys|))
    ensures Usable(keys, probs, MainAlpha(|keys|), dummyKey, |keys|) <==> IsApart(keys, probs, dummyKey)
    ensures IsDistribution(probs) && |probs| == |keys| && Enough(MainAlpha(|keys|), |keys|)
    ensures AtMainRates(|keys|, MainAlpha(|keys|), MainDelta(|keys|))
  {
    hide Apart, Describes, KeysOf, Elems;
    DescribedProbs(p, keys, probs);
    TraceIsUsable(p, keys, probs, dummyKey);
    LastKey(keys, dummyKey);
    MainRatesAre(|keys|);
  }

  lemma MainRatesAre(n: nat)
    requires n > 0
    ensures AtMainRates(n, MainAlpha(n), MainDelta(n)) && Enough(MainAlpha(n), n)
  {
    MainParameters(n);
    MainRates(n);
  }

  lemma DescribedProbs(p: Parsed, keys: seq<string>, probs: seq<real>)
    requires Describes(p, keys, probs)
    ensures IsDistribution(probs) && |probs| == |keys|
  {
  }

  lemma StartedExactly(proxy: PancakeProxy, fill: map<string, string>)
    requires proxy.Started(fill)
    ensures proxy.Valid() <==> Usable(proxy.keys, proxy.probs, proxy.alpha, proxy.dummyKey, proxy.size)
  {
  }

  /** From what `init` leaves where no two replicas share a name: in every run of clients and the consumer
      whose batches repeat no replica of the keys that clients use, each promise receives what a plain map
      answers that starts with the value drawn for each key. */
  lemma ServedFromInit(proxy: PancakeProxy, fill: map<string, string>, coin: real, states: seq<System>,
                       events: seq<Event>, i: nat, ks: set<string>)
    requires proxy.Valid() && proxy.Started(fill) && ks <= proxy.Now().counts.Keys
    requires IsPlainRun(proxy.Now(), coin, states, events, ks) && states[0].world == proxy.State() && i < |states|
    ensures var s := states[i];
            && s.done <= s.pushed && |s.answers| == |s.done|
            && |s.pushed| == |s.answers| + |s.filling.promises| + |s.filling.queue|
            && forall j :: 0 <= j < |s.answers| ==>
                 s.answers[j] == (s.pushed[j].promise, MapAnswers(fill, ItemOps(s.pushed))[j])
  {
    hide IsPlainRun, Coherent, Plan.Smooth, Usable;
    BatchPlayable(proxy.ThePlan(), proxy.State(), proxy.store.shards, proxy.store.hash, []);
    FewerKeys(proxy.Now(), proxy.State(), fill, proxy.Now().counts.Keys, ks);
    PlainRuns(proxy.Now(), coin, fill, states, events, i, ks);
  }

  /** And over redistributions: if the batches are hazard-free for the clients' keys and every new replica of
      those keys is waited for, this goes on for ever. */
  lemma ServedForLife(proxy: PancakeProxy, fill: map<string, string>, states: seq<Life>, turns: seq<Turn>, i: nat,
                      ks: set<string>)
    requires proxy.Valid() && proxy.Started(fill) && ks <= Elems(proxy.keys)
    requires IsLife(states, turns) && AlwaysServes(states, turns, ks) && i < |states|
    requires states[0].plan == proxy.ThePlan() && states[0].sys.world == proxy.State()
    ensures states[i].plan.Smooth() && states[i].plan.size == proxy.size
    ensures var s := states[i].sys;
            && s.done <= s.pushed && |s.answers| == |s.done|
            && |s.pushed| == |s.answers| + |s.filling.promises| + |s.filling.queue|
            && forall j :: 0 <= j < |s.answers| ==>
                 s.answers[j] == (s.pushed[j].promise, MapAnswers(fill, ItemOps(s.pushed))[j])
  {
    hide IsTurn, Serves, Coherent, Plan.Smooth, Plan.Transition, Usable;
    BatchPlayable(proxy.ThePlan(), proxy.State(), proxy.store.shards, proxy.store.hash, []);
    RealKeys(proxy.ThePlan(), ks);
    FewerKeys(proxy.Now(), proxy.State(), fill, proxy.Now().counts.Keys, ks);
    AlwaysLinearizable(fill, states, turns, i, ks);
    AlwaysInOrder(states, turns, i);
  }

  lemma RealKeys(p: Plan, ks: set<string>)
    requires p.Smooth() && ks <= Elems(p.keys)
    ensures ks <= p.Counts().Keys
  {
    forall k | k in ks
      ensures k in p.Counts()
    {
      assert k in p.keys;
    }
  }

  lemma FewerKeys(e: Epoch, w: World, l: Logical, ks: set<string>, fewer: set<string>)
    requires e.Valid() && Coherent(e, w.cache, w.missing, w.store, l, ks) && fewer <= ks
    ensures Coherent(e, w.cache, w.missing, w.store, l, fewer)
  {
    hide ReplicaCoherent, EntryCurrent;
  }
}
