/** One redistribution of two keys at the alpha of `main`, from creation on, after which a batch can index
    past a cached vector and a new replica holds another key's text. */
module Instances {
  import opened Naming
  import opened Sums
  import opened Smoothing
  import opened Directory
  import opened UpdateCache
  import opened Refinement
  import opened Plans
  import opened Redistribution
  import opened Weights
  import opened Carryover
  import opened Draws

  /** What creation plans for two equally likely keys: one replica each, and two dummies. */
  function FirstPlan(): Plan {
    Plan(["a", "b"], [0.5, 0.5], map["a" := 0.5, "b" := 0.5], map["a" := 1, "b" := 1], 2,
         map["a0" := 0, "b0" := 1, "d0" := 2, "d1" := 3], 0.5, 0.5, "d", 2)
  }

  /** The first key becomes three times as likely as the second. */
  function Shifted(): Target {
    Target(["a", "b"], [0.75, 0.25])
  }

  /** The first key then has two replicas, and there is one dummy. */
  ghost function Grew(): Plan {
    Plan(["a", "b"], [0.75, 0.25], map["a" := 0.75, "b" := 0.25], map["a" := 2, "b" := 1], 1,
         Redistributed(FirstPlan().labels, ["a", "b"] + ["d"], WithDummy([2, 1], 1), FirstPlan().Counts()),
         0.75, 0.5, "d", 2)
  }

  /** Every label stores something, and the cache has the vectors of creation. */
  function Stored(): map<string, string> {
    map["0" := "u", "1" := "v", "2" := "w", "3" := "w"]
  }

  function FirstCache(): Entries {
    InitialEntries(Pairs(["a", "b"], [1, 1]) + [("d", 2)])
  }

  lemma TwoSum(x: real, y: real)
    ensures Sum([x, y]) == x + y
  {
    assert [x, y][..1] == [x] && Sum([x][..0]) == 0.0;
  }

  lemma TwoTotal(x: int, y: int)
    ensures Total([x, y]) == x + y
  {
    assert [x, y][..1] == [x] && Total([x][..0]) == 0;
  }

  lemma FirstCounts()
    ensures IsDistribution([0.5, 0.5]) && NatCounts([0.5, 0.5], 0.5) == [1, 1] && DummyCount([0.5, 0.5], 0.5) == 2
  {
    TwoSum(0.5, 0.5);
    OneReplica(0.5, 0.5);
    TwoTotal(1, 1);
    assert NatCounts([0.5, 0.5], 0.5) == [1, 1];
  }

  lemma ShiftedCounts()
    ensures IsDistribution([0.75, 0.25]) && NatCounts([0.75, 0.25], 0.5) == [2, 1] && DummyCount([0.75, 0.25], 0.5) == 1
  {
    TwoSum(0.75, 0.25);
    CountCovers(0.75, 0.5);
    OneReplica(0.25, 0.5);
    TwoTotal(2, 1);
    assert NatCounts([0.75, 0.25], 0.5) == [2, 1];
  }

  lemma FirstNames()
    ensures Bijection(FirstPlan().labels, FirstPlan().Counts(), 4)
  {
    hide Partition, Decimal, Names;
    NamedReplicas(FirstPlan().Counts());
    FourLabels(FirstPlan().labels);
  }

  lemma Digits()
    ensures Decimal(0) == "0" && Decimal(1) == "1" && Decimal(2) == "2" && Decimal(3) == "3"
    ensures Name("a", 0) == "a0" && Name("b", 0) == "b0" && Name("d", 0) == "d0" && Name("d", 1) == "d1"
  {
    assert Decimal(0) == "0" && Decimal(1) == "1";
  }

  lemma NamedReplicas(counts: Counts)
    requires counts == map["a" := 1, "b" := 1, "d" := 2]
    ensures Names(counts) == {"a0", "b0", "d0", "d1"}
  {
    hide Decimal;
    Digits();
    forall s
      ensures s in Names(counts) <==> s in {"a0", "b0", "d0", "d1"}
    {
      if s in Names(counts) {
        var k, i: nat :| k in counts.Keys && 0 <= i < counts[k] && s == Name(k, i);
        assert i == 0 || (k == "d" && i == 1);
      }
    }
  }

  lemma FourLabels(labels: map<string, nat>)
    requires labels == map["a0" := 0, "b0" := 1, "d0" := 2, "d1" := 3]
    ensures Partition(labels, [], 4)
  {
    assert labels["a0"] == 0 && labels["b0"] == 1 && labels["d0"] == 2 && labels["d1"] == 3;
  }

  lemma CreatedIsSmooth()
    ensures FirstPlan().Smooth() && FirstPlan().Transition(map[])
  {
    hide Bijection, IsDistribution, Sum;
    FirstCounts();
    FirstNames();
  }

  lemma FirstStored()
    ensures Playable(FirstPlan().Now(), World(map[], map[], Stored()), [])
  {
    hide Bijection, Apart, Plan.Smooth;
    CreatedIsSmooth();
    CountsApart(FirstPlan());
    forall k, j: nat | k in FirstPlan().Counts() && j < FirstPlan().Counts()[k]
      ensures AddrStored(FirstPlan().Now(), Stored(), k, j)
    {
      ItsText(k, j);
    }
  }

  lemma ItsText(k: string, j: nat)
    requires FirstPlan().Now().Valid() && k in FirstPlan().Counts() && j < FirstPlan().Counts()[k]
    ensures AddrStored(FirstPlan().Now(), Stored(), k, j)
  {
    hide Bijection, Apart;
    AddrDefined(FirstPlan().Now(), k, j);
    hide Decimal;
    Digits();
    assert j == 0 || (k == "d" && j == 1);
  }

  /** The redistribution passes its assertions. */
  lemma ShiftPasses()
    ensures MayMoveTo(FirstPlan(), Shifted()) && Passes(FirstPlan(), Shifted(), map[])
  {
    hide Bijection, Plan.Smooth, Plan.AllFiled, NatCounts, Apart, Passes, DummyCount;
    CreatedIsSmooth();
    CountsApart(FirstPlan());
    ShiftedCounts();
    SameKeysPass(FirstPlan(), Shifted(), map[]);
  }

  lemma GrownMissing()
    ensures Grown(map[], ["a", "b"], [2, 1], FirstPlan().Counts()) == map["a" := Entry("", [false, false])]
  {
    assert ["a", "b"][..1] == ["a"] && [2, 1][..1] == [2] && ["a"][..0] == [] && [2][..0] == [];
    assert Grown(map[], ["a"], [2], FirstPlan().Counts()) == map["a" := Entry("", Fill(2, false))];
    assert Fill(2, false) == [false, false];
  }

  lemma GrewBecomes()
    ensures Becomes(FirstPlan(), map[], Grew())
  {
    hide Bijection, Redistributed, IsDistribution, NatCounts, Grown, Apart, Plan.Smooth;
    ShiftedCounts();
    GrewFollows();
    GrownMissing();
    assert FrequencyOf(Grew().frequency, "a") == 0.75;
  }

  lemma GrewFollows()
    ensures Follows(FirstPlan(), Grew())
  {
    hide Bijection, Redistributed, NatCounts, Fitting, Gives, Plan.FrequencyIsProbs;
    ShiftedCounts();
    GrewFits();
  }

  lemma GrewFits()
    ensures Grew().Sensible() && Grew().FrequencyIsProbs() && Gives(Grew().replicas, ["a", "b"], [2, 1])
  {
    hide Bijection, Redistributed, IsDistribution, NatCounts;
    ShiftedCounts();
  }

  /** And leaves this plan, in which the directory is a bijection again and the first key is in
      transition. */
  lemma GrewIsSmooth()
    ensures Becomes(FirstPlan(), map[], Grew()) && Grew().Smooth()
    ensures Grew().Transition(map["a" := Entry("", [false, false])])
  {
    hide Bijection, Redistributed, Grown, Apart, Plan.Smooth, Plan.Transition, NatCounts, Follows, IsPMax;
    CreatedIsSmooth();
    ShiftedCounts();
    GrewBecomes();
    GrownMissing();
    TenReplicasApart(Grew().Counts());
    RedistributedPlan(FirstPlan(), Grew());
    GrownTransition(FirstPlan(), Grew(), map[]);
  }

  lemma OneMorePair(pairs: seq<(string, nat)>, key: string, r: nat)
    ensures InitialEntries(pairs + [(key, r)]) == InitialEntries(pairs)[key := Entry("", Fill(r, false))]
  {
    assert (pairs + [(key, r)])[..|pairs|] == pairs;
  }

  lemma OneBit()
    ensures "a" in FirstCache() && FirstCache()["a"] == Entry("", [false])
  {
    hide InitialEntries;
    OneMorePair([], "a", 1);
    OneMorePair([("a", 1)], "b", 1);
    OneMorePair([("a", 1), ("b", 1)], "d", 2);
    assert [] + [("a", 1)] == [("a", 1)] && [("a", 1)] + [("b", 1)] == [("a", 1), ("b", 1)];
    assert Pairs(["a", "b"], [1, 1]) == [("a", 1), ("b", 1)];
    assert Fill(1, false) == [false];
  }

  /** The first key still has its vector of one bit, and a second replica can be drawn: a batch can index
      past the end. */
  lemma GrownKeyOverruns(w: World)
    requires w == World(FirstCache(), map["a" := Entry("", [false, false])], Stored())
    ensures FirstPlan().Smooth() && MayMoveTo(FirstPlan(), Shifted()) && Passes(FirstPlan(), Shifted(), map[])
    ensures Becomes(FirstPlan(), map[], Grew()) && Grew().keys == Shifted().keys && Grew().probs == Shifted().probs
    ensures Grew().Smooth() && Grew().Transition(w.missing) && Playable(Grew().Now(), w, [])
    ensures !AllDrawsStay(Grew(), w)
  {
    hide Becomes, Plan.Smooth, Plan.Transition, MayMoveTo, Passes, AllDrawsStay, InitialEntries, Pairs;
    CreatedIsSmooth();
    ShiftPasses();
    GrewIsSmooth();
    GrewStored(w);
    OneBit();
    LaterReplicaDrawn(Grew(), w, "a");
  }

  lemma GrewStored(w: World)
    requires w.store == Stored()
    ensures Playable(Grew().Now(), w, [])
  {
    hide Apart, Bijection, Redistributed, Plan.Smooth;
    FirstStored();
    GrewIsSmooth();
    CountsApart(Grew());
    StoredUnderNewNames(FirstPlan().Now(), Grew().Now(), Stored());
  }

  /** And nothing waits for the new replica, whose label held another key's text: for some stored texts
      that were coherent the key's replicas no longer are. */
  lemma GrownKeyStale(w: World)
    requires w == World(FirstCache(), map[], Stored())
    ensures Carries(FirstPlan(), Grew(), w) && !GrowersKnown(FirstPlan(), Grew(), w, {"a"})
  {
    hide Bijection, Redistributed, Plan.Smooth, Plan.Transition, NatCounts, InitialEntries, Pairs;
    CreatedIsSmooth();
    GrewIsSmooth();
    CountsApart(Grew());
    FirstStored();
    ShiftedCounts();
    OneBit();
    assert !WaitedFor(w, "a", 1);
    assert Grew().keys[0] == "a" && At(FirstPlan().Counts(), "a") == 1 && At(Grew().Counts(), "a") == 2;
  }
}
