/** Whole lives of a proxy: clients, the consumer, and changes of the distribution, in any order. */
module Lifetime {
  import opened Smoothing
  import opened Directory
  import opened UpdateCache
  import opened Refinement
  import opened Plans
  import opened Redistribution
  import opened Weights
  import opened PlanSmoothing
  import opened JointMass
  import opened Carryover
  import opened Batching
  import opened EndToEnd

  datatype Life = Life(plan: Plan, sys: System)

  datatype Turn = Proceed(coin: real, ev: Event) | Redistribute(plan: Plan)

  /** `key_to_frequency_` gets entries when a batch reads it. */
  function PlanAfter(p: Plan, f: Filling, ev: Event): Plan {
    if ev.Execute? then p.(frequency := Looked(p.frequency, f.batch)) else p
  }

  /** An event of the run under the current plan, or a redistribution over the same keys. */
  ghost predicate IsTurn(s: Life, t: Turn, s': Life) {
    match t
    case Proceed(coin, ev) =>
      IsStep(s.plan.Now(), coin, s.sys, ev, s'.sys) && s'.plan == PlanAfter(s.plan, s.sys.filling, ev)
    case Redistribute(q) =>
      Redistributes(s.plan, s.sys, q) && s' == Life(q, s.sys.(world := Carried(s.plan, q, s.sys.world)))
  }

  /** A redistribution that passes its assertions, keeps the names of the replicas apart, and comes while no
      slot is held for a key that it leaves without replicas. */
  ghost predicate Redistributes(p: Plan, s: System, q: Plan) {
    && HasCounts(q) && Becomes(p, s.world.missing, q) && Apart(q.Counts())
    && NoneShrinks(p.Counts(), s.world.missing, q.keys, NatCounts(q.probs, q.alpha))
    && KeysKnown(q.Now(), s.filling)
  }

  ghost predicate IsLife(states: seq<Life>, turns: seq<Turn>) {
    && |states| == |turns| + 1
    && states[0].sys.pushed == states[0].sys.done == [] && states[0].sys.answers == []
    && states[0].sys.filling == Filling([], [], [], [])
    && forall i :: 0 <= i < |turns| ==> IsTurn(states[i], turns[i], states[i + 1])
  }

  /** The plan is in order, keys in transition are proper, every label is stored, and promises are accounted
      for. */
  ghost predicate Orderly(s: Life) {
    && s.plan.Smooth() && s.plan.Transition(s.sys.world.missing)
    && Playable(s.plan.Now(), s.sys.world, []) && Accounted(s.plan.Now(), s.sys)
  }

  // ------------------------------------------------------------------ one turn

  lemma OpsRegistered(p: Plan, f: Filling)
    requires KeysKnown(p.Now(), f)
    ensures Registered(p, f.batch)
  {
  }

  /** Nothing but the frequencies changes in the plan, and nothing but executions changes the missing
      replicas. */
  lemma ProceedKeepsPlan(s: Life, coin: real, ev: Event)
    requires s.plan.Smooth() && s.plan.Transition(s.sys.world.missing) && Playable(s.plan.Now(), s.sys.world, [])
    requires Paired(s.sys.filling) && KeysKnown(s.plan.Now(), s.sys.filling) && Legal(s.plan.Now(), s.sys, ev)
    ensures var (p', s') := (PlanAfter(s.plan, s.sys.filling, ev), Next(s.plan.Now(), coin, s.sys, ev));
            && p'.Smooth() && p'.Transition(s'.world.missing) && p'.Now() == s.plan.Now() && p'.keys == s.plan.keys
            && Playable(p'.Now(), s'.world, [])
  {
    hide Plan.Smooth, Plan.Transition, BatchInBounds, AfterBatch, Playable;
    if ev.Execute? {
      var e, w, accesses := s.plan.Now(), s.sys.world, AccessesOf(s.sys.filling, ev.replicas);
      OpsRegistered(s.plan, s.sys.filling);
      MissingAfter(e, w, accesses);
      StoreKept(e, w, accesses);
      BatchKeepsPlan(s.plan, PlanAfter(s.plan, s.sys.filling, ev), s.sys.filling.batch, w.missing,
                     AfterBatch(e, w, accesses).missing);
    }
  }

  lemma MissingAfter(e: Epoch, w: World, accesses: seq<Access>)
    requires Playable(e, w, accesses)
    ensures var missing' := AfterBatch(e, w, accesses).missing;
            forall k :: k in missing' ==> k in w.missing && missing'[k] == w.missing[k]
  {
    AddrsStored(e, w, accesses);
    MissingOnlyShrinks(e, Progress(w.cache, w.missing, []), accesses, Responses(e, w.store, accesses));
  }

  lemma SameKeysKept(p: Plan, q: Plan, ks: set<string>)
    requires Follows(p, q) && ks <= Elems(p.keys)
    ensures ks <= Elems(q.keys)
  {
    hide Gives, Redistributed, Fitting;
    forall k | k in ks
      ensures k in Elems(q.keys)
    {
      assert k in p.keys;
      assert k in q.keys;
    }
  }

  lemma PlansCarry(p: Plan, q: Plan, w: World)
    requires p.Smooth() && p.Transition(w.missing) && Follows(p, q) && Apart(q.Counts()) && Playable(p.Now(), w, [])
    requires HasCounts(q) && NoneShrinks(p.Counts(), w.missing, q.keys, NatCounts(q.probs, q.alpha))
    ensures Carries(p, q, w) && p.Now().Valid()
  {
    hide Plan.Smooth, Plan.Transition, Follows, Apart, Bijection;
    CountsApart(p);
  }

  /** The labels are the same, so every replica of the new plan is stored. */
  lemma CarriedPlayable(p: Plan, q: Plan, w: World)
    requires Carries(p, q, w) && HasCounts(q)
    ensures q.Now().Valid() && Playable(q.Now(), Carried(p, q, w), [])
  {
    hide Plan.Smooth, Plan.Transition, Follows, Apart, Bijection, NoneShrinks, Grown;
    CarriesNeeds(p, q, w);
    StoredStays(p.Now(), w);
    FollowsSize(p, q);
    StoredUnderNewNames(p.Now(), q.Now(), w.store);
    StoredSuffices(q.Now(), Carried(p, q, w));
  }

  lemma FollowsSize(p: Plan, q: Plan)
    requires Follows(p, q)
    ensures q.size == p.size
  {
  }

  lemma StoredSuffices(e: Epoch, w: World)
    requires Playable(e, World(map[], map[], w.store), [])
    ensures Playable(e, w, [])
  {
  }

  lemma CarriedTransition(p: Plan, q: Plan, w: World)
    requires Carries(p, q, w) && Becomes(p, w.missing, q) && HasCounts(q)
    ensures q.Smooth() && q.Transition(Carried(p, q, w).missing)
  {
    hide Plan.Smooth, Plan.Transition, Follows, Apart, Bijection, NoneShrinks, Grown, IsPMax, Playable;
    CarriesNeeds(p, q, w);
    GrownTransition(p, q, w.missing);
  }

  /** Hazards or not, every turn leaves an orderly state. */
  lemma TurnKeepsOrder(s: Life, t: Turn, s': Life)
    requires Orderly(s) && IsTurn(s, t, s')
    ensures Orderly(s')
  {
    hide Plan.Smooth, Plan.Transition, Legal, Next, Playable, Accounted, Redistributes, IsStep;
    match t {
      case Proceed(coin, ev) => ProceedKeepsOrder(s, coin, ev, s');
      case Redistribute(q) => RedistributionKeepsOrder(s, q);
    }
  }

  lemma ProceedKeepsOrder(s: Life, coin: real, ev: Event, s': Life)
    requires Orderly(s) && IsTurn(s, Proceed(coin, ev), s')
    ensures Orderly(s')
  {
    hide Plan.Smooth, Plan.Transition, Legal, Next, Playable, Accounted;
    ProceedKeepsPlan(s, coin, ev);
    StepAccounts(s.plan.Now(), coin, s.sys, ev);
  }

  /** A redistribution changes which replica has which label, and nothing that clients see. */
  lemma RedistributionKeepsOrder(s: Life, q: Plan)
    requires Orderly(s) && Redistributes(s.plan, s.sys, q)
    ensures Orderly(Life(q, s.sys.(world := Carried(s.plan, q, s.sys.world))))
  {
    hide Plan.Smooth, Plan.Transition, Apart, Follows, NoneShrinks, IsPMax, Playable, KeysKnown, Carried;
    PlansCarry(s.plan, q, s.sys.world);
    CarriedPlayable(s.plan, q, s.sys.world);
    CarriedTransition(s.plan, q, s.sys.world);
  }

  /** What `update_distribution` leaves for the same keys is what such a turn leaves. */
  lemma UpdateIsRedistribution(p: Plan, t: Target, w: World, q: Plan, missing': Entries)
    requires Moved(p, t, w.missing, q, missing') && Follows(p, q)
    ensures HasCounts(q) && Becomes(p, w.missing, q)
    ensures Carried(p, q, w) == w.(missing := missing')
  {
    hide Redistributed, Updated, Gives, Grown, IsPMax, HasProbs;
  }

  // ------------------------------------------------------------------ every life

  function PushedInLife(turns: seq<Turn>): seq<Queued> {
    if turns == [] then []
    else
      PushedInLife(turns[..|turns| - 1])
      + match turns[|turns| - 1] {
          case Proceed(_, ev) => PushedIn([ev])
          case Redistribute(_) => []
        }
  }

  lemma {:induction false} PushedForLife(states: seq<Life>, turns: seq<Turn>, i: nat)
    requires IsLife(states, turns) && i < |states|
    ensures states[i].sys.pushed == PushedInLife(turns[..i])
  {
    hide IsTurn;
    if i > 0 {
      PushedForLife(states, turns, i - 1);
      assert IsTurn(states[i - 1], turns[i - 1], states[i]);
      PushedInTurn(states[i - 1], turns[i - 1], states[i]);
      assert turns[..i][..i - 1] == turns[..i - 1];
    }
  }

  lemma PushedInTurn(s: Life, t: Turn, s': Life)
    requires IsTurn(s, t, s')
    ensures s'.sys.pushed == s.sys.pushed + match t { case Proceed(_, ev) => PushedIn([ev]) case Redistribute(_) => [] }
  {
    hide Redistributes, Legal, Playable, BatchInBounds;
    match t {
      case Proceed(_, ev) => assert [ev][..0] == [];
      case Redistribute(_) =>
    }
  }

  /** Over any number of redistributions, with hazards or without: in every state of every life the plan is
      smooth, every replica's label is stored, and the promises that have received an answer are those of
      the executed operations - once each, in push order. */
  lemma {:induction false} AlwaysInOrder(states: seq<Life>, turns: seq<Turn>, i: nat)
    requires IsLife(states, turns) && i < |states|
    requires var (p, w) := (states[0].plan, states[0].sys.world);
             p.Smooth() && p.Transition(w.missing) && Playable(p.Now(), w, [])
    ensures Orderly(states[i]) && states[i].plan.size == states[0].plan.size
    ensures states[i].sys.pushed == PushedInLife(turns[..i])
    ensures var s := states[i].sys;
            && s.done <= s.pushed && |s.answers| == |s.done|
            && |s.pushed| == |s.answers| + |s.filling.promises| + |s.filling.queue|
            && forall j :: 0 <= j < |s.answers| ==> s.answers[j].0 == s.pushed[j].promise
  {
    hide IsTurn, Playable, Plan.Smooth, Plan.Transition, Accounted;
    if i == 0 {
      LifeBegins(states[0]);
    } else {
      AlwaysInOrder(states, turns, i - 1);
      assert IsTurn(states[i - 1], turns[i - 1], states[i]);
      TurnKeepsOrder(states[i - 1], turns[i - 1], states[i]);
      OneSize(states[i - 1], turns[i - 1], states[i]);
    }
    PushedForLife(states, turns, i);
    AccountedCounts(states[i].plan.Now(), states[i].sys);
  }

  lemma LifeBegins(s: Life)
    requires s.sys.pushed == s.sys.done == [] && s.sys.answers == [] && s.sys.filling == Filling([], [], [], [])
    requires s.plan.Smooth() && s.plan.Transition(s.sys.world.missing) && Playable(s.plan.Now(), s.sys.world, [])
    ensures Orderly(s)
  {
    hide Plan.Smooth, Plan.Transition, Playable;
    NothingHeld([]);
  }

  lemma OneSize(s: Life, t: Turn, s': Life)
    requires IsTurn(s, t, s')
    ensures s'.plan.size == s.plan.size
  {
    hide IsStep, NoneShrinks, KeysKnown, IsPMax, HasCounts, Apart;
  }

  // ------------------------------------------------------------------ what clients are told

  /** Batches are hazard-free for the clients' keys ks, and a redistribution gives these keys only replicas
      that are waited for. */
  ghost predicate Serves(s: Life, t: Turn, ks: set<string>) {
    match t
    case Proceed(coin, ev) =>
      && Paired(s.sys.filling) && KeysKnown(s.plan.Now(), s.sys.filling) && Legal(s.plan.Now(), s.sys, ev)
      && Clean(s.plan.Now(), s.sys, ev, ks)
    case Redistribute(q) => GrowersKnown(s.plan, q, s.sys.world, ks)
  }

  /** The answers so far are those of the map, and the clients' keys are coherent with it. */
  ghost predicate Going(l: Logical, s: Life, ks: set<string>) {
    Orderly(s) && ks <= Elems(s.plan.keys) && Inv(s.plan.Now(), l, s.sys, ks)
  }

  lemma ProceedGoesOn(l: Logical, s: Life, coin: real, ev: Event, s': Life, ks: set<string>)
    requires Going(l, s, ks) && IsTurn(s, Proceed(coin, ev), s') && Serves(s, Proceed(coin, ev), ks)
    ensures Going(l, s', ks)
  {
    hide Plan.Smooth, Plan.Transition, Legal, Clean, WorldCoherent, ClientsWithin, Next, Playable, Accounted;
    ProceedKeepsOrder(s, coin, ev, s');
    ProceedKeepsPlan(s, coin, ev);
    StepKeepsInv(s.plan.Now(), coin, l, s.sys, ev, ks);
  }

  lemma RedistributionGoesOn(l: Logical, s: Life, q: Plan, ks: set<string>)
    requires Going(l, s, ks) && Redistributes(s.plan, s.sys, q) && GrowersKnown(s.plan, q, s.sys.world, ks)
    ensures Going(l, Life(q, s.sys.(world := Carried(s.plan, q, s.sys.world))), ks)
  {
    hide Plan.Smooth, Plan.Transition, Apart, Bijection, Coherent, Follows, NoneShrinks, GrowersKnown;
    hide Carried, IsPMax, Playable, KeysKnown;
    var p, w := s.plan, s.sys.world;
    RedistributionKeepsOrder(s, q);
    SameKeysKept(p, q, ks);
    PlansCarry(p, q, w);
    AllCarried(p, q, w, MapRun(l, ItemOps(s.sys.done)), ks);
  }

  lemma TurnGoesOn(l: Logical, s: Life, t: Turn, s': Life, ks: set<string>)
    requires Going(l, s, ks) && IsTurn(s, t, s') && Serves(s, t, ks)
    ensures Going(l, s', ks)
  {
    hide Going, IsStep, Redistributes, GrowersKnown, Clean, Legal;
    match t {
      case Proceed(coin, ev) => ProceedGoesOn(l, s, coin, ev, s', ks);
      case Redistribute(q) => RedistributionGoesOn(l, s, q, ks);
    }
  }

  ghost predicate AlwaysServes(states: seq<Life>, turns: seq<Turn>, ks: set<string>)
    requires |states| == |turns| + 1
  {
    forall i :: 0 <= i < |turns| ==> Serves(states[i], turns[i], ks)
  }

  /** In every state of every life in which the batches are hazard-free for the clients' keys and each
      redistribution gives those keys only new replicas that are waited for, each promise of an executed
      operation has received - once, in push order - what a plain map answers. */
  lemma {:induction false} AlwaysLinearizable(l: Logical, states: seq<Life>, turns: seq<Turn>, i: nat, ks: set<string>)
    requires IsLife(states, turns) && AlwaysServes(states, turns, ks) && i < |states|
    requires var (p, w) := (states[0].plan, states[0].sys.world);
             p.Smooth() && p.Transition(w.missing) && ks <= Elems(p.keys) && WorldCoherent(p.Now(), w, l, ks)
    ensures Going(l, states[i], ks)
    ensures var s := states[i].sys;
            && s.done <= s.pushed && |s.answers| == |s.done|
            && |s.pushed| == |s.answers| + |s.filling.promises| + |s.filling.queue|
            && forall j :: 0 <= j < |s.answers| ==>
                 s.answers[j] == (s.pushed[j].promise, MapAnswers(l, ItemOps(s.pushed))[j])
  {
    hide IsTurn, Serves, WorldCoherent, Plan.Smooth, Plan.Transition, Accounted, Playable, Orderly;
    if i == 0 {
      ServiceBegins(l, states[0], ks);
    } else {
      AlwaysLinearizable(l, states, turns, i - 1, ks);
      assert IsTurn(states[i - 1], turns[i - 1], states[i]) && Serves(states[i - 1], turns[i - 1], ks);
      TurnGoesOn(l, states[i - 1], turns[i - 1], states[i], ks);
    }
    AccountedCounts(states[i].plan.Now(), states[i].sys);
    AnswersArePrefix(states[i].plan.Now(), l, states[i].sys, ks);
  }

  lemma ServiceBegins(l: Logical, s: Life, ks: set<string>)
    requires s.sys.pushed == s.sys.done == [] && s.sys.answers == [] && s.sys.filling == Filling([], [], [], [])
    requires s.plan.Smooth() && s.plan.Transition(s.sys.world.missing) && ks <= Elems(s.plan.keys)
    requires WorldCoherent(s.plan.Now(), s.sys.world, l, ks)
    ensures Going(l, s, ks)
  {
    hide Plan.Smooth, Plan.Transition, Coherent, Playable;
    LifeBegins(s);
    NothingExpected(l);
  }

  // ------------------------------------------------------------------ uniformity

  /** With alpha = 1/n the fake weights stay non-negative. */
  lemma WeightsStay(s: Life, t: Turn, s': Life)
    requires IsTurn(s, t, s') && s.plan.Weighted() && IsAlpha(s.plan.alpha, s.plan.size) && s.plan.size > 0
    ensures s'.plan.Weighted() && IsAlpha(s'.plan.alpha, s'.plan.size) && s'.plan.size > 0
  {
    hide IsStep, NoneShrinks, KeysKnown, Apart, Gives, Redistributed;
    if t.Redistribute? {
      var q := t.plan;
      PMaxIsEnough(q.pMax, q.size, Grown(s.sys.world.missing, q.keys, NatCounts(q.probs, q.alpha), s.plan.Counts()),
                   q.frequency);
      CountsWeigh(q);
    }
  }

  lemma {:induction false} WeightedForLife(states: seq<Life>, turns: seq<Turn>, i: nat)
    requires IsLife(states, turns) && i < |states|
    requires states[0].plan.Weighted() && IsAlpha(states[0].plan.alpha, states[0].plan.size) && states[0].plan.size > 0
    ensures states[i].plan.Weighted() && IsAlpha(states[i].plan.alpha, states[i].plan.size) && states[i].plan.size > 0
  {
    hide IsTurn, Plan.Weighted, IsAlpha;
    if i > 0 {
      WeightedForLife(states, turns, i - 1);
      assert IsTurn(states[i - 1], turns[i - 1], states[i]);
      WeightsStay(states[i - 1], turns[i - 1], states[i]);
    }
  }

  /** In every state of every life at alpha = 1/n, with hazards or without: the slots of the next batch touch
      every sequence of labels with the same probability if and only if the dummy has not been looked up
      since `key_to_frequency_` was last replaced and, while a key is in transition, real draws find a client
      operation. */
  lemma AlwaysSmooth(states: seq<Life>, turns: seq<Turn>, i: nat, busies: seq<real>)
    requires IsLife(states, turns) && i < |states| && busies != []
    requires var (p, w) := (states[0].plan, states[0].sys.world);
             && p.Smooth() && p.Transition(w.missing) && Playable(p.Now(), w, [])
             && p.Weighted() && IsAlpha(p.alpha, p.size) && p.size > 0
    ensures var (p, missing) := (states[i].plan, states[i].sys.world.missing);
            && p.Smooth() && p.Transition(missing) && p.Weighted()
            && |p.frequency| > 0 && p.size > 0 && |p.keys| == |p.probs| && p.pMax > 0.0
            && AllFit(SlotsOf(p, missing, busies), Place(p))
            && (AllSequencesUniform(p.size, SlotsOf(p, missing, busies), Place(p))
                <==> p.dummyKey !in p.frequency && AlwaysBusy(p, missing, busies))
  {
    hide IsLife, Plan.Smooth, Plan.Transition, Plan.Weighted, Playable, IsAlpha, Accounted;
    hide AllSequencesUniform, AlwaysBusy, AllFit, Place;
    AlwaysInOrder(states, turns, i);
    WeightedForLife(states, turns, i);
    BatchIsSmooth(states[i].plan, states[i].sys.world.missing, busies);
  }
}
