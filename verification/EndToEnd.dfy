/** Whole runs of one consumer: clients push at any time, slots are filled, batches are executed. */
module EndToEnd {
  import opened Refinement
  import opened Hazards
  import opened Batching

  datatype Event = Push(item: Queued) | FillNext(draw: Draw) | Execute(replicas: seq<nat>)

  /** `pushed` are all operations that clients ever queued, `done` those that were executed, and
      `answers` what the promises received, in order. */
  datatype System = System(pushed: seq<Queued>, filling: Filling, world: World, done: seq<Queued>,
                           answers: seq<(nat, string)>)

  function AccessesOf(f: Filling, replicas: seq<nat>): (s: seq<Access>)
    requires |f.batch| == |f.trues| == |replicas|
    ensures |s| == |replicas|
  {
    seq(|replicas|, i requires 0 <= i < |replicas| => Access(f.batch[i], f.trues[i], replicas[i]))
  }

  function ItemOps(items: seq<Queued>): (s: seq<Op>)
    ensures |s| == |items|
  {
    seq(|items|, i requires 0 <= i < |items| => items[i].op)
  }

  function Promises(items: seq<Queued>): (s: seq<nat>)
    ensures |s| == |items|
  {
    seq(|items|, i requires 0 <= i < |items| => items[i].promise)
  }

  function Zip(promises: seq<nat>, texts: seq<string>): (s: seq<(nat, string)>)
    requires |promises| <= |texts|
    ensures |s| == |promises|
  {
    seq(|promises|, i requires 0 <= i < |promises| => (promises[i], texts[i]))
  }

  ghost predicate KeysKnown(e: Epoch, f: Filling) {
    && (forall i :: 0 <= i < |f.queue| ==> f.queue[i].op.key in e.counts)
    && (forall i :: 0 <= i < |f.batch| ==> f.batch[i].key in e.counts)
  }

  /** Clients use registered keys, the distributions range over them, and a batch stays inside the
      cached vectors. */
  ghost predicate Legal(e: Epoch, s: System, ev: Event)
    requires Paired(s.filling) && KeysKnown(e, s.filling)
  {
    match ev
    case Push(item) => item.op.key in e.counts
    case FillNext(d) =>
      && d.realKey in e.counts && d.fakeKey in e.counts
      && forall i :: 0 <= i < |d.arrivals| ==> d.arrivals[i].op.key in e.counts
    case Execute(replicas) =>
      && |replicas| == |s.filling.batch|
      && (forall i :: 0 <= i < |replicas| ==> replicas[i] < e.counts[s.filling.batch[i].key])
      && Playable(e, s.world, AccessesOf(s.filling, replicas))
      && BatchInBounds(e, s.world, AccessesOf(s.filling, replicas))
  }

  /** Clients use the keys ks; if a batch is executed, it is hazard-free for them. */
  ghost predicate Clean(e: Epoch, s: System, ev: Event, ks: set<string>)
    requires Paired(s.filling) && KeysKnown(e, s.filling) && Legal(e, s, ev)
  {
    match ev
    case Push(item) => item.op.key in ks
    case FillNext(d) => QueuedWithin(d.arrivals, ks)
    case Execute(replicas) => BatchHazardFree(e, s.world, AccessesOf(s.filling, replicas), ks)
  }

  ghost predicate QueuedWithin(items: seq<Queued>, ks: set<string>) {
    forall i :: 0 <= i < |items| ==> items[i].op.key in ks
  }

  /** Queued operations, and those of clients in the batch, use the keys ks. */
  ghost predicate ClientsWithin(f: Filling, ks: set<string>) {
    && QueuedWithin(f.queue, ks) && |f.batch| == |f.trues|
    && forall i :: 0 <= i < |f.batch| && f.trues[i] ==> f.batch[i].key in ks
  }

  ghost function Next(e: Epoch, coin: real, s: System, ev: Event): System
    requires Paired(s.filling) && KeysKnown(e, s.filling) && Legal(e, s, ev)
  {
    match ev
    case Push(item) => s.(pushed := s.pushed + [item], filling := s.filling.(queue := s.filling.queue + [item]))
    case FillNext(d) => s.(pushed := s.pushed + d.arrivals, filling := FillSlot(s.filling, coin, d))
    case Execute(replicas) =>
      var accesses := AccessesOf(s.filling, replicas);
      var texts := Delivered(accesses, Played(e, s.world, accesses).texts);
      TrueOpsOfTaken(s.filling, replicas);
      DeliveredCount(accesses, Played(e, s.world, accesses).texts);
      s.(filling := Filling(s.filling.queue, [], [], []),
         world := AfterBatch(e, s.world, accesses),
         done := s.done + Taken(s.filling.batch, s.filling.trues, s.filling.promises),
         answers := s.answers + Zip(s.filling.promises, texts))
  }

  lemma {:induction false} DeliveredCount(accesses: seq<Access>, texts: seq<string>)
    requires |texts| >= |accesses|
    ensures |Delivered(accesses, texts)| == |TrueOps(accesses)|
    decreases |accesses|
  {
    if accesses != [] {
      DeliveredCount(accesses[..|accesses| - 1], texts);
    }
  }

  /** The flags pair operations and promises correctly. */
  lemma {:induction false} TrueOpsOfTaken(f: Filling, replicas: seq<nat>)
    requires |f.batch| == |f.trues| == |replicas| && Trues(f.trues) == |f.promises|
    ensures ItemOps(Taken(f.batch, f.trues, f.promises)) == TrueOps(AccessesOf(f, replicas))
    ensures Promises(Taken(f.batch, f.trues, f.promises)) == f.promises
    ensures |TrueOps(AccessesOf(f, replicas))| == |f.promises|
    decreases |replicas|
  {
    if replicas != [] {
      hide AccessesOf, TrueOps, ItemOps, Promises;
      var n := |replicas| - 1;
      var promises := if f.trues[n] then f.promises[..|f.promises| - 1] else f.promises;
      var front := Filling(f.queue, f.batch[..n], f.trues[..n], promises);
      TrueOpsOfTaken(front, replicas[..n]);
      LastAccessOf(f, front, replicas);
      if f.trues[n] {
        ItemsSnoc(Taken(front.batch, front.trues, promises), Queued(f.batch[n], f.promises[|f.promises| - 1]));
      }
    }
  }

  lemma LastAccessOf(f: Filling, front: Filling, replicas: seq<nat>)
    requires |f.batch| == |f.trues| == |replicas| > 0
    requires front.batch == f.batch[..|replicas| - 1] && front.trues == f.trues[..|replicas| - 1]
    ensures TrueOps(AccessesOf(f, replicas))
            == TrueOps(AccessesOf(front, replicas[..|replicas| - 1]))
               + if f.trues[|replicas| - 1] then [f.batch[|replicas| - 1]] else []
  {
    assert AccessesOf(f, replicas)[..|replicas| - 1] == AccessesOf(front, replicas[..|replicas| - 1]);
  }

  lemma ItemsSnoc(items: seq<Queued>, item: Queued)
    ensures ItemOps(items + [item]) == ItemOps(items) + [item.op]
    ensures Promises(items + [item]) == Promises(items) + [item.promise]
  {
  }

  /** What the clients of these operations must be told. */
  function Expected(l: Logical, items: seq<Queued>): (s: seq<(nat, string)>)
    ensures |s| == |items|
  {
    Zip(Promises(items), MapAnswers(l, ItemOps(items)))
  }

  /** Executed, taken and queued operations are the pushed ones, in order; each executed one has been
      answered, on its own promise. */
  ghost predicate Accounted(e: Epoch, s: System) {
    && Paired(s.filling) && KeysKnown(e, s.filling)
    && s.done + Flow(s.filling) == s.pushed
    && FirstOf(s.answers) == Promises(s.done)
  }

  function FirstOf(answers: seq<(nat, string)>): (s: seq<nat>)
    ensures |s| == |answers|
  {
    seq(|answers|, i requires 0 <= i < |answers| => answers[i].0)
  }

  /** And the executed ones have been answered as expected, the replicas of the clients' keys being
      coherent. */
  ghost predicate Inv(e: Epoch, l: Logical, s: System, ks: set<string>) {
    && Accounted(e, s) && ClientsWithin(s.filling, ks) && s.answers == Expected(l, s.done)
    && WorldCoherent(e, s.world, MapRun(l, ItemOps(s.done)), ks)
  }

  ghost predicate WorldCoherent(e: Epoch, w: World, l: Logical, ks: set<string>) {
    e.Valid() && Playable(e, w, []) && Coherent(e, w.cache, w.missing, w.store, l, ks)
  }

  // ------------------------------------------------------------------ every run

  lemma PushAccounts(e: Epoch, coin: real, s: System, item: Queued)
    requires Accounted(e, s) && Legal(e, s, Push(item))
    ensures Accounted(e, Next(e, coin, s, Push(item)))
  {
    var s' := Next(e, coin, s, Push(item));
    assert Flow(s'.filling) == Flow(s.filling) + [item];
    assert s'.done + Flow(s'.filling) == s.done + Flow(s.filling) + [item];
  }

  lemma FillAccounts(e: Epoch, coin: real, s: System, d: Draw)
    requires Accounted(e, s) && Legal(e, s, FillNext(d))
    ensures Accounted(e, Next(e, coin, s, FillNext(d)))
  {
    hide FillSlot, Flow, Paired, KeysKnown, FirstOf, Promises;
    SlotConserves(s.filling, coin, d);
    FillKnown(e, s.filling, coin, d);
    Associative(s.done, Flow(s.filling), d.arrivals);
  }

  lemma FillKnown(e: Epoch, f: Filling, coin: real, d: Draw)
    requires KeysKnown(e, f) && d.realKey in e.counts && d.fakeKey in e.counts
    requires forall i :: 0 <= i < |d.arrivals| ==> d.arrivals[i].op.key in e.counts
    ensures KeysKnown(e, FillSlot(f, coin, d))
  {
  }

  lemma ExecuteAccounts(e: Epoch, coin: real, s: System, replicas: seq<nat>)
    requires Accounted(e, s) && Legal(e, s, Execute(replicas))
    ensures Accounted(e, Next(e, coin, s, Execute(replicas)))
  {
    hide Playable, BatchInBounds, FirstOf, Promises, Zip, Flow, Taken, Trues;
    var accesses := AccessesOf(s.filling, replicas);
    TrueOpsOfTaken(s.filling, replicas);
    DeliveredCount(accesses, Played(e, s.world, accesses).texts);
    ExecutedInOrder(s.pushed, s.filling, s.done, s.answers, Delivered(accesses, Played(e, s.world, accesses).texts));
  }

  lemma ExecutedInOrder(pushed: seq<Queued>, f: Filling, done: seq<Queued>, answers: seq<(nat, string)>,
                        texts: seq<string>)
    requires Paired(f) && done + Flow(f) == pushed && FirstOf(answers) == Promises(done)
    requires Promises(Taken(f.batch, f.trues, f.promises)) == f.promises && |texts| == |f.promises|
    ensures var (f', done') := (Filling(f.queue, [], [], []), done + Taken(f.batch, f.trues, f.promises));
            && Paired(f') && done' + Flow(f') == pushed
            && FirstOf(answers + Zip(f.promises, texts)) == Promises(done')
  {
    hide Taken;
    var items := Taken(f.batch, f.trues, f.promises);
    NothingHeld(f.queue);
    assert done + (items + f.queue) == (done + items) + f.queue;
    assert FirstOf(answers + Zip(f.promises, texts)) == FirstOf(answers) + f.promises;
    assert Promises(done + items) == Promises(done) + Promises(items);
  }

  lemma StepAccounts(e: Epoch, coin: real, s: System, ev: Event)
    requires Accounted(e, s) && Legal(e, s, ev)
    ensures Accounted(e, Next(e, coin, s, ev))
  {
    match ev {
      case Push(item) => PushAccounts(e, coin, s, item);
      case FillNext(d) => FillAccounts(e, coin, s, d);
      case Execute(replicas) => ExecuteAccounts(e, coin, s, replicas);
    }
  }

  lemma NothingHeld(queue: seq<Queued>)
    ensures Paired(Filling(queue, [], [], [])) && Flow(Filling(queue, [], [], [])) == queue
  {
  }

  /** A fill event fills the next slot as `create_security_batch` does. */
  lemma FillIsSlot(e: Epoch, coin: real, s: System, d: Draw)
    requires Paired(s.filling) && KeysKnown(e, s.filling) && Legal(e, s, FillNext(d))
    ensures var (f, f', queue) := (s.filling, Next(e, coin, s, FillNext(d)).filling, s.filling.queue + d.arrivals);
            && |f'.batch| == |f.batch| + 1 && |f'.trues| == |f.trues| + 1
            && IsSlotOp(f'.batch[|f.batch|], f'.trues[|f.trues|], queue, coin, d)
            && f'.queue == if f'.trues[|f.trues|] then queue[1..] else queue
  {
    SlotAppends(s.filling, coin, d);
  }

  ghost predicate IsRun(e: Epoch, coin: real, states: seq<System>, events: seq<Event>) {
    && |states| == |events| + 1
    && states[0].pushed == states[0].done == [] && states[0].answers == []
    && states[0].filling == Filling([], [], [], [])
    && forall i :: 0 <= i < |events| ==> IsStep(e, coin, states[i], events[i], states[i + 1])
  }

  ghost predicate IsStep(e: Epoch, coin: real, s: System, ev: Event, s': System) {
    Paired(s.filling) && KeysKnown(e, s.filling) && Legal(e, s, ev) && s' == Next(e, coin, s, ev)
  }

  /** Everything that clients push in these events. */
  function PushedIn(events: seq<Event>): seq<Queued> {
    if events == [] then []
    else
      PushedIn(events[..|events| - 1])
      + match events[|events| - 1] {
          case Push(item) => [item]
          case FillNext(d) => d.arrivals
          case Execute(_) => []
        }
  }

  lemma {:induction false} PushedAre(e: Epoch, coin: real, states: seq<System>, events: seq<Event>, i: nat)
    requires IsRun(e, coin, states, events) && i < |states|
    ensures states[i].pushed == PushedIn(events[..i])
  {
    hide Legal, Playable, BatchInBounds;
    if i > 0 {
      PushedAre(e, coin, states, events, i - 1);
      assert IsStep(e, coin, states[i - 1], events[i - 1], states[i]);
      assert events[..i][..i - 1] == events[..i - 1];
    }
  }

  /** In every state of every run, with hazards or without: the operations executed so far are a prefix
      of those pushed, the rest is in the batch or queued, and the promises that have received an answer
      are those of the executed operations - once each, in push order. */
  lemma {:induction false} PromisesInOrder(e: Epoch, coin: real, states: seq<System>, events: seq<Event>, i: nat)
    requires IsRun(e, coin, states, events) && i < |states|
    ensures Accounted(e, states[i]) && states[i].pushed == PushedIn(events[..i])
    ensures var s := states[i];
            && s.done <= s.pushed && |s.answers| == |s.done|
            && |s.pushed| == |s.answers| + |s.filling.promises| + |s.filling.queue|
            && forall j :: 0 <= j < |s.answers| ==> s.answers[j].0 == s.pushed[j].promise
  {
    hide Legal;
    if i == 0 {
      NothingHeld([]);
    } else {
      PromisesInOrder(e, coin, states, events, i - 1);
      assert IsStep(e, coin, states[i - 1], events[i - 1], states[i]);
      StepAccounts(e, coin, states[i - 1], events[i - 1]);
    }
    AccountedCounts(e, states[i]);
    PushedAre(e, coin, states, events, i);
  }

  lemma AccountedCounts(e: Epoch, s: System)
    requires Accounted(e, s)
    ensures s.done <= s.pushed && |s.answers| == |s.done|
    ensures |s.pushed| == |s.answers| + |s.filling.promises| + |s.filling.queue|
    ensures forall j :: 0 <= j < |s.answers| ==> s.answers[j].0 == s.pushed[j].promise
  {
    TakenCount(s.filling.batch, s.filling.trues, s.filling.promises);
    forall j | 0 <= j < |s.answers|
      ensures s.answers[j].0 == s.pushed[j].promise
    {
      assert FirstOf(s.answers)[j] == Promises(s.done)[j];
    }
  }

  // ------------------------------------------------------------------ hazard-free runs

  /** One batch answers its client operations like the map. */
  lemma BatchAnswers(e: Epoch, w: World, l: Logical, f: Filling, replicas: seq<nat>, ks: set<string>)
    requires Paired(f) && ClientsWithin(f, ks)
    requires |replicas| == |f.batch| && Playable(e, w, AccessesOf(f, replicas))
    requires BatchInBounds(e, w, AccessesOf(f, replicas))
    requires BatchHazardFree(e, w, AccessesOf(f, replicas), ks) && Coherent(e, w.cache, w.missing, w.store, l, ks)
    ensures var accesses, items := AccessesOf(f, replicas), Taken(f.batch, f.trues, f.promises);
            var w' := AfterBatch(e, w, accesses);
            && Delivered(accesses, Played(e, w, accesses).texts) == MapAnswers(l, ItemOps(items))
            && Promises(items) == f.promises
            && Coherent(e, w'.cache, w'.missing, w'.store, MapRun(l, ItemOps(items)), ks)
  {
    var accesses := AccessesOf(f, replicas);
    hide Coherent, BatchInBounds, BatchHazardFree, MapRun, MapAnswers, Playable, AfterBatch, Answers, Taken;
    BatchRefines(e, w, accesses, l, ks);
    ClientAccesses(f, replicas, ks);
    ClientsAnswered(l, ks, accesses, Played(e, w, accesses).texts);
    TrueOpsOfTaken(f, replicas);
  }

  lemma ClientAccesses(f: Filling, replicas: seq<nat>, ks: set<string>)
    requires Paired(f) && ClientsWithin(f, ks) && |replicas| == |f.batch|
    ensures TrueWithin(AccessesOf(f, replicas), ks)
    ensures forall i :: 0 <= i < |replicas| && !AccessesOf(f, replicas)[i].isTrue ==>
              AccessesOf(f, replicas)[i].op.value == ""
  {
  }

  lemma ExecuteKeepsInv(e: Epoch, coin: real, l: Logical, s: System, replicas: seq<nat>, ks: set<string>)
    requires Inv(e, l, s, ks) && Legal(e, s, Execute(replicas)) && Clean(e, s, Execute(replicas), ks)
    ensures Inv(e, l, Next(e, coin, s, Execute(replicas)), ks)
  {
    hide Coherent, BatchInBounds, BatchHazardFree, MapRun, MapAnswers, Taken, Flow, Zip, Promises, Trues;
    ExecuteAccounts(e, coin, s, replicas);
    BatchAnswers(e, s.world, MapRun(l, ItemOps(s.done)), s.filling, replicas, ks);
    ExpectedExtends(l, s.done, Taken(s.filling.batch, s.filling.trues, s.filling.promises));
    StoreStays(e, s.world, AccessesOf(s.filling, replicas));
  }

  lemma StoreStays(e: Epoch, w: World, accesses: seq<Access>)
    requires Playable(e, w, accesses)
    ensures Playable(e, AfterBatch(e, w, accesses), [])
  {
    StoreKept(e, w, accesses);
  }

  lemma ExpectedExtends(l: Logical, done: seq<Queued>, items: seq<Queued>)
    ensures Expected(l, done + items)
            == Expected(l, done) + Zip(Promises(items), MapAnswers(MapRun(l, ItemOps(done)), ItemOps(items)))
    ensures MapRun(l, ItemOps(done + items)) == MapRun(MapRun(l, ItemOps(done)), ItemOps(items))
  {
    assert ItemOps(done + items) == ItemOps(done) + ItemOps(items);
    assert Promises(done + items) == Promises(done) + Promises(items);
    MapRunConcat(l, ItemOps(done), ItemOps(items));
  }

  lemma StepKeepsInv(e: Epoch, coin: real, l: Logical, s: System, ev: Event, ks: set<string>)
    requires Inv(e, l, s, ks) && Legal(e, s, ev) && Clean(e, s, ev, ks)
    ensures Inv(e, l, Next(e, coin, s, ev), ks)
  {
    hide Coherent, Inv, Legal, Clean, Next;
    match ev {
      case Push(item) => PushKeepsInv(e, coin, l, s, item, ks);
      case FillNext(d) => FillKeepsInv(e, coin, l, s, d, ks);
      case Execute(replicas) => ExecuteKeepsInv(e, coin, l, s, replicas, ks);
    }
  }

  lemma PushKeepsInv(e: Epoch, coin: real, l: Logical, s: System, item: Queued, ks: set<string>)
    requires Inv(e, l, s, ks) && Legal(e, s, Push(item)) && Clean(e, s, Push(item), ks)
    ensures Inv(e, l, Next(e, coin, s, Push(item)), ks)
  {
    hide WorldCoherent, Accounted, MapRun;
    AccountedOf(e, s);
    PushAccounts(e, coin, s, item);
  }

  lemma AccountedOf(e: Epoch, s: System)
    requires Accounted(e, s)
    ensures Paired(s.filling) && KeysKnown(e, s.filling)
  {
  }

  lemma FillKeepsInv(e: Epoch, coin: real, l: Logical, s: System, d: Draw, ks: set<string>)
    requires Inv(e, l, s, ks) && Legal(e, s, FillNext(d)) && Clean(e, s, FillNext(d), ks)
    ensures Inv(e, l, Next(e, coin, s, FillNext(d)), ks)
  {
    hide WorldCoherent, Accounted, MapRun;
    AccountedOf(e, s);
    FillAccounts(e, coin, s, d);
    FillWithin(s.filling, coin, d, ks);
  }

  lemma FillWithin(f: Filling, coin: real, d: Draw, ks: set<string>)
    requires Paired(f) && ClientsWithin(f, ks) && QueuedWithin(d.arrivals, ks)
    ensures ClientsWithin(FillSlot(f, coin, d), ks)
  {
    hide Trues;
  }

  ghost predicate IsCleanRun(e: Epoch, coin: real, states: seq<System>, events: seq<Event>, ks: set<string>) {
    && IsRun(e, coin, states, events)
    && forall i :: 0 <= i < |events| ==> IsCleanStep(e, coin, states[i], events[i], states[i + 1], ks)
  }

  ghost predicate IsCleanStep(e: Epoch, coin: real, s: System, ev: Event, s': System, ks: set<string>) {
    IsStep(e, coin, s, ev, s') && Clean(e, s, ev, ks)
  }

  /** The end-to-end theorem.  In every state of every interleaving of clients with the consumer in
      which the executed batches are hazard-free, each promise of an executed operation has received -
      once, in push order - what a plain map answers to its own operation when it executes the pushed
      operations in order. */
  lemma {:induction false} Linearizable(e: Epoch, coin: real, l: Logical, states: seq<System>, events: seq<Event>,
                                        i: nat, ks: set<string>)
    requires IsCleanRun(e, coin, states, events, ks) && i < |states|
    requires WorldCoherent(e, states[0].world, l, ks)
    ensures Inv(e, l, states[i], ks) && states[i].pushed == PushedIn(events[..i])
    ensures var s := states[i];
            && s.done <= s.pushed && |s.answers| == |s.done|
            && |s.pushed| == |s.answers| + |s.filling.promises| + |s.filling.queue|
            && forall j :: 0 <= j < |s.answers| ==>
                 s.answers[j] == (s.pushed[j].promise, MapAnswers(l, ItemOps(s.pushed))[j])
  {
    hide Legal, Clean, Accounted, WorldCoherent;
    PromisesInOrder(e, coin, states, events, i);
    if i == 0 {
      NothingExpected(l);
    } else {
      Linearizable(e, coin, l, states, events, i - 1, ks);
      assert IsCleanStep(e, coin, states[i - 1], events[i - 1], states[i], ks);
      StepKeepsInv(e, coin, l, states[i - 1], events[i - 1], ks);
    }
    AnswersArePrefix(e, l, states[i], ks);
  }

  lemma NothingExpected(l: Logical)
    ensures MapRun(l, ItemOps([])) == l && Expected(l, []) == []
  {
  }

  lemma AnswersArePrefix(e: Epoch, l: Logical, s: System, ks: set<string>)
    requires Inv(e, l, s, ks)
    ensures forall j :: 0 <= j < |s.answers| ==>
              j < |s.pushed| && s.answers[j] == (s.pushed[j].promise, MapAnswers(l, ItemOps(s.pushed))[j])
  {
    hide Coherent;
    ExpectedPrefix(l, s.done, Flow(s.filling));
  }

  lemma ExpectedPrefix(l: Logical, done: seq<Queued>, rest: seq<Queued>)
    ensures forall j :: 0 <= j < |done| ==>
              Expected(l, done)[j] == ((done + rest)[j].promise, MapAnswers(l, ItemOps(done + rest))[j])
  {
    assert ItemOps(done + rest) == ItemOps(done) + ItemOps(rest);
    MapRunConcat(l, ItemOps(done), ItemOps(rest));
  }

  lemma {:induction false} TakenCount(batch: seq<Op>, trues: seq<bool>, promises: seq<nat>)
    requires |batch| == |trues| && Trues(trues) == |promises|
    ensures |Taken(batch, trues, promises)| == |promises|
  {
    if batch != [] {
      var n := |batch| - 1;
      TakenCount(batch[..n], trues[..n], if trues[n] then promises[..|promises| - 1] else promises);
    }
  }

  // ------------------------------------------------------------------ runs from creation

  /** Cached vectors are as long as the counts, every label is stored, and no replica of these keys is
      missing: vectors of missing replicas have the size of the count and, for these keys, no bit set. */
  ghost predicate Quiet(e: Epoch, w: World, ks: set<string>) {
    Playable(e, w, []) && Wide(e, w.cache) && Sized(e, w.missing) && NonePending(w.missing, ks)
  }

  /** Clients use registered keys of ks, the distributions range over the registered keys, and no batch
      contains a replica of ks twice: nothing is asked of bounds, storage or hazards. */
  ghost predicate Plain(e: Epoch, s: System, ev: Event, ks: set<string>)
    requires Paired(s.filling) && KeysKnown(e, s.filling)
  {
    match ev
    case Push(item) => item.op.key in e.counts && item.op.key in ks
    case FillNext(d) =>
      && d.realKey in e.counts && d.fakeKey in e.counts
      && (forall i :: 0 <= i < |d.arrivals| ==> d.arrivals[i].op.key in e.counts)
      && QueuedWithin(d.arrivals, ks)
    case Execute(replicas) =>
      && |replicas| == |s.filling.batch|
      && (forall i :: 0 <= i < |replicas| ==> replicas[i] < e.counts[s.filling.batch[i].key])
      && NoneTwice(AccessesOf(s.filling, replicas), ks)
  }

  lemma PlainIsClean(e: Epoch, coin: real, s: System, ev: Event, ks: set<string>)
    requires Paired(s.filling) && KeysKnown(e, s.filling) && Plain(e, s, ev, ks) && Quiet(e, s.world, ks)
    ensures Legal(e, s, ev) && Clean(e, s, ev, ks) && Quiet(e, Next(e, coin, s, ev).world, ks)
  {
    if ev.Execute? {
      var accesses := AccessesOf(s.filling, ev.replicas);
      QuietBatch(e, s.world, accesses, ks);
    }
  }

  lemma QuietBatch(e: Epoch, w: World, accesses: seq<Access>, ks: set<string>)
    requires Quiet(e, w, ks) && NoneTwice(accesses, ks) && forall i :: 0 <= i < |accesses| ==> e.Has(accesses[i])
    ensures Playable(e, w, accesses) && BatchInBounds(e, w, accesses) && BatchHazardFree(e, w, accesses, ks)
    ensures Quiet(e, AfterBatch(e, w, accesses), ks)
  {
    hide Wide, BatchInBounds, BatchHazardFree;
    PlayableNow(e, w, accesses);
    BatchKeepsWide(e, w, accesses);
    StoreKept(e, w, accesses);
    var run := [accesses];
    assert run[..0] == [];
    DistinctLabelsSuffice(e, w, run, ks);
    assert RunHazardFree(e, w, run, ks) && AfterRun(e, w, []) == w;
  }

  /** A step of a run in which batches repeat no replica. */
  ghost predicate IsPlainStep(e: Epoch, coin: real, s: System, ev: Event, s': System, ks: set<string>) {
    && Paired(s.filling) && KeysKnown(e, s.filling) && Plain(e, s, ev, ks)
    && (Legal(e, s, ev) ==> s' == Next(e, coin, s, ev))
  }

  ghost predicate IsPlainRun(e: Epoch, coin: real, states: seq<System>, events: seq<Event>, ks: set<string>) {
    && |states| == |events| + 1
    && states[0].pushed == states[0].done == [] && states[0].answers == []
    && states[0].filling == Filling([], [], [], [])
    && forall i :: 0 <= i < |events| ==> IsPlainStep(e, coin, states[i], events[i], states[i + 1], ks)
  }

  /** From a quiet world, such as creation leaves, every run whose batches repeat no replica is
      linearizable. */
  lemma PlainRuns(e: Epoch, coin: real, l: Logical, states: seq<System>, events: seq<Event>, i: nat, ks: set<string>)
    requires IsPlainRun(e, coin, states, events, ks) && i < |states|
    requires Quiet(e, states[0].world, ks) && WorldCoherent(e, states[0].world, l, ks)
    ensures IsCleanRun(e, coin, states, events, ks) && Inv(e, l, states[i], ks)
    ensures var s := states[i];
            && s.done <= s.pushed && |s.answers| == |s.done|
            && |s.pushed| == |s.answers| + |s.filling.promises| + |s.filling.queue|
            && forall j :: 0 <= j < |s.answers| ==>
                 s.answers[j] == (s.pushed[j].promise, MapAnswers(l, ItemOps(s.pushed))[j])
  {
    hide Plain, Legal, Clean, Quiet, WorldCoherent, Inv;
    forall j | 0 <= j < |events|
      ensures IsCleanStep(e, coin, states[j], events[j], states[j + 1], ks)
    {
      PlainStepsAreClean(e, coin, states, events, j, ks);
    }
    Linearizable(e, coin, l, states, events, i, ks);
  }

  lemma {:induction false} PlainStepsAreClean(e: Epoch, coin: real, states: seq<System>, events: seq<Event>, j: nat,
                                              ks: set<string>)
    requires IsPlainRun(e, coin, states, events, ks) && j < |events| && Quiet(e, states[0].world, ks)
    ensures IsCleanStep(e, coin, states[j], events[j], states[j + 1], ks) && Quiet(e, states[j].world, ks)
    ensures Quiet(e, states[j + 1].world, ks)
  {
    hide Plain, Legal, Clean, Quiet;
    if j > 0 {
      PlainStepsAreClean(e, coin, states, events, j - 1, ks);
    }
    assert IsPlainStep(e, coin, states[j], events[j], states[j + 1], ks);
    PlainIsClean(e, coin, states[j], events[j], ks);
  }
}
