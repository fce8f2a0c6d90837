/** Client operations on their way through the proxy: queued with a promise, drawn into security
    batches among fake operations, executed, answered. */
module Batching {
  import opened Sums
  import opened Refinement
  import opened OpQueue

  /** An operation and the number of the promise that waits for it. */
  datatype Queued = Queued(op: Op, promise: nat)

  /** One slot's share of chance: what clients push before it, the coin, and the keys the two
      distributions would give. */
  datatype Draw = Draw(arrivals: seq<Queued>, u: real, realKey: string, fakeKey: string)

  /** The queue and the three vectors that `create_security_batch` fills. */
  datatype Filling = Filling(queue: seq<Queued>, batch: seq<Op>, trues: seq<bool>, promises: seq<nat>)

  /** One turn of the loop of `create_security_batch`. */
  function FillSlot(f: Filling, coin: real, d: Draw): Filling {
    var queue := f.queue + d.arrivals;
    if d.u < coin then
      if queue == [] then f.(batch := f.batch + [Op(d.realKey, "")], trues := f.trues + [false])
      else Filling(queue[1..], f.batch + [queue[0].op], f.trues + [true], f.promises + [queue[0].promise])
    else Filling(queue, f.batch + [Op(d.fakeKey, "")], f.trues + [false], f.promises)
  }

  function FillSlots(f: Filling, coin: real, draws: seq<Draw>): Filling {
    if draws == [] then f else FillSlot(FillSlots(f, coin, draws[..|draws| - 1]), coin, draws[|draws| - 1])
  }

  /** Everything that clients push during these slots. */
  function Arrived(draws: seq<Draw>): seq<Queued> {
    if draws == [] then [] else Arrived(draws[..|draws| - 1]) + draws[|draws| - 1].arrivals
  }

  /** The client operations of a batch with their promises: flag by flag, the j-th true operation
      belongs to the j-th promise. */
  function Taken(batch: seq<Op>, trues: seq<bool>, promises: seq<nat>): seq<Queued>
    requires |batch| == |trues| && Trues(trues) == |promises|
  {
    if batch == [] then []
    else
      var n := |batch| - 1;
      if trues[n] then
        Taken(batch[..n], trues[..n], promises[..|promises| - 1]) + [Queued(batch[n], promises[|promises| - 1])]
      else Taken(batch[..n], trues[..n], promises)
  }

  function Trues(trues: seq<bool>): nat {
    if trues == [] then 0 else Trues(trues[..|trues| - 1]) + if trues[|trues| - 1] then 1 else 0
  }

  /** As many promises as true flags, and every other operation is a get. */
  ghost predicate Paired(f: Filling) {
    && |f.batch| == |f.trues| && Trues(f.trues) == |f.promises|
    && forall i :: 0 <= i < |f.batch| && !f.trues[i] ==> f.batch[i].value == ""
  }

  /** What a consumer holds and what is still queued, in the order of arrival. */
  ghost function Flow(f: Filling): seq<Queued>
    requires Paired(f)
  {
    Taken(f.batch, f.trues, f.promises) + f.queue
  }

  /** A slot moves at most the front of the queue into the batch: operations taken so far followed
      by the queue only grow at the end, by what arrives. */
  lemma SlotConserves(f: Filling, coin: real, d: Draw)
    requires Paired(f)
    ensures var f' := FillSlot(f, coin, d);
            Paired(f') && |f'.batch| == |f.batch| + 1 && Flow(f') == Flow(f) + d.arrivals
  {
    hide Taken, Trues;
    var queue := f.queue + d.arrivals;
    if d.u < coin && queue != [] {
      TakeTrue(f.batch, f.trues, f.promises, queue[0]);
      assert queue == [queue[0]] + queue[1..];
    } else {
      TakeOther(f.batch, f.trues, f.promises, Op(if d.u < coin then d.realKey else d.fakeKey, ""));
    }
  }

  lemma TakeTrue(batch: seq<Op>, trues: seq<bool>, promises: seq<nat>, item: Queued)
    requires |batch| == |trues| && Trues(trues) == |promises|
    ensures Trues(trues + [true]) == |promises| + 1
    ensures Taken(batch + [item.op], trues + [true], promises + [item.promise])
            == Taken(batch, trues, promises) + [item]
  {
    assert (batch + [item.op])[..|batch|] == batch && (trues + [true])[..|trues|] == trues;
    assert (promises + [item.promise])[..|promises|] == promises;
  }

  lemma TakeOther(batch: seq<Op>, trues: seq<bool>, promises: seq<nat>, op: Op)
    requires |batch| == |trues| && Trues(trues) == |promises|
    ensures Trues(trues + [false]) == |promises|
    ensures Taken(batch + [op], trues + [false], promises) == Taken(batch, trues, promises)
  {
    assert (batch + [op])[..|batch|] == batch && (trues + [false])[..|trues|] == trues;
  }

  lemma {:induction false} SlotsConserve(f: Filling, coin: real, draws: seq<Draw>)
    requires Paired(f)
    ensures var f' := FillSlots(f, coin, draws);
            Paired(f') && |f'.batch| == |f.batch| + |draws| && Flow(f') == Flow(f) + Arrived(draws)
  {
    hide FillSlot, Flow, Paired;
    if draws != [] {
      SlotsConserve(f, coin, draws[..|draws| - 1]);
      SlotConserves(FillSlots(f, coin, draws[..|draws| - 1]), coin, draws[|draws| - 1]);
    }
  }

  // ------------------------------------------------------------------ what a slot holds

  /** The operation of a slot and its flag, for the queue that the slot finds. */
  ghost predicate IsSlotOp(op: Op, isTrue: bool, queue: seq<Queued>, coin: real, d: Draw) {
    && (isTrue <==> d.u < coin && queue != [])
    && (isTrue ==> op == queue[0].op)
    && (d.u < coin && queue == [] ==> op == Op(d.realKey, ""))
    && (d.u >= coin ==> op == Op(d.fakeKey, ""))
  }

  /** A slot appends one operation: the front of the queue, flagged true, if the coin says real and something is
      queued; a get of the key of the real distribution if nothing is; a get of the key of the fake
      distribution if the coin says fake.  Only the first takes an item, and its promise, from the queue. */
  lemma SlotAppends(f: Filling, coin: real, d: Draw)
    ensures var (f', queue) := (FillSlot(f, coin, d), f.queue + d.arrivals);
            && |f'.batch| == |f.batch| + 1 && |f'.trues| == |f.trues| + 1
            && f'.batch[..|f.batch|] == f.batch && f'.trues[..|f.trues|] == f.trues
            && IsSlotOp(f'.batch[|f.batch|], f'.trues[|f.trues|], queue, coin, d)
            && f'.queue == (if f'.trues[|f.trues|] then queue[1..] else queue)
            && f'.promises == f.promises + if f'.trues[|f.trues|] then [queue[0].promise] else []
  {
  }

  /** The slots so far: slot i is true exactly if the coin says real and more has arrived than the earlier slots
      have taken; then it holds the next item in the order of arrival. */
  ghost predicate IsSlot(was: seq<Queued>, batch: seq<Op>, trues: seq<bool>, coin: real, draws: seq<Draw>, i: nat)
    requires i < |draws| == |batch| == |trues|
  {
    var arrived, taken := was + Arrived(draws[..i + 1]), Trues(trues[..i]);
    taken <= |arrived| && IsSlotOp(batch[i], trues[i], arrived[taken..], coin, draws[i])
  }

  ghost predicate AreSlots(f: Filling, f': Filling, coin: real, draws: seq<Draw>) {
    && |f.batch| == |f.trues| && |f'.batch| == |f'.trues| == |f.batch| + |draws|
    && f'.batch[..|f.batch|] == f.batch && f'.trues[..|f.batch|] == f.trues
    && var (batch, trues, arrived) := (f'.batch[|f.batch|..], f'.trues[|f.batch|..], f.queue + Arrived(draws));
       && (forall i :: 0 <= i < |draws| ==> IsSlot(f.queue, batch, trues, coin, draws, i))
       && TakesFirst(f, f', arrived, Trues(trues))
  }

  /** The first n items that have arrived were taken, with their promises. */
  ghost predicate TakesFirst(f: Filling, f': Filling, arrived: seq<Queued>, n: nat) {
    n <= |arrived| && f'.queue == arrived[n..] && f'.promises == f.promises + PromisesOf(arrived[..n])
  }

  function PromisesOf(items: seq<Queued>): (s: seq<nat>)
    ensures |s| == |items|
  {
    seq(|items|, i requires 0 <= i < |items| => items[i].promise)
  }

  /** All slots of a security batch are such slots. */
  lemma {:induction false} SlotsAppend(f: Filling, coin: real, draws: seq<Draw>)
    requires |f.batch| == |f.trues|
    ensures AreSlots(f, FillSlots(f, coin, draws), coin, draws)
  {
    hide AreSlots, FillSlot;
    if draws == [] {
      NoSlots(f, coin);
    } else {
      var m := |draws| - 1;
      var g := FillSlots(f, coin, draws[..m]);
      SlotsAppend(f, coin, draws[..m]);
      SlotAppends(g, coin, draws[m]);
      OneMoreSlot(f, g, FillSlot(g, coin, draws[m]), coin, draws);
    }
  }

  lemma NoSlots(f: Filling, coin: real)
    requires |f.batch| == |f.trues|
    ensures AreSlots(f, f, coin, [])
  {
    assert f.batch[|f.batch|..] == [] && f.trues[|f.batch|..] == [];
  }

  lemma OneMoreSlot(f: Filling, g: Filling, f': Filling, coin: real, draws: seq<Draw>)
    requires draws != [] && AreSlots(f, g, coin, draws[..|draws| - 1])
    requires var (d, queue) := (draws[|draws| - 1], g.queue + draws[|draws| - 1].arrivals);
             && |f'.batch| == |g.batch| + 1 && |f'.trues| == |g.trues| + 1
             && f'.batch[..|g.batch|] == g.batch && f'.trues[..|g.trues|] == g.trues
             && IsSlotOp(f'.batch[|g.batch|], f'.trues[|g.trues|], queue, coin, d)
             && f'.queue == (if f'.trues[|g.trues|] then queue[1..] else queue)
             && f'.promises == g.promises + if f'.trues[|g.trues|] then [queue[0].promise] else []
    ensures AreSlots(f, f', coin, draws)
  {
    hide IsSlotOp, Trues, Arrived, IsSlot, TakesFirst;
    var b, isTrue := |f.batch|, f'.trues[|g.trues|];
    var batch, trues := g.batch[b..], g.trues[b..];
    TailGrows(g.batch, f'.batch, b);
    TailGrows(g.trues, f'.trues, b);
    TruesSnoc(trues, isTrue);
    ArrivedLast(f.queue, draws);
    TakesNext(f, g, f', f.queue + Arrived(draws[..|draws| - 1]), draws[|draws| - 1], Trues(trues), coin,
              f'.batch[|g.batch|], isTrue);
    OneMoreIsSlot(f.queue, batch, trues, coin, draws[..|draws| - 1], draws, f'.batch[|g.batch|], isTrue);
  }

  lemma TailGrows<T>(was: seq<T>, now: seq<T>, b: nat)
    requires b <= |was| && |now| == |was| + 1 && now[..|was|] == was
    ensures now[b..] == was[b..] + [now[|was|]] && now[..b] == was[..b]
  {
  }

  /** Queue and promises after one more slot. */
  lemma TakesNext(f: Filling, g: Filling, f': Filling, was: seq<Queued>, d: Draw, n: nat, coin: real, op: Op,
                  isTrue: bool)
    requires TakesFirst(f, g, was, n) && IsSlotOp(op, isTrue, g.queue + d.arrivals, coin, d)
    requires f'.queue == if isTrue then (g.queue + d.arrivals)[1..] else g.queue + d.arrivals
    requires f'.promises == g.promises + if isTrue then [(g.queue + d.arrivals)[0].promise] else []
    ensures TakesFirst(f, f', was + d.arrivals, if isTrue then n + 1 else n)
    ensures n <= |was + d.arrivals| && g.queue + d.arrivals == (was + d.arrivals)[n..]
  {
    hide IsSlotOp;
    var arrived := was + d.arrivals;
    assert arrived[n..] == g.queue + d.arrivals;
    IsSlotOpNeeds(op, isTrue, arrived[n..], coin, d);
    PromisesAlike(was, arrived, n);
    if isTrue {
      PromisesNext(arrived, n);
    }
  }

  lemma OneMoreIsSlot(was: seq<Queued>, batch: seq<Op>, trues: seq<bool>, coin: real, front: seq<Draw>,
                      draws: seq<Draw>, op: Op, isTrue: bool)
    requires draws != [] && |batch| == |trues| == |draws| - 1 && front == draws[..|draws| - 1]
    requires forall i :: 0 <= i < |front| ==> IsSlot(was, batch, trues, coin, front, i)
    requires Trues(trues) <= |was + Arrived(draws)|
    requires IsSlotOp(op, isTrue, (was + Arrived(draws))[Trues(trues)..], coin, draws[|draws| - 1])
    ensures forall i :: 0 <= i < |draws| ==> IsSlot(was, batch + [op], trues + [isTrue], coin, draws, i)
  {
    hide IsSlotOp, Trues, Arrived, IsSlot;
    forall i | 0 <= i < |draws|
      ensures IsSlot(was, batch + [op], trues + [isTrue], coin, draws, i)
    {
      if i < |draws| - 1 {
        SlotStays(was, batch, trues, coin, draws, i, op, isTrue);
      } else {
        LastSlot(was, batch, trues, coin, draws, op, isTrue);
      }
    }
  }

  lemma IsSlotOpNeeds(op: Op, isTrue: bool, queue: seq<Queued>, coin: real, d: Draw)
    requires IsSlotOp(op, isTrue, queue, coin, d)
    ensures isTrue ==> queue != []
  {
  }

  lemma ArrivedLast(queue: seq<Queued>, draws: seq<Draw>)
    requires draws != []
    ensures queue + Arrived(draws) == (queue + Arrived(draws[..|draws| - 1])) + draws[|draws| - 1].arrivals
  {
    hide Arrived;
    var front, d := draws[..|draws| - 1], draws[|draws| - 1];
    assert draws == front + [d];
    ArrivedSnoc(front, d);
    Associative(queue, Arrived(front), d.arrivals);
  }

  lemma TruesSnoc(trues: seq<bool>, b: bool)
    ensures Trues(trues + [b]) == Trues(trues) + if b then 1 else 0
  {
    assert (trues + [b])[..|trues|] == trues;
  }

  lemma PromisesNext(items: seq<Queued>, n: nat)
    requires n < |items|
    ensures PromisesOf(items[..n + 1]) == PromisesOf(items[..n]) + [items[n..][0].promise]
    ensures items[n..][1..] == items[n + 1..]
  {
  }

  lemma PromisesAlike(was: seq<Queued>, items: seq<Queued>, n: nat)
    requires was <= items && n <= |was|
    ensures PromisesOf(was[..n]) == PromisesOf(items[..n])
  {
    assert was[..n] == items[..n];
  }

  lemma SlotStays(was: seq<Queued>, batch: seq<Op>, trues: seq<bool>, coin: real, draws: seq<Draw>, i: nat, op: Op,
                  isTrue: bool)
    requires |batch| == |trues| == |draws| - 1 && i < |draws| - 1
    requires IsSlot(was, batch, trues, coin, draws[..|draws| - 1], i)
    ensures IsSlot(was, batch + [op], trues + [isTrue], coin, draws, i)
  {
    hide Trues, Arrived, IsSlotOp;
    assert draws[..|draws| - 1][..i + 1] == draws[..i + 1] && (trues + [isTrue])[..i] == trues[..i];
  }

  lemma LastSlot(was: seq<Queued>, batch: seq<Op>, trues: seq<bool>, coin: real, draws: seq<Draw>, op: Op, isTrue: bool)
    requires |batch| == |trues| == |draws| - 1 && Trues(trues) <= |was + Arrived(draws)|
    requires IsSlotOp(op, isTrue, (was + Arrived(draws))[Trues(trues)..], coin, draws[|draws| - 1])
    ensures IsSlot(was, batch + [op], trues + [isTrue], coin, draws, |draws| - 1)
  {
    hide Trues, Arrived, IsSlotOp;
    assert draws[..|draws| - 1 + 1] == draws && (trues + [isTrue])[..|trues|] == trues;
  }

  /** `create_security_batch` on the queue object. */
  method CreateSecurityBatch(q: Queue<Queued>, batch: seq<Op>, trues: seq<bool>, promises: seq<nat>,
                             coin: real, draws: seq<Draw>)
    returns (batch': seq<Op>, trues': seq<bool>, promises': seq<nat>)
    requires q.Valid()
    modifies q
    ensures q.Valid()
    ensures Filling(q.items, batch', trues', promises')
            == FillSlots(Filling(old(q.items), batch, trues, promises), coin, draws)
    ensures |batch| == |trues| ==>
              AreSlots(Filling(old(q.items), batch, trues, promises), Filling(q.items, batch', trues', promises'), coin,
                       draws)
  {
    hide FillSlot, AreSlots;
    batch', trues', promises' := batch, trues, promises;
    var i := 0;
    while i < |draws|
      invariant i <= |draws| && q.Valid()
      invariant Filling(q.items, batch', trues', promises')
                == FillSlots(Filling(old(q.items), batch, trues, promises), coin, draws[..i])
    {
      assert draws[..i + 1][..i] == draws[..i];
      batch', trues', promises' := FillOneSlot(q, batch', trues', promises', coin, draws[i]);
      i := i + 1;
    }
    assert draws[..|draws|] == draws;
    if |batch| == |trues| {
      SlotsAppend(Filling(old(q.items), batch, trues, promises), coin, draws);
    }
  }

  /** One turn of its loop.  The pop never waits: there is one consumer, and it has seen an item. */
  method FillOneSlot(q: Queue<Queued>, batch: seq<Op>, trues: seq<bool>, promises: seq<nat>, coin: real, d: Draw)
    returns (batch': seq<Op>, trues': seq<bool>, promises': seq<nat>)
    requires q.Valid()
    modifies q
    ensures q.Valid()
    ensures Filling(q.items, batch', trues', promises')
            == FillSlot(Filling(old(q.items), batch, trues, promises), coin, d)
    ensures |batch'| == |batch| + 1 && |trues'| == |trues| + 1
    ensures IsSlotOp(batch'[|batch|], trues'[|trues|], old(q.items) + d.arrivals, coin, d)
  {
    SlotAppends(Filling(q.items, batch, trues, promises), coin, d);
    q.PushAll(d.arrivals);
    batch', trues', promises' := batch, trues, promises;
    if d.u < coin {
      var n := q.Size();
      if n == 0 {
        batch' := batch' + [Op(d.realKey, "")];
        trues' := trues' + [false];
      } else {
        ghost var queue := q.items;
        var item, waited := q.Pop([]);
        assert [item.value] + q.items == queue;
        batch' := batch' + [item.value.op];
        trues' := trues' + [true];
        promises' := promises' + [item.value.promise];
      }
    } else {
      batch' := batch' + [Op(d.fakeKey, "")];
      trues' := trues' + [false];
    }
  }

  // ------------------------------------------------------------------ the consumer

  /** The draws from..to-1 of a tape. */
  function Section(tape: nat -> Draw, from: nat, to: nat): (s: seq<Draw>)
    requires from <= to
    ensures |s| == to - from
  {
    seq(to - from, k requires 0 <= k < to - from => tape(from + k))
  }

  /** Slots after slots. */
  lemma {:induction false} SlotsJoin(f: Filling, coin: real, a: seq<Draw>, b: seq<Draw>)
    ensures FillSlots(FillSlots(f, coin, a), coin, b) == FillSlots(f, coin, a + b)
    decreases |b|
  {
    hide FillSlot;
    if b == [] {
      assert a + b == a;
    } else {
      SlotsJoin(f, coin, a, b[..|b| - 1]);
      assert (a + b)[..|a + b| - 1] == a + b[..|b| - 1];
    }
  }

  lemma SectionsJoin(tape: nat -> Draw, a: nat, b: nat, c: nat)
    requires a <= b <= c
    ensures Arrived(Section(tape, a, c)) == Arrived(Section(tape, a, b)) + Arrived(Section(tape, b, c))
    ensures Section(tape, a, c) == Section(tape, a, b) + Section(tape, b, c)
  {
    hide Arrived;
    ArrivedConcat(Section(tape, a, b), Section(tape, b, c));
    assert Section(tape, a, c) == Section(tape, a, b) + Section(tape, b, c);
  }

  lemma {:induction false} ArrivedConcat(a: seq<Draw>, b: seq<Draw>)
    ensures Arrived(a + b) == Arrived(a) + Arrived(b)
    decreases |b|
  {
    if b == [] {
      assert a + b == a;
    } else {
      hide Arrived;
      var front, d := b[..|b| - 1], b[|b| - 1];
      ArrivedConcat(a, front);
      ArrivedSnoc(a + front, d);
      ArrivedSnoc(front, d);
      LastOff(a, b);
      Associative(Arrived(a), Arrived(front), d.arrivals);
    }
  }

  lemma LastOff<T>(a: seq<T>, b: seq<T>)
    requires b != []
    ensures b == b[..|b| - 1] + [b[|b| - 1]] && a + b == (a + b[..|b| - 1]) + [b[|b| - 1]]
  {
  }

  lemma ArrivedSnoc(draws: seq<Draw>, d: Draw)
    ensures Arrived(draws + [d]) == Arrived(draws) + d.arrivals
  {
    assert (draws + [d])[..|draws|] == draws;
  }

  lemma Associative<T>(a: seq<T>, b: seq<T>, c: seq<T>)
    ensures (a + b) + c == a + (b + c)
  {
  }

  /** Everything that clients push over some passes: before each reading of the queue size, and during
      the slots of the pass. */
  function AllArrived(rounds: seq<seq<Queued>>, tape: nat -> Draw, slots: nat, sizes: seq<nat>): seq<Queued>
    requires |rounds| == |sizes|
  {
    if rounds == [] then []
    else
      var m := |rounds| - 1;
      AllArrived(rounds[..m], tape, slots, sizes[..m]) + rounds[m]
      + Arrived(Section(tape, slots * Sizes(sizes[..m]), slots * Sizes(sizes[..m]) + slots * sizes[m]))
  }

  function Sizes(sizes: seq<nat>): nat {
    NatTotal(sizes);
    Total(sizes)
  }

  lemma NatTotal(sizes: seq<nat>)
    ensures Total(sizes) >= 0
  {
  }

  /** One pass: the queue length is read once, and that many security batches are created. */
  method ServePass(q: Queue<Queued>, f: Filling, slots: nat, coin: real, tape: nat -> Draw,
                   serviced: int, previous: int)
    returns (f': Filling, serviced': int, previous': int)
    requires q.Valid() && f.queue == q.items && Paired(f) && serviced == previous
    modifies q
    ensures q.Valid() && f'.queue == q.items && Paired(f')
    ensures serviced' == previous' == serviced + |f.queue|
    ensures |f'.batch| == |f.batch| + slots * |f.queue|
    ensures Flow(f') == Flow(f) + Arrived(Section(tape, |f.batch|, |f'.batch|))
    ensures f' == FillSlots(f, coin, Section(tape, |f.batch|, |f'.batch|))
  {
    hide FillSlots, Arrived, Flow, Paired, AreSlots;
    var size := q.Size();
    var total := size + serviced;
    serviced', previous', f' := serviced, previous, f;
    NothingArrives(tape, f);
    var i := 0;
    while i < total - previous
      invariant 0 <= i <= size && q.Valid()
      invariant f'.queue == q.items && Paired(f') && |f'.batch| == |f.batch| + slots * i
      invariant Flow(f') == Flow(f) + Arrived(Section(tape, |f.batch|, |f'.batch|))
      invariant f' == FillSlots(f, coin, Section(tape, |f.batch|, |f'.batch|))
    {
      var draws := Section(tape, |f'.batch|, |f'.batch| + slots);
      SlotsConserve(f', coin, draws);
      SectionsJoin(tape, |f.batch|, |f'.batch|, |f'.batch| + slots);
      SlotsJoin(f, coin, Section(tape, |f.batch|, |f'.batch|), draws);
      NextMultiple(slots, i);
      var batch, trues, promises := CreateSecurityBatch(q, f'.batch, f'.trues, f'.promises, coin, draws);
      f' := Filling(q.items, batch, trues, promises);
      i := i + 1;
    }
    if i != 0 {
      serviced' := serviced + i;
      previous' := total;
    }
  }

  lemma NothingArrives(tape: nat -> Draw, f: Filling)
    requires Paired(f)
    ensures Flow(f) == Flow(f) + Arrived(Section(tape, |f.batch|, |f.batch|))
    ensures forall coin :: f == FillSlots(f, coin, Section(tape, |f.batch|, |f.batch|))
  {
    assert Section(tape, |f.batch|, |f.batch|) == [];
  }

  /** One pass: slots drawn from where the tape stands, `slots` for every item that is queued. */
  function Pass(f: Filling, tape: nat -> Draw, slots: nat, coin: real): Filling {
    FillSlots(f, coin, Section(tape, |f.batch|, |f.batch| + slots * |f.queue|))
  }

  /** What the consumer holds after these readings of the queue. */
  function Collected(queue: seq<Queued>, rounds: seq<seq<Queued>>, tape: nat -> Draw, slots: nat, coin: real): Filling {
    if rounds == [] then Filling(queue, [], [], [])
    else
      var m := |rounds| - 1;
      var f := Collected(queue, rounds[..m], tape, slots, coin);
      Pass(f.(queue := f.queue + rounds[m]), tape, slots, coin)
  }

  /** Slot i of the batch is filled from the i-th draws: a true operation only if the coin says real; otherwise a
      get of the key of the distribution that the coin selects. */
  ghost predicate DrawnSlot(f: Filling, tape: nat -> Draw, coin: real, i: nat)
    requires i < |f.batch| == |f.trues|
  {
    && (f.trues[i] ==> tape(i).u < coin)
    && (!f.trues[i] ==> f.batch[i] == Op(if tape(i).u < coin then tape(i).realKey else tape(i).fakeKey, ""))
  }

  ghost predicate AllDrawn(f: Filling, tape: nat -> Draw, coin: real) {
    |f.batch| == |f.trues| && forall i :: 0 <= i < |f.batch| ==> DrawnSlot(f, tape, coin, i)
  }

  lemma SlotsDrawn(g: Filling, f: Filling, tape: nat -> Draw, coin: real, n: nat)
    requires AllDrawn(g, tape, coin) && f == FillSlots(g, coin, Section(tape, |g.batch|, |g.batch| + n))
    ensures AllDrawn(f, tape, coin)
  {
    hide IsSlot, FillSlots;
    var draws := Section(tape, |g.batch|, |g.batch| + n);
    SlotsAppend(g, coin, draws);
    forall i | 0 <= i < |f.batch|
      ensures DrawnSlot(f, tape, coin, i)
    {
      var b := |g.batch|;
      if i < b {
        assert f.batch[..b][i] == f.batch[i] && f.trues[..b][i] == f.trues[i];
        assert DrawnSlot(g, tape, coin, i);
      } else {
        assert IsSlot(g.queue, f.batch[b..], f.trues[b..], coin, draws, i - b);
        SlotOfTape(g.queue, f.batch[b..], f.trues[b..], coin, draws, i - b);
        assert draws[i - b] == tape(i);
      }
    }
  }

  lemma SlotOfTape(was: seq<Queued>, batch: seq<Op>, trues: seq<bool>, coin: real, draws: seq<Draw>, i: nat)
    requires i < |draws| == |batch| == |trues| && IsSlot(was, batch, trues, coin, draws, i)
    ensures trues[i] ==> draws[i].u < coin
    ensures !trues[i] ==> batch[i] == Op(if draws[i].u < coin then draws[i].realKey else draws[i].fakeKey, "")
  {
  }

  /** The inner loop of `consumer_thread`.  `rounds` are the operations that clients push before
      each reading of the queue size, `tape` the random choices and what clients push before each
      slot, `slots` is `security_batch_size_`; the end of `rounds` stands for `finished_`.  `sizes`
      records the queue lengths that were read: the two counters agree at every loop head, each pass
      creates as many security batches as it read, and what was taken followed by what is queued is
      what was queued followed by what arrived. */
  method CollectBatch(q: Queue<Queued>, rounds: seq<seq<Queued>>, storageBatchSize: int, slots: nat, coin: real,
                      tape: nat -> Draw, serviced: int, previous: int)
    returns (f: Filling, serviced': int, previous': int, used: nat, ghost sizes: seq<nat>)
    requires q.Valid() && serviced == previous
    modifies q
    ensures q.Valid() && f.queue == q.items && Paired(f)
    ensures used <= |rounds| && |sizes| == used
    ensures serviced' == previous' == serviced + Sizes(sizes)
    ensures |f.batch| == slots * Sizes(sizes)
    ensures |f.batch| >= storageBatchSize || used == |rounds|
    ensures Flow(f) == old(q.items) + AllArrived(rounds[..used], tape, slots, sizes)
    ensures f == Collected(old(q.items), rounds[..used], tape, slots, coin)
    ensures AllDrawn(f, tape, coin)
  {
    hide Arrived, Flow, Paired, Taken, AllArrived, Sizes, AllDrawn, FillSlots;
    f := Filling(q.items, [], [], []);
    serviced', previous', used, sizes := serviced, previous, 0, [];
    NothingTaken(q.items, rounds, tape, slots);
    while |f.batch| < storageBatchSize && used < |rounds|
      invariant used <= |rounds| && |sizes| == used && q.Valid()
      invariant serviced' == previous' == serviced + Sizes(sizes)
      invariant f.queue == q.items && Paired(f) && |f.batch| == slots * Sizes(sizes)
      invariant Flow(f) == old(q.items) + AllArrived(rounds[..used], tape, slots, sizes)
      invariant f == Collected(old(q.items), rounds[..used], tape, slots, coin) && AllDrawn(f, tape, coin)
    {
      q.PushAll(rounds[used]);
      MoreQueued(f, rounds[used]);
      MoreDrawn(f, rounds[used], tape, coin);
      assert rounds[..used + 1][..used] == rounds[..used];
      f := f.(queue := q.items);
      ghost var g := f;
      OneMorePass(rounds, tape, slots, sizes, |f.queue|, used);
      sizes := sizes + [|f.queue|];
      f, serviced', previous' := ServePass(q, f, slots, coin, tape, serviced', previous');
      SlotsDrawn(g, f, tape, coin, slots * |g.queue|);
      used := used + 1;
    }
  }

  lemma NothingTaken(queue: seq<Queued>, rounds: seq<seq<Queued>>, tape: nat -> Draw, slots: nat)
    ensures Paired(Filling(queue, [], [], [])) && Sizes([]) == 0 && slots * 0 == 0
    ensures Flow(Filling(queue, [], [], [])) == queue + AllArrived(rounds[..0], tape, slots, [])
    ensures forall coin :: AllDrawn(Filling(queue, [], [], []), tape, coin)
    ensures forall coin :: Filling(queue, [], [], []) == Collected(queue, rounds[..0], tape, slots, coin)
  {
  }

  lemma MoreQueued(f: Filling, more: seq<Queued>)
    requires Paired(f)
    ensures Paired(f.(queue := f.queue + more)) && Flow(f.(queue := f.queue + more)) == Flow(f) + more
  {
  }

  lemma MoreDrawn(f: Filling, more: seq<Queued>, tape: nat -> Draw, coin: real)
    requires AllDrawn(f, tape, coin)
    ensures AllDrawn(f.(queue := f.queue + more), tape, coin)
  {
    forall i | 0 <= i < |f.batch|
      ensures DrawnSlot(f.(queue := f.queue + more), tape, coin, i)
    {
      assert DrawnSlot(f, tape, coin, i);
    }
  }

  lemma OneMorePass(rounds: seq<seq<Queued>>, tape: nat -> Draw, slots: nat, sizes: seq<nat>, size: nat, used: nat)
    requires used == |sizes| < |rounds|
    ensures Sizes(sizes + [size]) == Sizes(sizes) + size
    ensures slots * Sizes(sizes + [size]) == slots * Sizes(sizes) + slots * size
    ensures AllArrived(rounds[..used + 1], tape, slots, sizes + [size])
            == AllArrived(rounds[..used], tape, slots, sizes) + rounds[used]
               + Arrived(Section(tape, slots * Sizes(sizes), slots * Sizes(sizes) + slots * size))
  {
    TotalSnoc(sizes, size);
    Multiples(slots, Sizes(sizes), size);
    assert rounds[..used + 1][..used] == rounds[..used] && (sizes + [size])[..used] == sizes;
  }

  lemma Multiples(a: nat, b: nat, c: nat)
    ensures a * b + a * c == a * (b + c)
  {
  }

  lemma NextMultiple(a: nat, b: nat)
    ensures a * b + a == a * (b + 1)
  {
  }
}
