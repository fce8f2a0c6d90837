/** The blocking queue: its sequential behaviour, and its safety under interleaving. */
module OpQueue {
  import opened Wrappers

  /** Batches of items, one after the other. */
  function Joined<T>(rounds: seq<seq<T>>): seq<T> {
    if rounds == [] then [] else Joined(rounds[..|rounds| - 1]) + rounds[|rounds| - 1]
  }

  /** `queue<T>` as each caller sees it between its critical sections. */
  class Queue<T> {
    var items: seq<T>
    var count: int

    ghost predicate Valid()
      reads this
    {
      count == |items|
    }

    constructor ()
      ensures Valid() && items == []
    {
      items, count := [], 0;
    }

    method Push(item: T)
      requires Valid()
      modifies this
      ensures Valid() && items == old(items) + [item]
    {
      items := items + [item];
      count := count + 1;
    }

    /** `pop` waits while the queue is empty; `wakeups` are the items that other threads push before
        each wake-up, and their end stands for waiting on.  The call returns as soon as there is an
        item, with the first one. */
    method Pop(wakeups: seq<seq<T>>) returns (r: Option<T>, ghost waited: nat)
      requires Valid()
      modifies this
      ensures Valid() && waited <= |wakeups|
      ensures r.Some? <==> old(items) + Joined(wakeups) != []
      ensures r.Some? ==> [r.value] + items == old(items) + Joined(wakeups[..waited])
      ensures r.None? ==> items == [] && waited == |wakeups|
      ensures forall w :: 0 <= w < waited ==> old(items) + Joined(wakeups[..w]) == []
    {
      var w := 0;
      while items == [] && w < |wakeups|
        invariant Valid() && w <= |wakeups|
        invariant items == old(items) + Joined(wakeups[..w])
        invariant forall v :: 0 <= v < w ==> old(items) + Joined(wakeups[..v]) == []
      {
        assert wakeups[..w + 1][..w] == wakeups[..w];
        PushAll(wakeups[w]);
        w := w + 1;
      }
      waited := w;
      JoinedPrefix(wakeups, w);
      assert wakeups[..|wakeups|] == wakeups;
      if items == [] {
        return None, waited;
      }
      count := count - 1;
      r := Some(items[0]);
      items := items[1..];
    }

    /** Other threads' pushes. */
    method PushAll(more: seq<T>)
      requires Valid()
      modifies this
      ensures Valid() && items == old(items) + more
    {
      for i := 0 to |more|
        invariant Valid() && items == old(items) + more[..i]
      {
        Push(more[i]);
      }
      assert more[..|more|] == more;
    }

    method Size() returns (n: int)
      requires Valid()
      ensures n == |items|
    {
      n := count;
    }
  }

  lemma {:induction false} JoinedPrefix<T>(rounds: seq<seq<T>>, n: nat)
    requires n <= |rounds|
    ensures Joined(rounds[..n]) <= Joined(rounds)
  {
    if n < |rounds| {
      JoinedPrefix(rounds[..|rounds| - 1], n);
      assert rounds[..|rounds| - 1][..n] == rounds[..n];
    } else {
      assert rounds[..n] == rounds;
    }
  }

  // ------------------------------------------------------------------ micro-steps

  /** Where a pushing thread is: outside, holding the lock, after `m_queue_.push`, after `size_++`. */
  datatype Pusher = Outside | Locked | Added | Raised

  /** Where the popping thread is: away, after reading a non-zero `size_` without the lock, holding
      the lock before the emptiness test, after `size_--`, after taking the item. */
  datatype Popper = Away | Saw | Holding | Lowered | Took

  datatype Owner = Free | ByPusher(t: nat) | ByPopper

  /** Any number of pushers and one popper.  `pushed` and `popped` record the items in the order in
      which they entered and left `m_queue_`. */
  datatype QueueState<T> = QueueState(items: seq<T>, count: int, owner: Owner, pushers: map<nat, Pusher>,
                                      popper: Popper, pushed: seq<T>, popped: seq<T>)
  {
    function StateOf(t: nat): Pusher {
      if t in pushers then pushers[t] else Outside
    }
  }

  datatype MicroStep<T> =
    | PushLock(t: nat) | PushItem(t: nat, item: T) | PushCount(t: nat) | PushUnlock(t: nat)
    | ReadSize | PopLock | PopWait | PopCount | PopItem | PopUnlock

  predicate Enabled<T>(s: QueueState<T>, e: MicroStep<T>) {
    match e
    case PushLock(t) => s.owner == Free && s.StateOf(t) == Outside
    case PushItem(t, _) => s.owner == ByPusher(t) && s.StateOf(t) == Locked
    case PushCount(t) => s.owner == ByPusher(t) && s.StateOf(t) == Added
    case PushUnlock(t) => s.owner == ByPusher(t) && s.StateOf(t) == Raised
    case ReadSize => s.popper == Away
    case PopLock => s.owner == Free && s.popper == Saw
    case PopWait => s.owner == ByPopper && s.popper == Holding && |s.items| == 0
    case PopCount => s.owner == ByPopper && s.popper == Holding && |s.items| > 0
    case PopItem => s.owner == ByPopper && s.popper == Lowered && |s.items| > 0
    case PopUnlock => s.owner == ByPopper && s.popper == Took
  }

  /** One micro-step.  The popper enters only after reading a non-zero size, as
      `create_security_batch` does; waiting gives the lock back. */
  function Apply<T>(s: QueueState<T>, e: MicroStep<T>): QueueState<T>
    requires Enabled(s, e)
  {
    match e
    case PushLock(t) => s.(owner := ByPusher(t), pushers := s.pushers[t := Locked])
    case PushItem(t, x) => s.(items := s.items + [x], pushed := s.pushed + [x], pushers := s.pushers[t := Added])
    case PushCount(t) => s.(count := s.count + 1, pushers := s.pushers[t := Raised])
    case PushUnlock(t) => s.(owner := Free, pushers := s.pushers[t := Outside])
    case ReadSize => if s.count != 0 then s.(popper := Saw) else s
    case PopLock => s.(owner := ByPopper, popper := Holding)
    case PopWait => s.(owner := Free, popper := Saw)
    case PopCount => s.(count := s.count - 1, popper := Lowered)
    case PopItem => s.(items := s.items[1..], popped := s.popped + [s.items[0]], popper := Took)
    case PopUnlock => s.(owner := Free, popper := Away)
  }

  ghost predicate IsInterleaving<T>(states: seq<QueueState<T>>, events: seq<MicroStep<T>>) {
    && |states| == |events| + 1
    && states[0] == QueueState([], 0, Free, map[], Away, [], [])
    && forall i :: 0 <= i < |events| ==> Enabled(states[i], events[i]) && states[i + 1] == Apply(states[i], events[i])
  }

  /** Only the owner of the lock is inside, and the counter lags the queue only between its two
      halves. */
  ghost predicate InLockStep<T>(s: QueueState<T>) {
    && (forall t :: s.StateOf(t) != Outside ==> s.owner == ByPusher(t))
    && (s.owner.ByPusher? ==> s.StateOf(s.owner.t) != Outside)
    && (s.owner == ByPopper <==> s.popper in {Holding, Lowered, Took})
    && 0 <= s.count == |s.items| - (if s.owner.ByPusher? && s.StateOf(s.owner.t) == Added then 1
                               else if s.popper == Lowered then 1 else 0)
    && (s.popper in {Saw, Holding, Lowered} ==> |s.items| > 0)
    && s.popped + s.items == s.pushed
  }

  lemma StepKeepsLockStep<T>(s: QueueState<T>, e: MicroStep<T>)
    requires InLockStep(s) && Enabled(s, e)
    ensures InLockStep(Apply(s, e))
  {
    var s' := Apply(s, e);
    match e {
      case PushLock(t) =>
        assert s.owner == Free;
      case PushItem(t, x) =>
        assert s'.popped + s'.items == (s.popped + s.items) + [x];
      case PopItem =>
        assert s.items == [s.items[0]] + s.items[1..];
        assert s'.popped + s'.items == s.popped + s.items;
      case _ =>
    }
    forall t | s'.StateOf(t) != Outside
      ensures s'.owner == ByPusher(t)
    {
      assert s.StateOf(t) != Outside || s'.owner == ByPusher(t);
    }
  }

  /** The items of the pushes among these events. */
  function PushedBy<T>(events: seq<MicroStep<T>>): seq<T> {
    if events == [] then []
    else
      var e := events[|events| - 1];
      PushedBy(events[..|events| - 1]) + if e.PushItem? then [e.item] else []
  }

  function Pops<T>(events: seq<MicroStep<T>>): nat {
    if events == [] then 0
    else Pops(events[..|events| - 1]) + if events[|events| - 1].PopItem? then 1 else 0
  }

  lemma StepRecords<T>(s: QueueState<T>, e: MicroStep<T>)
    requires Enabled(s, e)
    ensures Apply(s, e).pushed == s.pushed + if e.PushItem? then [e.item] else []
    ensures |Apply(s, e).popped| == |s.popped| + if e.PopItem? then 1 else 0
  {
  }

  /** What has entered is what was pushed, and as many items have left as were popped. */
  lemma {:induction false} RecordsAreEvents<T>(states: seq<QueueState<T>>, events: seq<MicroStep<T>>, i: nat)
    requires IsInterleaving(states, events) && i < |states|
    ensures states[i].pushed == PushedBy(events[..i]) && |states[i].popped| == Pops(events[..i])
  {
    hide Apply, Enabled;
    if i > 0 {
      RecordsAreEvents(states, events, i - 1);
      StepRecords(states[i - 1], events[i - 1]);
      assert events[..i][..i - 1] == events[..i - 1];
    }
  }

  /** At every micro-step of every interleaving: the queue holds what was pushed and not yet popped, in order; the
      counter never exceeds the queue and is equal
      to its length whenever the lock is free; items leave in push order; and a popper that saw a
      non-zero size never waits. */
  lemma {:induction false} QueueIsSafe<T>(states: seq<QueueState<T>>, events: seq<MicroStep<T>>, i: nat)
    requires IsInterleaving(states, events) && i < |states|
    ensures InLockStep(states[i])
    ensures states[i].count <= |states[i].items|
    ensures states[i].owner == Free ==> states[i].count == |states[i].items|
    ensures states[i].popped <= states[i].pushed
    ensures states[i].popped + states[i].items == states[i].pushed
    ensures Pops(events[..i]) <= |PushedBy(events[..i])|
    ensures states[i].items == PushedBy(events[..i])[Pops(events[..i])..]
    ensures !Enabled(states[i], PopWait)
  {
    RecordsAreEvents(states, events, i);
    if i > 0 {
      QueueIsSafe(states, events, i - 1);
      StepKeepsLockStep(states[i - 1], events[i - 1]);
    }
  }
}
