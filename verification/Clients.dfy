/** The client side of a batch of gets: one promise per key, queued in order, and the futures read in
    the same order. */
module Clients {
  import opened Wrappers
  import opened OpQueue
  import opened Refinement
  import opened Batching
  import opened EndToEnd

  /** The keys before the first that is not registered. */
  function Accepted(keys: seq<string>, registered: set<string>): (n: nat)
    ensures n <= |keys| && (forall i :: 0 <= i < n ==> keys[i] in registered)
    ensures n < |keys| ==> keys[n] !in registered
  {
    if keys == [] || keys[0] !in registered then 0 else 1 + Accepted(keys[1..], registered)
  }

  /** `get_future`; a key that is not registered ends the call with an exception. */
  method GetFuture(q: Queue<Queued>, key: string, registered: set<string>, next: nat) returns (r: Result<nat>)
    requires q.Valid()
    modifies q
    ensures q.Valid() && (r.Ok? <==> key in registered)
    ensures r.Ok? ==> r.value == next && q.items == old(q.items) + [Queued(Op(key, ""), next)]
    ensures r.Err? ==> q.items == old(q.items)
  {
    if key !in registered {
      return Err("Key does not exist");
    }
    q.Push(Queued(Op(key, ""), next));
    r := Ok(next);
  }

  /** What is pushed when other clients push `others[i]` before the i-th get. */
  function Mixed(keys: seq<string>, others: seq<seq<Queued>>, next: nat): (s: seq<Queued>)
    requires |keys| <= |others|
    decreases |keys|
  {
    if keys == [] then []
    else
      var m := |keys| - 1;
      Mixed(keys[..m], others, next) + others[m] + [Queued(Op(keys[m], ""), next + m)]
  }

  /** The gets are in the queue, in order, at these places. */
  ghost predicate InPlace(items: seq<Queued>, keys: seq<string>, next: nat, at: seq<nat>) {
    && |at| <= |keys|
    && (forall i :: 0 <= i < |at| ==> IsGetAt(items, at[i], keys[i], next + i))
    && forall i, j :: 0 <= i < j < |at| ==> at[i] < at[j]
  }

  ghost predicate IsGetAt(items: seq<Queued>, place: nat, key: string, promise: nat) {
    place < |items| && items[place] == Queued(Op(key, ""), promise)
  }

  lemma NothingPushed(items: seq<Queued>, keys: seq<string>, others: seq<seq<Queued>>, next: nat)
    requires |others| == |keys|
    ensures items == items + Mixed(keys[..0], others, next) && InPlace(items, keys, next, [])
  {
  }

  lemma LaterPushes(items: seq<Queued>, more: seq<Queued>, keys: seq<string>, next: nat, at: seq<nat>)
    requires InPlace(items, keys, next, at)
    ensures InPlace(items + more, keys, next, at)
  {
    forall i | 0 <= i < |at|
      ensures IsGetAt(items + more, at[i], keys[i], next + i)
    {
      assert IsGetAt(items, at[i], keys[i], next + i);
    }
  }

  lemma OneMoreGet(items: seq<Queued>, keys: seq<string>, others: seq<seq<Queued>>, next: nat, at: seq<nat>)
    requires |others| == |keys| && |at| < |keys| && InPlace(items, keys, next, at)
    ensures var (i, more) := (|at|, others[|at|]);
            var get := Queued(Op(keys[i], ""), next + i);
            && Mixed(keys[..i + 1], others, next) == Mixed(keys[..i], others, next) + more + [get]
            && InPlace(items + more + [get], keys, next, at + [|items + more + [get]| - 1])
  {
    var i, more := |at|, others[|at|];
    var all := items + more + [Queued(Op(keys[i], ""), next + i)];
    assert keys[..i + 1][..i] == keys[..i];
    LaterPushes(items, more + [Queued(Op(keys[i], ""), next + i)], keys, next, at);
    assert all == items + (more + [Queued(Op(keys[i], ""), next + i)]);
    assert forall j :: 0 <= j < |at| ==> IsGetAt(all, at[j], keys[j], next + j);
  }

  /** The first loop of `get_batch`, among the pushes of other clients: a key that is not registered ends
      it after the gets before it have been queued.  `at` are the places of the gets. */
  method PushGets(q: Queue<Queued>, keys: seq<string>, registered: set<string>, next: nat, others: seq<seq<Queued>>)
    returns (r: Result<seq<nat>>, ghost at: seq<nat>)
    requires q.Valid() && |others| == |keys|
    modifies q
    ensures q.Valid() && (r.Ok? <==> forall k :: k in keys ==> k in registered)
    ensures r.Ok? ==> |r.value| == |keys| && forall i :: 0 <= i < |keys| ==> r.value[i] == next + i
    ensures var n := Accepted(keys, registered);
            q.items == old(q.items) + Mixed(keys[..n], others, next) + if n < |keys| then others[n] else []
    ensures |at| == Accepted(keys, registered)
    ensures InPlace(q.items, keys, next, at)
  {
    hide Mixed, InPlace;
    NothingPushed(q.items, keys, others, next);
    var waiters: seq<nat> := [];
    at := [];
    var i := 0;
    while i < |keys|
      invariant i <= |keys| && |waiters| == |at| == i && q.Valid()
      invariant forall j :: 0 <= j < i ==> waiters[j] == next + j && keys[j] in registered
      invariant q.items == old(q.items) + Mixed(keys[..i], others, next)
      invariant InPlace(q.items, keys, next, at)
    {
      OneMoreGet(q.items, keys, others, next, at);
      LaterPushes(q.items, others[i], keys, next, at);
      q.PushAll(others[i]);
      var one := GetFuture(q, keys[i], registered, next + i);
      if one.Err? {
        assert keys[i] in keys;
        AcceptedIs(keys, registered, i);
        return Err(one.reason), at;
      }
      waiters, at := waiters + [one.value], at + [|q.items| - 1];
      i := i + 1;
    }
    AcceptedIs(keys, registered, i);
    r := Ok(waiters);
  }

  lemma {:induction false} AcceptedIs(keys: seq<string>, registered: set<string>, n: nat)
    requires n <= |keys| && (forall i :: 0 <= i < n ==> keys[i] in registered)
    requires n < |keys| ==> keys[n] !in registered
    ensures Accepted(keys, registered) == n
  {
    if n > 0 {
      AcceptedIs(keys[1..], registered, n - 1);
    }
  }

  /** `promise.get()`: what the promise has received. */
  function ValueOf(answers: seq<(nat, string)>, promise: nat): Option<string> {
    if answers == [] then None
    else if answers[0].0 == promise then Some(answers[0].1)
    else ValueOf(answers[1..], promise)
  }

  lemma {:induction false} ValueOfOnly(answers: seq<(nat, string)>, p: nat)
    requires p < |answers|
    requires forall i :: 0 <= i < |answers| && i != p ==> answers[i].0 != answers[p].0
    ensures ValueOf(answers, answers[p].0) == Some(answers[p].1)
  {
    if p > 0 {
      ValueOfOnly(answers[1..], p - 1);
    }
  }

  /** Every promise is created once. */
  ghost predicate OwnPromises(pushed: seq<Queued>) {
    forall i, j :: 0 <= i < j < |pushed| ==> pushed[i].promise != pushed[j].promise
  }

  function Lookup(m: Logical, key: string): string {
    if key in m then m[key] else ""
  }

  lemma {:induction false} AnswerAt(l: Logical, ops: seq<Op>, p: nat)
    requires p < |ops|
    ensures MapAnswers(l, ops)[p] == MapAnswer(MapRun(l, ops[..p]), ops[p])
    decreases |ops|
  {
    var n := |ops| - 1;
    if p < n {
      AnswerAt(l, ops[..n], p);
      assert ops[..n][..p] == ops[..p];
    }
  }

  /** The i-th result of `get_batch` belongs to its i-th key: it is what the map holds for that key
      after exactly the operations that were queued before this get, however other clients interleave. */
  lemma GetBatchIsPositional(e: Epoch, l: Logical, s: System, keys: seq<string>, waiters: seq<nat>, at: seq<nat>,
                              ks: set<string>)
    requires EndToEnd.Inv(e, l, s, ks) && OwnPromises(s.pushed)
    requires |at| == |keys| == |waiters|
    requires forall i :: 0 <= i < |at| ==>
               at[i] < |s.pushed| && s.pushed[at[i]] == Queued(Op(keys[i], ""), waiters[i])
    requires forall i :: 0 <= i < |at| ==> at[i] < |s.answers|
    ensures forall i :: 0 <= i < |at| ==>
              ValueOf(s.answers, waiters[i]) == Some(Lookup(MapRun(l, ItemOps(s.pushed[..at[i]])), keys[i]))
  {
    hide MapAnswers, MapRun;
    AnswersArePrefix(e, l, s, ks);
    forall i | 0 <= i < |at|
      ensures ValueOf(s.answers, waiters[i]) == Some(Lookup(MapRun(l, ItemOps(s.pushed[..at[i]])), keys[i]))
    {
      OwnAnswer(l, s, at[i]);
      AnswerAt(l, ItemOps(s.pushed), at[i]);
      assert ItemOps(s.pushed)[..at[i]] == ItemOps(s.pushed[..at[i]]);
    }
  }

  lemma OwnAnswer(l: Logical, s: System, p: nat)
    requires OwnPromises(s.pushed) && p < |s.answers| <= |s.pushed|
    requires forall j :: 0 <= j < |s.answers| ==>
               s.answers[j] == (s.pushed[j].promise, MapAnswers(l, ItemOps(s.pushed))[j])
    ensures ValueOf(s.answers, s.pushed[p].promise) == Some(MapAnswers(l, ItemOps(s.pushed))[p])
  {
    forall i | 0 <= i < |s.answers| && i != p
      ensures s.answers[i].0 != s.answers[p].0
    {
      assert s.pushed[i].promise != s.pushed[p].promise;
    }
    ValueOfOnly(s.answers, p);
  }
}
