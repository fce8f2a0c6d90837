/** The in-place shuffle of `path_oram_util.h`.  The draw for position i is a number in 0..i; the
    draws are a parameter. */
module Shuffle {
  import opened Sums

  /** One draw per position; position 0 is never drawn for. */
  ghost predicate IsDraw(draws: seq<nat>, n: nat) {
    |draws| == n && forall i :: 0 <= i < n ==> draws[i] <= i
  }

  function Swapped<T>(s: seq<T>, i: nat, j: nat): (r: seq<T>)
    requires i < |s| && j < |s|
    ensures |r| == |s|
  {
    s[i := s[j]][j := s[i]]
  }

  /** The sequence after the loop has handled positions i, i-1, ..., 1. */
  function Permuted<T>(s: seq<T>, i: nat, draws: seq<nat>): (r: seq<T>)
    requires i < |s| && IsDraw(draws, |s|)
    ensures |r| == |s|
    ensures forall k :: i < k < |s| ==> r[k] == s[k]
    decreases i
  {
    if i == 0 then s
    else Permuted(Swapped(s, i, draws[i]), i - 1, draws)
  }

  /** The loop of `psuedo_random_permute`, for a non-empty array. */
  method PermuteInPlace<T>(items: array<T>, draws: seq<nat>)
    requires items.Length >= 1 && IsDraw(draws, items.Length)
    modifies items
    ensures items[..] == Permuted(old(items[..]), items.Length - 1, draws)
    ensures AtOrigins(old(items[..]), items[..], draws)
    ensures multiset(items[..]) == multiset(old(items[..]))
  {
    hide AtOrigins, Origin;
    var i := items.Length - 1;
    while i > 0
      invariant 0 <= i < items.Length
      invariant Permuted(items[..], i, draws) == Permuted(old(items[..]), items.Length - 1, draws)
    {
      var j := draws[i];
      ghost var was := items[..];
      var tmp := items[i];
      items[i] := items[j];
      items[j] := tmp;
      assert items[..] == Swapped(was, i, j);
      i := i - 1;
    }
    FinalPositions(old(items[..]), items[..], draws);
  }

  lemma SwappedKeepsElements<T>(s: seq<T>, i: nat, j: nat)
    requires j <= i < |s|
    ensures multiset(Swapped(s, i, j)) == multiset(s)
  {
    if j < i {
      SwappedSplit(s, i, j);
      Exchanged(s[..j], s[j], s[j + 1..i], s[i], s[i + 1..]);
    } else {
      assert Swapped(s, i, j) == s;
    }
  }

  lemma SwappedSplit<T>(s: seq<T>, i: nat, j: nat)
    requires j < i < |s|
    ensures s == s[..j] + [s[j]] + s[j + 1..i] + [s[i]] + s[i + 1..]
    ensures Swapped(s, i, j) == s[..j] + [s[i]] + s[j + 1..i] + [s[j]] + s[i + 1..]
  {
  }

  lemma Exchanged<T>(a: seq<T>, x: T, b: seq<T>, y: T, c: seq<T>)
    ensures multiset(a + [x] + b + [y] + c) == multiset(a + [y] + b + [x] + c)
  {
  }

  lemma {:induction false} PermutedKeepsElements<T>(s: seq<T>, i: nat, draws: seq<nat>)
    requires i < |s| && IsDraw(draws, |s|)
    ensures multiset(Permuted(s, i, draws)) == multiset(s)
    decreases i
  {
    if i > 0 {
      SwappedKeepsElements(s, i, draws[i]);
      PermutedKeepsElements(Swapped(s, i, draws[i]), i - 1, draws);
    }
  }

  /** Where the element that stands at position p just before the turn for position i stood at the start: the
      turn for a position q above brought it from q if p was drawn then, and left it alone otherwise. */
  function Origin(draws: seq<nat>, i: nat, p: nat): (o: nat)
    requires p < |draws| && i < |draws|
    ensures o < |draws|
    decreases |draws| - i
  {
    if i == |draws| - 1 then p
    else Origin(draws, i + 1, if p == draws[i + 1] then i + 1 else p)
  }

  /** The turns for the positions above have brought these elements. */
  ghost predicate BeforeTurn<T>(start: seq<T>, s: seq<T>, draws: seq<nat>, i: nat)
    requires i < |s| == |start| == |draws|
  {
    forall p :: 0 <= p <= i ==> s[p] == start[Origin(draws, i, p)]
  }

  lemma TurnMoves<T>(start: seq<T>, s: seq<T>, draws: seq<nat>, i: nat)
    requires 0 < i < |s| == |start| && IsDraw(draws, |s|) && BeforeTurn(start, s, draws, i)
    ensures BeforeTurn(start, Swapped(s, i, draws[i]), draws, i - 1)
    ensures Swapped(s, i, draws[i])[i] == start[Origin(draws, i, draws[i])]
  {
    forall p | 0 <= p <= i - 1
      ensures Swapped(s, i, draws[i])[p] == start[Origin(draws, i - 1, p)]
    {
      assert Origin(draws, i - 1, p) == Origin(draws, i, if p == draws[i] then i else p);
    }
  }

  lemma {:induction false} PermutedFrom<T>(start: seq<T>, s: seq<T>, i: nat, draws: seq<nat>, k: nat)
    requires i < |s| == |start| && IsDraw(draws, |s|) && BeforeTurn(start, s, draws, i) && k <= i
    ensures Permuted(s, i, draws)[k] == start[Origin(draws, k, draws[k])]
    decreases i
  {
    if i == 0 {
      assert draws[0] == 0;
    } else {
      TurnMoves(start, s, draws, i);
      if k < i {
        PermutedFrom(start, Swapped(s, i, draws[i]), i - 1, draws, k);
      }
    }
  }

  ghost predicate AtOrigins<T>(s: seq<T>, t: seq<T>, draws: seq<nat>) {
    && |s| == |t| == |draws| && IsDraw(draws, |s|)
    && forall k :: 0 <= k < |s| ==> AtOrigin(s, t, draws, k)
  }

  ghost predicate AtOrigin<T>(s: seq<T>, t: seq<T>, draws: seq<nat>, k: nat)
    requires k < |s| == |t| == |draws| && IsDraw(draws, |s|)
  {
    t[k] == s[Origin(draws, k, draws[k])]
  }

  /** The element that ends up at each position: the one that stood at the position drawn for it when its
      turn came.  (Position 0, which gets no turn, is as if 0 had been drawn for it.) */
  lemma FinalPositions<T>(s: seq<T>, t: seq<T>, draws: seq<nat>)
    requires |s| >= 1 && IsDraw(draws, |s|) && t == Permuted(s, |s| - 1, draws)
    ensures AtOrigins(s, t, draws) && multiset(t) == multiset(s)
  {
    hide AtOrigin, Permuted;
    PermutedKeepsElements(s, |s| - 1, draws);
    forall k | 0 <= k < |s|
      ensures AtOrigin(s, t, draws, k)
    {
      FinalAt(s, draws, k);
    }
  }

  lemma FinalAt<T>(s: seq<T>, draws: seq<nat>, k: nat)
    requires k < |s| && IsDraw(draws, |s|)
    ensures AtOrigin(s, Permuted(s, |s| - 1, draws), draws, k)
  {
    hide Permuted;
    NothingMoved(s, draws);
    PermutedFrom(s, s, |s| - 1, draws, k);
  }

  lemma NothingMoved<T>(s: seq<T>, draws: seq<nat>)
    requires |s| >= 1 && |draws| == |s|
    ensures BeforeTurn(s, s, draws, |s| - 1)
  {
  }

  lemma SwappedDistinct<T>(s: seq<T>, i: nat, j: nat)
    requires j <= i < |s| && Distinct(s)
    ensures Distinct(Swapped(s, i, j))
  {
  }

  /** On distinct elements, two different draw sequences give two different arrangements. */
  lemma {:induction false} DrawsAreDetermined<T>(s: seq<T>, i: nat, d: seq<nat>, d': seq<nat>)
    requires i < |s| && IsDraw(d, |s|) && IsDraw(d', |s|) && Distinct(s)
    requires Permuted(s, i, d) == Permuted(s, i, d')
    ensures forall k :: 0 <= k <= i ==> d[k] == d'[k]
    decreases i
  {
    if i > 0 {
      var t, t' := Swapped(s, i, d[i]), Swapped(s, i, d'[i]);
      assert t[i] == Permuted(s, i, d)[i] == t'[i];
      assert s[d[i]] == s[d'[i]];
      SwappedDistinct(s, i, d[i]);
      DrawsAreDetermined(t, i - 1, d, d');
    }
  }

  /** Every arrangement arises from some draw sequence. */
  lemma {:induction false} DrawsExist<T>(s: seq<T>, i: nat, t: seq<T>) returns (draws: seq<nat>)
    requires i < |s| == |t| && s[i + 1..] == t[i + 1..]
    requires multiset(s[..i + 1]) == multiset(t[..i + 1])
    ensures IsDraw(draws, |s|) && Permuted(s, i, draws) == t
    ensures forall k :: i < k < |s| ==> draws[k] == 0
    decreases i
  {
    var j := IndexFor(s, i, t);
    if i == 0 {
      OneLeft(s, t);
      draws := seq(|s|, _ => 0);
    } else {
      var r := Swapped(s, i, j);
      SwapPlaces(s, i, j, t);
      assert r[i - 1 + 1..] == t[i..] && r[..i] == r[..i - 1 + 1];
      var rest := DrawsExist(r, i - 1, t);
      draws := DrawFirst(s, i, j, t, rest);
    }
  }

  /** The draw for position i comes before the draws for the positions below. */
  lemma DrawFirst<T>(s: seq<T>, i: nat, j: nat, t: seq<T>, rest: seq<nat>) returns (draws: seq<nat>)
    requires 0 < i < |s| && j <= i && IsDraw(rest, |s|) && Permuted(Swapped(s, i, j), i - 1, rest) == t
    requires forall k :: i <= k < |s| ==> rest[k] == 0
    ensures IsDraw(draws, |s|) && Permuted(s, i, draws) == t
    ensures forall k :: i < k < |s| ==> draws[k] == 0
  {
    draws := rest[i := j];
    PermutedIgnoresLater(Swapped(s, i, j), i - 1, rest, draws);
  }

  lemma OneLeft<T>(s: seq<T>, t: seq<T>)
    requires 0 < |s| == |t| && s[0] == t[0] && s[1..] == t[1..]
    ensures s == t
  {
    assert s == [s[0]] + s[1..] && t == [t[0]] + t[1..];
  }

  lemma IndexFor<T>(s: seq<T>, i: nat, t: seq<T>) returns (j: nat)
    requires i < |s| == |t| && multiset(s[..i + 1]) == multiset(t[..i + 1])
    ensures j <= i && s[j] == t[i]
  {
    assert t[..i + 1][i] in multiset(t[..i + 1]);
    assert t[i] in s[..i + 1];
    j :| 0 <= j < i + 1 && s[..i + 1][j] == t[i];
  }

  /** Swapping the wanted element into position i leaves the same problem for the positions before. */
  lemma SwapPlaces<T>(s: seq<T>, i: nat, j: nat, t: seq<T>)
    requires 0 < i < |s| == |t| && j <= i && s[j] == t[i]
    requires s[i + 1..] == t[i + 1..] && multiset(s[..i + 1]) == multiset(t[..i + 1])
    ensures multiset(Swapped(s, i, j)[..i]) == multiset(t[..i])
    ensures Swapped(s, i, j)[i..] == t[i..]
  {
    SwapBefore(s[..i + 1], i, j, t[..i + 1]);
    SwapBehind(s, i, j, t);
  }

  lemma SwapBefore<T>(a: seq<T>, i: nat, j: nat, b: seq<T>)
    requires j <= i && |a| == |b| == i + 1 && a[j] == b[i] && multiset(a) == multiset(b)
    ensures multiset(Swapped(a, i, j)[..i]) == multiset(b[..i])
  {
    SwappedKeepsElements(a, i, j);
    WithoutLast(Swapped(a, i, j), b, i);
  }

  lemma SwapBehind<T>(s: seq<T>, i: nat, j: nat, t: seq<T>)
    requires 0 < i < |s| == |t| && j <= i && s[j] == t[i] && s[i + 1..] == t[i + 1..]
    ensures Swapped(s, i, j)[i..] == t[i..]
    ensures Swapped(s, i, j)[..i] == Swapped(s[..i + 1], i, j)[..i] && t[..i + 1][..i] == t[..i]
  {
    assert Swapped(s, i, j)[i..] == [t[i]] + s[i + 1..] && t[i..] == [t[i]] + t[i + 1..];
  }

  lemma FrontOf<T>(a: seq<T>, i: nat)
    requires |a| == i + 1
    ensures multiset(a[..i]) == multiset(a) - multiset{a[i]}
  {
    assert a == a[..i] + [a[i]];
  }

  lemma WithoutLast<T>(a: seq<T>, b: seq<T>, i: nat)
    requires |a| == |b| == i + 1 && a[i] == b[i] && multiset(a) == multiset(b)
    ensures multiset(a[..i]) == multiset(b[..i])
  {
    FrontOf(a, i);
    FrontOf(b, i);
  }

  lemma {:induction false} PermutedIgnoresLater<T>(s: seq<T>, i: nat, d: seq<nat>, d': seq<nat>)
    requires i < |s| && IsDraw(d, |s|) && IsDraw(d', |s|)
    requires forall k :: 0 <= k <= i ==> d[k] == d'[k]
    ensures Permuted(s, i, d) == Permuted(s, i, d')
    decreases i
  {
    if i > 0 {
      PermutedIgnoresLater(Swapped(s, i, d[i]), i - 1, d, d');
    }
  }

  /** The arrangements that arise are those of the same elements. */
  lemma Arises<T>(s: seq<T>, t: seq<T>)
    requires |s| >= 1
    ensures (exists d :: IsDraw(d, |s|) && Permuted(s, |s| - 1, d) == t) <==> multiset(t) == multiset(s)
  {
    var n := |s|;
    forall d | IsDraw(d, n) && Permuted(s, n - 1, d) == t
      ensures multiset(t) == multiset(s)
    {
      PermutedKeepsElements(s, n - 1, d);
    }
    if multiset(t) == multiset(s) {
      var d := DrawsFor(s, t);
    }
  }

  lemma DrawsFor<T>(s: seq<T>, t: seq<T>) returns (d: seq<nat>)
    requires |s| >= 1 && multiset(t) == multiset(s)
    ensures IsDraw(d, |s|) && Permuted(s, |s| - 1, d) == t
  {
    var n := |s|;
    assert |t| == |multiset(t)| == n;
    assert s[..n] == s && t[..n] == t;
    d := DrawsExist(s, n - 1, t);
  }

  lemma SameDraws<T>(s: seq<T>, d: seq<nat>, d': seq<nat>)
    requires |s| >= 1 && Distinct(s) && IsDraw(d, |s|) && IsDraw(d', |s|)
    requires Permuted(s, |s| - 1, d) == Permuted(s, |s| - 1, d')
    ensures d == d'
  {
    DrawsAreDetermined(s, |s| - 1, d, d');
  }

  /** The shuffle is unbiased: on n >= 1 distinct elements the draw sequences are in one-to-one
      correspondence with the arrangements, so uniform draws give a uniform arrangement. */
  lemma Unbiased<T>(s: seq<T>, t: seq<T>)
    requires |s| >= 1 && Distinct(s)
    ensures (exists d :: IsDraw(d, |s|) && Permuted(s, |s| - 1, d) == t) <==> multiset(t) == multiset(s)
    ensures forall d, d' | IsDraw(d, |s|) && IsDraw(d', |s|) ::
              Permuted(s, |s| - 1, d) == t == Permuted(s, |s| - 1, d') ==> d == d'
  {
    Arises(s, t);
    forall d, d' | IsDraw(d, |s|) && IsDraw(d', |s|)
      ensures Permuted(s, |s| - 1, d) == t == Permuted(s, |s| - 1, d') ==> d == d'
    {
      if Permuted(s, |s| - 1, d) == t == Permuted(s, |s| - 1, d') {
        SameDraws(s, d, d');
      }
    }
  }
}
