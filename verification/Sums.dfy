/** Finite sums over sequences, and over a map along an enumeration of its keys. */
module Sums {

  function Sum(s: seq<real>): real {
    if s == [] then 0.0 else Sum(s[..|s| - 1]) + s[|s| - 1]
  }

  function Total(s: seq<int>): int {
    if s == [] then 0 else Total(s[..|s| - 1]) + s[|s| - 1]
  }

  /** The sum of the first n elements. */
  function PrefixTotal(s: seq<int>, n: nat): int
    requires n <= |s|
  {
    if n == 0 then 0 else PrefixTotal(s, n - 1) + s[n - 1]
  }

  lemma {:induction false} PrefixTotalIs(s: seq<int>, n: nat)
    requires n <= |s|
    ensures PrefixTotal(s, n) == Total(s[..n])
  {
    if n > 0 {
      PrefixTotalIs(s, n - 1);
      assert s[..n][..n - 1] == s[..n - 1];
    }
  }

  lemma TotalSnoc(s: seq<int>, x: int)
    ensures Total(s + [x]) == Total(s) + x
  {
    assert (s + [x])[..|s|] == s;
  }

  /** A sum whose terms are all zero except one is that term. */
  lemma {:induction false} SumSingle(s: seq<real>, at: nat)
    requires at < |s|
    requires forall k :: 0 <= k < |s| && k != at ==> s[k] == 0.0
    ensures Sum(s) == s[at]
  {
    var front := s[..|s| - 1];
    if at == |s| - 1 {
      SumZero(front);
    } else {
      SumSingle(front, at);
    }
  }

  lemma {:induction false} SumZero(s: seq<real>)
    requires forall k :: 0 <= k < |s| ==> s[k] == 0.0
    ensures Sum(s) == 0.0
  {
    if s != [] {
      SumZero(s[..|s| - 1]);
    }
  }

  lemma {:induction false} SumScaled(s: seq<real>, t: seq<real>, c: real)
    requires |s| == |t|
    requires forall k :: 0 <= k < |s| ==> t[k] == s[k] * c
    ensures Sum(t) == Sum(s) * c
  {
    if s != [] {
      SumScaled(s[..|s| - 1], t[..|t| - 1], c);
    }
  }

  /** The sum of `counts` along the sequence `keys`. */
  function Along(keys: seq<string>, counts: map<string, nat>): nat {
    if keys == [] then 0
    else Along(keys[..|keys| - 1], counts) + At(counts, keys[|keys| - 1])
  }

  /** A missing key counts as zero. */
  function At(counts: map<string, nat>, key: string): nat {
    if key in counts then counts[key] else 0
  }

  predicate Distinct<T(==)>(s: seq<T>) {
    forall i, j :: 0 <= i < j < |s| ==> s[i] != s[j]
  }

  ghost predicate SameKeys(a: seq<string>, b: seq<string>) {
    forall k :: k in a <==> k in b
  }

  lemma AlongSnoc(keys: seq<string>, k: string, counts: map<string, nat>)
    ensures Along(keys + [k], counts) == Along(keys, counts) + At(counts, k)
  {
    assert (keys + [k])[..|keys|] == keys;
  }

  lemma {:induction false} AlongConcat(a: seq<string>, b: seq<string>, counts: map<string, nat>)
    ensures Along(a + b, counts) == Along(a, counts) + Along(b, counts)
    decreases |b|
  {
    if b == [] {
      assert a + b == a;
    } else {
      var front := b[..|b| - 1];
      AlongConcat(a, front, counts);
      assert (a + b)[..|a + b| - 1] == a + front;
    }
  }

  lemma {:induction false} AlongAgree(keys: seq<string>, c: map<string, nat>, d: map<string, nat>)
    requires forall k :: k in keys ==> At(c, k) == At(d, k)
    ensures Along(keys, c) == Along(keys, d)
  {
    if keys != [] {
      AlongAgree(keys[..|keys| - 1], c, d);
    }
  }

  /** Taking an element out. */
  lemma AlongWithout(b: seq<string>, p: nat, counts: map<string, nat>)
    requires p < |b|
    ensures Along(b, counts) == Along(b[..p] + b[p + 1..], counts) + At(counts, b[p])
  {
    assert b == b[..p] + [b[p]] + b[p + 1..];
    AlongConcat(b[..p] + [b[p]], b[p + 1..], counts);
    AlongSnoc(b[..p], b[p], counts);
    AlongConcat(b[..p], b[p + 1..], counts);
  }

  lemma Without(a: seq<string>, b: seq<string>, p: nat)
    requires Distinct(a) && Distinct(b) && a != [] && SameKeys(a, b)
    requires p < |b| && b[p] == a[|a| - 1]
    ensures Distinct(b[..p] + b[p + 1..]) && SameKeys(a[..|a| - 1], b[..p] + b[p + 1..])
  {
    var x, front, rest := a[|a| - 1], a[..|a| - 1], b[..p] + b[p + 1..];
    assert a == front + [x] && x !in front;
    assert b == b[..p] + [x] + b[p + 1..] && x !in b[..p] && x !in b[p + 1..];
    forall k
      ensures k in front <==> k in rest
    {
      assert k in front <==> k in a && k != x;
      assert k in rest <==> k in b && k != x;
    }
  }

  /** The sum does not depend on the order in which the keys are enumerated. */
  lemma {:induction false} AlongAnyOrder(a: seq<string>, b: seq<string>, counts: map<string, nat>)
    requires Distinct(a) && Distinct(b) && SameKeys(a, b)
    ensures Along(a, counts) == Along(b, counts)
    decreases |a|
  {
    assert b != [] ==> b[0] in b;
    if a != [] {
      assert a[|a| - 1] in b;
      var p :| 0 <= p < |b| && b[p] == a[|a| - 1];
      Without(a, b, p);
      AlongAnyOrder(a[..|a| - 1], b[..p] + b[p + 1..], counts);
      AlongWithout(b, p, counts);
    }
  }

  lemma RestOf(b: seq<string>, p: nat)
    requires p < |b| && Distinct(b)
    ensures var rest := b[..p] + b[p + 1..];
            Distinct(rest) && b[p] !in rest && forall k :: k in b <==> k in rest || k == b[p]
  {
    assert b == b[..p] + [b[p]] + b[p + 1..];
  }

  /** A sum over some keys is at most the sum over all that count; it is the same only if none that counts
      is left out. */
  lemma {:induction false} AlongPart(a: seq<string>, b: seq<string>, counts: map<string, nat>)
    requires Distinct(a) && Distinct(b) && forall k :: k in a && At(counts, k) > 0 ==> k in b
    ensures Along(a, counts) <= Along(b, counts)
    ensures Along(a, counts) == Along(b, counts) ==> forall k :: k in b && At(counts, k) > 0 ==> k in a
    decreases |a|
  {
    if a == [] {
      AlongZero(b, counts);
    } else {
      var x, front := a[|a| - 1], a[..|a| - 1];
      assert a == front + [x];
      if x in b {
        var p :| 0 <= p < |b| && b[p] == x;
        var rest := b[..p] + b[p + 1..];
        RestOf(b, p);
        AlongPart(front, rest, counts);
        AlongWithout(b, p, counts);
      } else {
        AlongPart(front, b, counts);
      }
    }
  }

  lemma {:induction false} AlongZero(b: seq<string>, counts: map<string, nat>)
    ensures Along(b, counts) == 0 ==> forall k :: k in b ==> At(counts, k) == 0
  {
    if b != [] {
      AlongZero(b[..|b| - 1], counts);
      assert b == b[..|b| - 1] + [b[|b| - 1]];
    }
  }
}
