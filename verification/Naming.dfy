/** Replica names (`key + std::to_string(i)`) and the text form of labels.

    The directory of the proxy is one flat map keyed by replica name, so everything the
    proxy promises about replicas rests on names being unambiguous.  This module decides
    exactly when they are. */
module Naming {
  import opened Wrappers

  /** `std::to_string` of a non-negative integer. */
  function Decimal(n: nat): (s: string)
    ensures |s| > 0
    decreases n
  {
    if n < 10 then [Digit(n)] else Decimal(n / 10) + [Digit(n % 10)]
  }

  function Digit(d: nat): (c: char)
    requires d < 10
  {
    "0123456789"[d]
  }

  predicate IsDigit(c: char) {
    '0' <= c <= '9'
  }

  predicate AllDigits(s: string) {
    forall k :: 0 <= k < |s| ==> IsDigit(s[k])
  }

  /** `std::stoi` of a text that is all digits. */
  function Parse(s: string): nat
    requires AllDigits(s)
  {
    if s == [] then 0
    else 10 * Parse(s[..|s| - 1]) + (s[|s| - 1] as int - '0' as int)
  }

  /** A text that `to_string` can have printed: digits without a superfluous leading zero. */
  predicate Canonical(s: string) {
    s != [] && AllDigits(s) && (|s| > 1 ==> s[0] != '0')
  }

  lemma DecimalIsCanonical(n: nat)
    ensures Canonical(Decimal(n))
    ensures n > 0 ==> Decimal(n)[0] != '0'
  {
  }

  /** Reading a printed number gives the number back. */
  lemma {:induction false} ParseDecimal(n: nat)
    ensures AllDigits(Decimal(n)) && Parse(Decimal(n)) == n
    decreases n
  {
    DecimalIsCanonical(n);
    if n < 10 {
      assert Decimal(n)[..0] == [];
    } else {
      ParseDecimal(n / 10);
      assert Decimal(n)[..|Decimal(n)| - 1] == Decimal(n / 10);
    }
  }

  lemma LastDigit(n: nat, c: char)
    requires n > 0 && IsDigit(c)
    ensures Decimal(10 * n + (c as int - '0' as int)) == Decimal(n) + [c]
  {
  }

  /** Printing a read number gives the text back, for every canonical text. */
  lemma {:induction false} DecimalParse(s: string)
    requires Canonical(s)
    ensures Decimal(Parse(s)) == s
    ensures s[0] != '0' ==> Parse(s) > 0
    decreases |s|
  {
    var front, last := s[..|s| - 1], s[|s| - 1];
    hide Decimal, Parse;
    if front == [] {
      assert s == [last];
      OneDigit(last);
    } else {
      assert s == front + [last] && front[0] == s[0];
      DecimalParse(front);
      OneMoreDigit(front, last);
    }
  }

  lemma OneMoreDigit(front: string, last: char)
    requires AllDigits(front) && IsDigit(last) && Parse(front) > 0 && Decimal(Parse(front)) == front
    ensures AllDigits(front + [last]) && Parse(front + [last]) > 0 && Decimal(Parse(front + [last])) == front + [last]
  {
    hide Decimal, Parse;
    ParseSnoc(front, last);
    LastDigit(Parse(front), last);
  }

  lemma OneDigit(c: char)
    requires IsDigit(c)
    ensures AllDigits([c]) && Decimal(Parse([c])) == [c] && (c != '0' ==> Parse([c]) > 0)
  {
    assert [c][..0] == [] && Parse([c]) == c as int - '0' as int;
  }

  lemma ParseSnoc(s: string, c: char)
    requires AllDigits(s) && IsDigit(c)
    ensures AllDigits(s + [c]) && Parse(s + [c]) == 10 * Parse(s) + (c as int - '0' as int)
  {
    assert (s + [c])[..|s|] == s;
  }

  lemma DecimalInjective(m: nat, n: nat)
    requires Decimal(m) == Decimal(n)
    ensures m == n
  {
    ParseDecimal(m);
    ParseDecimal(n);
  }

  /** The key under which replica `i` of `key` is filed in `replica_to_label_`. */
  function Name(key: string, i: nat): string {
    key + Decimal(i)
  }

  /** `longer` is `key` followed by digits that do not start with a zero. */
  predicate ExtendsByNumber(key: string, longer: string) {
    && |key| < |longer|
    && longer[..|key|] == key
    && AllDigits(longer[|key|..])
    && longer[|key|] != '0'
  }

  /** The names of the first r replicas of k reach those of k', which has r'. */
  predicate Meet(k: string, r: nat, k': string, r': nat) {
    ExtendsByNumber(k, k') && r' > 0 && 10 * Parse(k'[|k|..]) < r
  }

  /** Two different keys with r and r' replicas have a name in common exactly when one key is the other
      followed by the digits of a positive number m, it has a replica, and the other has more than
      10*m. */
  lemma NameCollision(k: string, r: nat, k': string, r': nat)
    requires k != k'
    ensures (exists i: nat, j: nat :: SharedName(k, r, i, k', r', j)) <==> Meet(k, r, k', r') || Meet(k', r', k, r)
  {
    forall i: nat, j: nat | SharedName(k, r, i, k', r', j)
      ensures Meet(k, r, k', r') || Meet(k', r', k, r)
    {
      if |k| <= |k'| {
        SharedNameMeets(k, k', i, j);
      } else {
        SharedNameMeets(k', k, j, i);
      }
    }
    if Meet(k, r, k', r') {
      var i := FirstShared(k, k');
      assert SharedName(k, r, i, k', r', 0);
    }
    if Meet(k', r', k, r) {
      var j := FirstShared(k', k);
      assert SharedName(k, r, 0, k', r', j);
    }
  }

  /** Replica i of the r of k and replica j of the r' of k' have one name. */
  predicate SharedName(k: string, r: nat, i: nat, k': string, r': nat, j: nat) {
    i < r && j < r' && Name(k, i) == Name(k', j)
  }

  lemma SharedNameMeets(k: string, k': string, i: nat, j: nat)
    requires k != k' && |k| <= |k'| && Name(k, i) == Name(k', j)
    ensures ExtendsByNumber(k, k') && 10 * Parse(k'[|k|..]) <= i
  {
    var name := Name(k, i);
    assert k == name[..|k|] && k' == name[..|k'|];
    assert k == k'[..|k|];
    assert |k| < |k'|;
    var s := k'[|k|..];
    assert Decimal(i) == name[|k|..] == s + Decimal(j);
    DecimalIsCanonical(i);
    assert forall x :: 0 <= x < |s| ==> s[x] == Decimal(i)[x];
    DecimalIsCanonical(j);
    ParseDecimal(i);
    LongerIsLarger(s, Decimal(j));
  }

  lemma {:induction false} LongerIsLarger(s: string, d: string)
    requires AllDigits(s) && AllDigits(d) && d != []
    ensures AllDigits(s + d) && Parse(s + d) >= 10 * Parse(s)
    decreases |d|
  {
    var front, last := d[..|d| - 1], d[|d| - 1];
    assert s + d == (s + front) + [last];
    if front == [] {
      assert s + front == s;
    } else {
      LongerIsLarger(s, front);
    }
    ParseSnoc(s + front, last);
  }

  lemma AppendZero(n: nat)
    requires n > 0
    ensures Decimal(10 * n) == Decimal(n) + Decimal(0)
  {
    LastDigit(n, '0');
  }

  /** The first name that k shares with its extension. */
  lemma FirstShared(k: string, k': string) returns (i: nat)
    requires ExtendsByNumber(k, k')
    ensures i == 10 * Parse(k'[|k|..]) && Name(k, i) == Name(k', 0)
  {
    var s := k'[|k|..];
    DecimalParse(s);
    i := 10 * Parse(s);
    AppendZero(Parse(s));
    assert k' == k + s;
  }

  /** With at most ten replicas each, no two keys have a name in common. */
  lemma TenAreFew(k: string, r: nat, k': string, r': nat)
    requires r <= 10
    ensures !Meet(k, r, k', r')
  {
    if ExtendsByNumber(k, k') {
      DecimalParse(k'[|k|..]);
    }
  }

  /** Keys of one length, as `key_size_` intends, have none in common either. */
  lemma EqualLengthApart(k: string, r: nat, k': string, r': nat)
    requires |k| == |k'|
    ensures !Meet(k, r, k', r')
  {
  }

  /** Otherwise a name determines the key and the replica number. */
  lemma NameInjective(k: string, r: nat, i: nat, k': string, r': nat, j: nat)
    requires i < r && j < r' && Name(k, i) == Name(k', j)
    requires !Meet(k, r, k', r') && !Meet(k', r', k, r)
    ensures k == k' && i == j
  {
    if k == k' {
      SameKeyName(k, i, j);
    } else {
      assert SharedName(k, r, i, k', r', j);
      NameCollision(k, r, k', r');
    }
  }

  lemma SameKeyName(k: string, i: nat, j: nat)
    requires Name(k, i) == Name(k, j)
    ensures i == j
  {
    assert Decimal(i) == Name(k, i)[|k|..] == Decimal(j);
    DecimalInjective(i, j);
  }

  /** A label that is moved goes through `std::string text; text = <int>`, which keeps one
      byte, and then through `std::stoi`, which accepts one character only if it is a digit
      (`None` stands for the exception it throws otherwise). */
  function ThroughOneByteText(number: nat): Option<nat> {
    var b := number % 256;
    if '0' as int <= b <= '9' as int then Some(b - '0' as int) else None
  }

  /** It gives a number exactly if the label's low byte is the code of a digit, and then that digit. */
  lemma OneByteTextExactly(number: nat, d: nat)
    ensures ThroughOneByteText(number) == Some(d) <==> d < 10 && number % 256 == 48 + d
  {
    assert '0' as int == 48 && '9' as int == 57;
  }

  /** That conversion never gives the label back. */
  lemma OneByteTextLosesLabel(number: nat)
    ensures ThroughOneByteText(number) != Some(number)
  {
    var b := number % 256;
    if '0' as int <= b <= '9' as int {
      assert b - '0' as int < 10;
      assert number < 256 ==> b == number;
    }
  }
}
