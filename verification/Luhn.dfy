/** The Luhn check (ISO/IEC 7812-1, Annex B), written twice in the repository, against one specification. */
module Luhn {

  // luhnValid of chat-front/src/privacy/piiRedactor.ts strips everything but digits first,
  // luhnValid of PiiGuard.java skips it on the way.

  predicate IsDigit(c: char) {
    '0' <= c <= '9'
  }

  function DigitOf(c: char): (n: nat)
    requires IsDigit(c)
    ensures n < 10
  {
    c as nat - '0' as nat
  }

  predicate AllDigits(d: seq<nat>) {
    forall i :: 0 <= i < |d| ==> d[i] < 10
  }

  function Digits(s: string): (d: seq<nat>)
    ensures |d| <= |s| && AllDigits(d)
  {
    if s == [] then []
    else
      var c := s[|s| - 1];
      Digits(s[..|s| - 1]) + if IsDigit(c) then [DigitOf(c)] else []
  }

  /** A digit's share of the sum; doubled digits are cast out by nines. */
  function Weight(n: nat, double: bool): nat {
    if !double then n else if 2 * n > 9 then 2 * n - 9 else 2 * n
  }

  /** The weighted sum from the right; `double` says whether the last digit is doubled. */
  function Sum(d: seq<nat>, double: bool): nat {
    if d == [] then 0 else Sum(d[..|d| - 1], !double) + Weight(d[|d| - 1], double)
  }

  /** Between 13 and 19 digits whose sum ends in zero. */
  predicate Accepts(s: string) {
    13 <= |Digits(s)| <= 19 && Sum(Digits(s), false) % 10 == 0
  }

  // -- The sum as the standard has it ------------------------------------------

  /** Pairs from the right: the check digit counts as it is, and its neighbour with the digits of its double. */
  function ByPairs(d: seq<nat>): nat {
    if d == [] then 0
    else if |d| == 1 then d[0]
    else ByPairs(d[..|d| - 2]) + 2 * d[|d| - 2] / 10 + 2 * d[|d| - 2] % 10 + d[|d| - 1]
  }

  lemma {:induction false} SumIsByPairs(d: seq<nat>)
    requires AllDigits(d)
    ensures Sum(d, false) == ByPairs(d)
  {
    if |d| == 1 {
      assert Sum(d[..0], true) == 0;
    } else if d != [] {
      assert d[..|d| - 1][..|d| - 2] == d[..|d| - 2];
      SumIsByPairs(d[..|d| - 2]);
    }
  }

  /** What both implementations accept: 13 to 19 digits whose sum by pairs ends in zero. */
  lemma AcceptsByPairs(s: string)
    ensures Accepts(s) <==> 13 <= |Digits(s)| <= 19 && ByPairs(Digits(s)) % 10 == 0
  {
    SumIsByPairs(Digits(s));
  }

  lemma LastChar(s: string, i: nat)
    requires i < |s|
    ensures Digits(s[..i + 1]) == if IsDigit(s[i]) then Digits(s[..i]) + [DigitOf(s[i])] else Digits(s[..i])
  {
    assert s[..i + 1][..i] == s[..i];
  }

  lemma LastDigit(d: seq<nat>, n: nat, double: bool)
    ensures Sum(d + [n], double) == Sum(d, !double) + Weight(n, double)
  {
    assert (d + [n])[..|d|] == d;
  }

  // -- The two implementations -------------------------------------------------

  /** piiRedactor.ts: replace(/\D/g, ""), a length test, then one pass from the right. */
  method LuhnValidTs(s: string) returns (ok: bool)
    ensures ok <==> Accepts(s)
  {
    var d := Digits(s);
    if |d| < 13 || |d| > 19 {
      return false;
    }
    var sum, double, i := 0, false, |d|;
    assert d[..|d|] == d;
    while i > 0
      invariant 0 <= i <= |d|
      invariant Sum(d, false) == sum + Sum(d[..i], double)
    {
      i := i - 1;
      assert d[..i + 1][..i] == d[..i];
      var n := d[i];
      if double {
        n := n * 2;
        if n > 9 {
          n := n - 9;
        }
      }
      sum := sum + n;
      double := !double;
    }
    ok := sum % 10 == 0;
  }

  /** PiiGuard.java: one pass from the right over the whole string, counting digits as it goes. */
  method LuhnValidJava(s: string) returns (ok: bool)
    ensures ok <==> Accepts(s)
  {
    var sum, count, dbl, i := 0, 0, false, |s|;
    assert s[..|s|] == s;
    while i > 0
      invariant 0 <= i <= |s|
      invariant count + |Digits(s[..i])| == |Digits(s)|
      invariant Sum(Digits(s), false) == sum + Sum(Digits(s[..i]), dbl)
    {
      i := i - 1;
      LastChar(s, i);
      var c := s[i];
      if !IsDigit(c) {
        continue;
      }
      var n := DigitOf(c);
      LastDigit(Digits(s[..i]), n, dbl);
      if dbl {
        n := n * 2;
        if n > 9 {
          n := n - 9;
        }
      }
      assert n == Weight(DigitOf(c), dbl);
      sum := sum + n;
      dbl := !dbl;
      count := count + 1;
    }
    ok := 13 <= count <= 19 && sum % 10 == 0;
  }

  // -- What the check detects --------------------------------------------------

  /** Is the digit at i doubled? */
  function Doubled(n: nat, i: nat, double: bool): bool
    requires i < n
  {
    if i == n - 1 then double else Doubled(n - 1, i, !double)
  }

  lemma {:induction false} DoubledAlternates(n: nat, i: nat, double: bool)
    requires i + 1 < n
    ensures Doubled(n, i + 1, double) == !Doubled(n, i, double)
  {
    if i + 1 < n - 1 {
      DoubledAlternates(n - 1, i, !double);
    }
  }

  /** Replacing one digit moves the sum by the difference of its two weights. */
  lemma {:induction false} SumReplaced(d: seq<nat>, i: nat, x: nat, double: bool)
    requires i < |d|
    ensures Sum(d[i := x], double) + Weight(d[i], Doubled(|d|, i, double))
              == Sum(d, double) + Weight(x, Doubled(|d|, i, double))
  {
    var n := |d| - 1;
    var e := d[i := x];
    if i == n {
      assert e[..n] == d[..n];
    } else {
      assert e[..n] == d[..n][i := x];
      SumReplaced(d[..n], i, x, !double);
    }
  }

  /** Both weightings are one-to-one modulo ten. */
  lemma WeightsDiffer(a: nat, b: nat, double: bool)
    requires a < 10 && b < 10
    ensures Weight(a, double) < 10 && Weight(b, double) < 10
    ensures Weight(a, double) == Weight(b, double) <==> a == b
  {
  }

  lemma DigitReplaced(d: seq<nat>, i: nat, x: nat, double: bool)
    requires AllDigits(d) && i < |d| && x < 10 && Sum(d, double) % 10 == 0
    ensures Sum(d[i := x], double) % 10 == 0 <==> x == d[i]
  {
    var p := Doubled(|d|, i, double);
    SumReplaced(d, i, x, double);
    WeightsDiffer(d[i], x, p);
    Moved(Sum(d, double), Sum(d[i := x], double), Weight(x, p) - Weight(d[i], p));
  }

  lemma Moved(sum: int, sum': int, delta: int)
    requires sum % 10 == 0 && sum' == sum + delta
    ensures sum' % 10 == 0 <==> delta % 10 == 0
  {
  }

  /** Where a digit of the string stands among its digits. */
  function Index(s: string, i: nat): nat
    requires i <= |s|
  {
    |Digits(s[..i])|
  }

  lemma {:induction false} DigitsReplaced(s: string, i: nat, c: char)
    requires i < |s| && IsDigit(s[i]) && IsDigit(c)
    ensures Index(s, i) < |Digits(s)| && Digits(s)[Index(s, i)] == DigitOf(s[i])
    ensures Digits(s[i := c]) == Digits(s)[Index(s, i) := DigitOf(c)]
  {
    var n := |s| - 1;
    if i == n {
      assert s[i := c][..n] == s[..n];
    } else {
      assert s[i := c][..n] == s[..n][i := c];
      assert s[..n][..i] == s[..i];
      DigitsReplaced(s[..n], i, c);
    }
  }

  /** Changing any one digit of an accepted number makes both implementations reject it. */
  lemma OneDigitDetected(s: string, i: nat, c: char)
    requires Accepts(s) && i < |s| && IsDigit(s[i]) && IsDigit(c)
    ensures Accepts(s[i := c]) <==> c == s[i]
  {
    DigitsReplaced(s, i, c);
    DigitReplaced(Digits(s), Index(s, i), DigitOf(c), false);
  }

  predicate NinesAndZero(a: char, b: char) {
    (a == '0' && b == '9') || (a == '9' && b == '0')
  }

  lemma SwapSum(d: seq<nat>, i: nat, double: bool)
    requires AllDigits(d) && i + 1 < |d| && Sum(d, double) % 10 == 0
    ensures Sum(d[i := d[i + 1]][i + 1 := d[i]], double) % 10 == 0 <==>
            d[i] == d[i + 1] || (d[i] + d[i + 1] == 9 && (d[i] == 0 || d[i] == 9))
  {
    var once, x, y, p := d[i := d[i + 1]], d[i], d[i + 1], Doubled(|d|, i, double);
    SumReplaced(d, i, y, double);
    SumReplaced(once, i + 1, x, double);
    DoubledAlternates(|d|, i, double);
    SwapWeights(x, y, p);
    Moved(Sum(d, double), Sum(once[i + 1 := x], double), Weight(y, p) + Weight(x, !p) - Weight(x, p) - Weight(y, !p));
  }

  lemma SwapWeights(x: nat, y: nat, p: bool)
    requires x < 10 && y < 10
    ensures (Weight(y, p) + Weight(x, !p) - Weight(x, p) - Weight(y, !p)) % 10 == 0 <==>
            x == y || (x + y == 9 && (x == 0 || x == 9))
  {
  }

  /** Swapping two neighbouring digits is detected too, except for 09 and 90. */
  lemma SwapDetected(s: string, i: nat)
    requires Accepts(s) && i + 1 < |s| && IsDigit(s[i]) && IsDigit(s[i + 1])
    ensures Accepts(s[i := s[i + 1]][i + 1 := s[i]]) <==> s[i] == s[i + 1] || NinesAndZero(s[i], s[i + 1])
  {
    var once := s[i := s[i + 1]];
    DigitsReplaced(s, i, s[i + 1]);
    DigitsReplaced(once, i + 1, s[i]);
    DigitsReplaced(s, i + 1, s[i]);
    var k := Index(s, i);
    assert s[..i + 1][..i] == s[..i] && once[..i + 1][..i] == s[..i];
    assert Index(s, i + 1) == k + 1 && Index(once, i + 1) == k + 1;
    SwapSum(Digits(s), k, false);
  }
}
