/**
 * The few pieces of JavaScript string formatting the core relies on:
 * `String(n)` for integers, `padStart(2, '0')`, and the lexicographic
 * `<=` that JavaScript uses to compare strings.
 */
module Text {

  predicate IsDigit(c: char)
  {
    '0' <= c <= '9'
  }

  predicate AllDigits(s: string)
  {
    forall i :: 0 <= i < |s| ==> IsDigit(s[i])
  }

  /** The character of the decimal digit `d`. */
  function DigitChar(d: nat): (c: char)
    requires d < 10
    ensures IsDigit(c) && c as int - '0' as int == d
  {
    ('0' as int + d) as char
  }

  /** `String(n)` for a non-negative integer: its decimal digits, without leading zeros. */
  function NatToString(n: nat): (s: string)
    ensures 1 <= |s| && AllDigits(s)
    ensures n < 10 <==> |s| == 1
    decreases n
  {
    if n < 10 then [DigitChar(n)] else NatToString(n / 10) + [DigitChar(n % 10)]
  }

  /** The number a string of decimal digits denotes (the reading direction of `NatToString`). */
  function DigitsValue(s: string): nat
    requires AllDigits(s)
  {
    if s == [] then 0
    else DigitsValue(s[..|s| - 1]) * 10 + (s[|s| - 1] as int - '0' as int)
  }

  /** `NatToString` loses nothing: reading its digits back gives the number. */
  lemma {:induction false} NatToStringRoundTrip(n: nat)
    ensures DigitsValue(NatToString(n)) == n
    decreases n
  {
    if n >= 10 {
      NatToStringRoundTrip(n / 10);
      var s := NatToString(n);
      assert s[..|s| - 1] == NatToString(n / 10);
    }
  }

  /** `String(n)` has no leading zero: only `String(0)` starts with `'0'`. */
  lemma {:induction false} NatToStringNoLeadingZero(n: nat)
    ensures n > 0 ==> NatToString(n)[0] != '0'
    decreases n
  {
    if n >= 10 {
      NatToStringNoLeadingZero(n / 10);
      assert NatToString(n)[0] == NatToString(n / 10)[0];
    }
  }

  /** `String(y)` for any integer: a minus sign in front of the digits of `-y` when `y` is negative. */
  function IntToString(y: int): (s: string)
    ensures 1 <= |s|
    ensures y >= 0 ==> s == NatToString(y)
    ensures y < 0 ==> s[0] == '-' && s[1..] == NatToString(-y)
  {
    if y < 0 then "-" + NatToString(-y) else NatToString(y)
  }

  /**
   * `String(y)` denotes `y`: a leading minus sign exactly for a negative
   * year, followed by digits whose value is the year's magnitude.
   */
  lemma IntToStringRoundTrip(y: int)
    ensures y < 0 ==> var s := IntToString(y);
      s[0] == '-' && AllDigits(s[1..]) && DigitsValue(s[1..]) == -y
    ensures y >= 0 ==> var s := IntToString(y);
      s[0] != '-' && AllDigits(s) && DigitsValue(s) == y
  {
    if y < 0 {
      NatToStringRoundTrip(-y);
    } else {
      NatToStringRoundTrip(y);
    }
  }

  /** `s.padStart(2, '0')`: zeros in front until the string is two characters long. */
  function PadStart2(s: string): (r: string)
    ensures |s| >= 2 ==> r == s
    ensures |s| < 2 ==> |r| == 2
    ensures exists k :: 0 <= k <= |r| && r[k..] == s && forall i :: 0 <= i < k ==> r[i] == '0'
  {
    if |s| >= 2 then
      assert s[0..] == s;
      s
    else
      var r := seq(2 - |s|, _ => '0') + s;
      assert r[2 - |s|..] == s;
      r
  }

  /** `String(n).padStart(2, '0')`, the two-digit field of a date. */
  function TwoDigits(n: nat): (r: string)
    requires n < 100
  {
    PadStart2(NatToString(n))
  }

  /** A two-digit field has two characters. */
  lemma TwoDigitsLength(n: nat)
    requires n < 100
    ensures |TwoDigits(n)| == 2
  {
    if n >= 10 {
      assert |NatToString(n)| == |NatToString(n / 10)| + 1;
    }
  }

  /** A two-digit field is exactly two digits, and it denotes `n`. */
  lemma TwoDigitsSpec(n: nat)
    requires n < 100
    ensures |TwoDigits(n)| == 2 && AllDigits(TwoDigits(n))
    ensures DigitsValue(TwoDigits(n)) == n
  {
    NatToStringRoundTrip(n);
    var s := NatToString(n);
    if n < 10 {
      assert TwoDigits(n) == ['0'] + s;
      assert DigitsValue(TwoDigits(n)[..1]) == 0;
    } else {
      assert n / 10 < 10;
      assert |s| == 2;
    }
  }

  /** JavaScript's `a <= b` on strings: lexicographic comparison of characters. */
  predicate LexLe(a: string, b: string)
    decreases |a|
  {
    a == [] || (b != [] && (a[0] < b[0] || (a[0] == b[0] && LexLe(a[1..], b[1..]))))
  }

  /** A shared prefix does not change how two strings compare. */
  lemma {:induction false} LexLeCommonPrefix(p: string, a: string, b: string)
    requires LexLe(a, b)
    ensures LexLe(p + a, p + b)
    decreases |p|
  {
    if p == [] {
      assert p + a == a && p + b == b;
    } else {
      LexLeCommonPrefix(p[1..], a, b);
      assert (p + a)[1..] == p[1..] + a;
      assert (p + b)[1..] == p[1..] + b;
      assert (p + a)[0] == p[0] == (p + b)[0];
    }
  }

  /**
   * Regrouping a concatenation of three strings. A proof helper: it lets
   * the proofs about literal SQL and date text move parentheses explicitly.
   */
  lemma Regroup(a: string, b: string, c: string)
    ensures a + b + c == a + (b + c)
  {
  }
}
