/** Text helpers: Python's `str(int)` and `", ".join(...)`. */
module Text {

  predicate IsDigit(c: char) {
    '0' <= c <= '9'
  }

  predicate AllDigits(s: string) {
    forall i :: 0 <= i < |s| ==> IsDigit(s[i])
  }

  function DigitChar(d: nat): (c: char)
    requires d < 10
    ensures IsDigit(c)
  {
    ('0' as int + d) as char
  }

  function DigitValue(c: char): (d: nat)
    requires IsDigit(c)
    ensures d < 10
  {
    c as int - '0' as int
  }

  /** `str(n)` for a non-negative integer: no leading zeros, at least one digit. */
  function NatToString(n: nat): (s: string)
    ensures |s| >= 1 && AllDigits(s)
    ensures |s| > 1 ==> s[0] != '0'
    decreases n
  {
    if n < 10 then [DigitChar(n)] else NatToString(n / 10) + [DigitChar(n % 10)]
  }

  /** `str(i)` for any integer. */
  function IntToString(i: int): (s: string)
    ensures i >= 0 ==> AllDigits(s) && ParseNat(s) == i
    ensures i < 0 ==> |s| >= 2 && s[0] == '-' && AllDigits(s[1..]) && ParseNat(s[1..]) == -i
  {
    if i < 0 then
      ParseNatToString(-i);
      assert ("-" + NatToString(-i))[1..] == NatToString(-i);
      "-" + NatToString(-i)
    else
      ParseNatToString(i);
      NatToString(i)
  }

  /** Reads a string of decimal digits back as a number. */
  function ParseNat(s: string): nat
    requires AllDigits(s)
  {
    if |s| == 0 then 0 else 10 * ParseNat(s[..|s| - 1]) + DigitValue(s[|s| - 1])
  }

  lemma {:induction false} ParseNatToString(n: nat)
    ensures ParseNat(NatToString(n)) == n
    decreases n
  {
    var s := NatToString(n);
    if n >= 10 {
      ParseNatToString(n / 10);
      assert s[..|s| - 1] == NatToString(n / 10);
    }
  }

  /** Distinct numbers render as distinct strings. */
  lemma NatToStringInjective(m: nat, n: nat)
    requires NatToString(m) == NatToString(n)
    ensures m == n
  {
    ParseNatToString(m);
    ParseNatToString(n);
  }

  /** Where the trailing run of digits of `s` starts. */
  function DigitRunStart(s: string): (k: nat)
    ensures k <= |s|
  {
    if |s| == 0 || !IsDigit(s[|s| - 1]) then |s| else DigitRunStart(s[..|s| - 1])
  }

  lemma {:induction false} DigitRunStartAfterStem(a: string, d: string)
    requires |a| == 0 || !IsDigit(a[|a| - 1])
    requires AllDigits(d)
    ensures DigitRunStart(a + d) == |a|
    decreases |d|
  {
    if |d| == 0 {
      assert a + d == a;
    } else {
      assert (a + d)[..|a + d| - 1] == a + d[..|d| - 1];
      DigitRunStartAfterStem(a, d[..|d| - 1]);
    }
  }

  /**
   * A name made of a stem that does not end in a digit followed by a
   * rendered number determines both the stem and the number.
   */
  lemma SplitNumberedName(a: string, m: nat, b: string, n: nat)
    requires |a| == 0 || !IsDigit(a[|a| - 1])
    requires |b| == 0 || !IsDigit(b[|b| - 1])
    requires a + NatToString(m) == b + NatToString(n)
    ensures a == b && m == n
  {
    var s := a + NatToString(m);
    DigitRunStartAfterStem(a, NatToString(m));
    DigitRunStartAfterStem(b, NatToString(n));
    assert a == s[..|a|] == b;
    assert NatToString(m) == s[|a|..] == NatToString(n);
    NatToStringInjective(m, n);
  }

  /** `sep.join(parts)`. */
  function Join(sep: string, parts: seq<string>): string
  {
    if |parts| == 0 then ""
    else if |parts| == 1 then parts[0]
    else Join(sep, parts[..|parts| - 1]) + sep + parts[|parts| - 1]
  }
}
