/** Decimal rendering of integers, as Kotlin's string templates print a `Long`
    (`"$diffYear"`): no padding, a leading `-` for negative values. */
module Decimal {

  import opened Wrappers

  predicate IsDigit(c: char) {
    '0' <= c <= '9'
  }

  predicate AllDigits(s: string) {
    forall i :: 0 <= i < |s| ==> IsDigit(s[i])
  }

  function DigitChar(n: nat): (c: char)
    requires n < 10
    ensures IsDigit(c) && DigitValue(c) == n
  {
    "0123456789"[n]
  }

  function DigitValue(c: char): (n: nat)
    requires IsDigit(c)
    ensures n < 10
  {
    c as int - '0' as int
  }

  /** The shortest decimal spelling of `n`. */
  function ShowNat(n: nat): (s: string)
    ensures |s| >= 1 && AllDigits(s)
    // no leading zero, except for zero itself
    ensures s[0] == '0' <==> n == 0
    ensures n < 10 <==> |s| == 1
  {
    if n < 10 then [DigitChar(n)] else ShowNat(n / 10) + [DigitChar(n % 10)]
  }

  /** The value of a string of decimal digits (the empty string is 0). */
  function ParseNat(s: string): nat
    requires AllDigits(s)
  {
    if s == [] then 0 else 10 * ParseNat(s[..|s| - 1]) + DigitValue(s[|s| - 1])
  }

  lemma ParseNatSnoc(s: string, c: char)
    requires AllDigits(s) && IsDigit(c)
    ensures AllDigits(s + [c])
    ensures ParseNat(s + [c]) == 10 * ParseNat(s) + DigitValue(c)
  {
    assert (s + [c])[..|s|] == s;
  }

  /** `Long.toString`: a minus sign before the magnitude of a negative value. */
  function Show(i: int): (s: string)
    ensures |s| >= 1
    ensures i >= 0 ==> s == ShowNat(i)
    ensures i < 0 ==> s[0] == '-' && s[1..] == ShowNat(-i)
  {
    if i < 0 then "-" + ShowNat(-i) else ShowNat(i)
  }

  /** Reads back what `Show` writes. */
  function ParseInt(s: string): Option<int> {
    if |s| >= 2 && s[0] == '-' && AllDigits(s[1..]) then
      var magnitude: int := ParseNat(s[1..]);
      Some(-magnitude)
    else if |s| >= 1 && AllDigits(s) then Some(ParseNat(s))
    else None
  }

  lemma {:induction false} ParseShowNat(n: nat)
    ensures ParseNat(ShowNat(n)) == n
  {
    if n >= 10 {
      var s := ShowNat(n);
      assert s[..|s| - 1] == ShowNat(n / 10);
      ParseShowNat(n / 10);
    }
  }

  lemma ParseShow(i: int)
    ensures ParseInt(Show(i)) == Some(i)
  {
    var s := Show(i);
    if i < 0 {
      ParseShowNat(-i);
      assert s[1..] == ShowNat(-i);
      assert |s| >= 2 && s[0] == '-' && AllDigits(s[1..]);
    } else {
      ParseShowNat(i);
      assert s == ShowNat(i);
      assert !IsDigit('-');
      assert IsDigit(s[0]);
    }
  }
}
