/** Unsigned decimal numbers as strings of ASCII digits. */
module Decimal {
  predicate IsDigit(c: char) {
    '0' <= c <= '9'
  }

  function DigitValue(c: char): (d: nat)
    requires IsDigit(c)
    ensures d < 10
  {
    c as int - '0' as int
  }

  function DigitChar(d: nat): (c: char)
    requires d < 10
    ensures IsDigit(c) && DigitValue(c) == d
  {
    ('0' as int + d) as char
  }

  predicate AllDigits(s: string) {
    s != [] && forall i :: 0 <= i < |s| ==> IsDigit(s[i])
  }

  /** The number the digits write, most significant first; 0 for no digits. */
  function Value(s: string): nat
    requires forall i :: 0 <= i < |s| ==> IsDigit(s[i])
    decreases |s|
  {
    if s == [] then 0 else 10 * Value(s[..|s| - 1]) + DigitValue(s[|s| - 1])
  }

  /** The shortest way to write a number. */
  function Print(n: nat): (s: string)
    ensures AllDigits(s)
    decreases n
  {
    if n < 10 then [DigitChar(n)] else Print(n / 10) + [DigitChar(n % 10)]
  }

  lemma {:induction false} ValueOfPrint(n: nat)
    ensures Value(Print(n)) == n
    decreases n
  {
    var s := Print(n);
    if n < 10 {
      assert s[..|s| - 1] == [];
    } else {
      ValueOfPrint(n / 10);
      assert s[..|s| - 1] == Print(n / 10);
    }
  }

  /** Dropping trailing digits never makes the number larger. */
  lemma {:induction false} ValueOfPrefix(s: string, k: nat)
    requires (forall i :: 0 <= i < |s| ==> IsDigit(s[i])) && k <= |s|
    ensures Value(s[..k]) <= Value(s)
    decreases |s| - k
  {
    if k == |s| {
      assert s[..k] == s;
    } else {
      ValueOfPrefix(s, k + 1);
      assert s[..k + 1][..k] == s[..k];
    }
  }
}
