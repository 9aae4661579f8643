/**
 * Decimal text: `str(n)` / f-string rendering of integers, and reading back
 * ASCII digit strings, including the one-dot decimals accepted for MX.
 */
module Decimal {

  import opened Wrappers
  import opened Strings

  predicate IsDigit(c: char) {
    '0' <= c <= '9'
  }

  predicate AllDigits(s: string) {
    forall i :: 0 <= i < |s| ==> IsDigit(s[i])
  }

  function DigitChar(d: nat): (c: char)
    requires d < 10
    ensures IsDigit(c) && c as int - '0' as int == d
  {
    ('0' as int + d) as char
  }

  /** `str(n)` for a non-negative integer: no sign, no leading zeros. */
  function NatToString(n: nat): (s: string)
    ensures |s| > 0 && AllDigits(s)
    ensures |s| > 1 ==> s[0] != '0'
    decreases n
  {
    if n < 10 then [DigitChar(n)] else NatToString(n / 10) + [DigitChar(n % 10)]
  }

  /** `str(i)` for any integer. */
  function IntToString(i: int): string {
    if i < 0 then "-" + NatToString(-i) else NatToString(i)
  }

  /** The value of a string of ASCII digits (empty reads as 0). */
  function DigitsValue(s: string): nat
    requires AllDigits(s)
    decreases |s|
  {
    if s == [] then 0
    else DigitsValue(s[..|s| - 1]) * 10 + (s[|s| - 1] as int - '0' as int)
  }

  function ParseNat(s: string): Option<nat> {
    if s != [] && AllDigits(s) then Some(DigitsValue(s)) else None
  }

  lemma {:induction false} NatToStringValue(n: nat)
    ensures DigitsValue(NatToString(n)) == n
    decreases n
  {
    if n >= 10 {
      var s := NatToString(n);
      NatToStringValue(n / 10);
      assert s[..|s| - 1] == NatToString(n / 10);
    }
  }

  /** Reading back a rendered number gives the number. */
  lemma ParseNatToString(n: nat)
    ensures ParseNat(NatToString(n)) == Some(n)
  {
    NatToStringValue(n);
  }

  // ---------------------------------------------------------------------
  // MX values: `tok.replace(".", "", 1).isnumeric()` then `float(tok)`

  /** With its first `.` deleted, `tok` is a non-empty run of ASCII digits. */
  predicate IsMxNumber(tok: string) {
    var t := RemoveFirst(tok, '.');
    t != [] && AllDigits(t)
  }

  function Pow10(k: nat): (p: nat)
    ensures p > 0
  {
    if k == 0 then 1 else 10 * Pow10(k - 1)
  }

  lemma RemoveFirstParts(tok: string)
    requires IsMxNumber(tok)
    ensures var i := IndexOf(tok, '.');
      AllDigits(tok[..i]) && (i < |tok| ==> AllDigits(tok[i + 1..]))
  {
    var i := IndexOf(tok, '.');
    var t := RemoveFirst(tok, '.');
    if i < |tok| {
      assert t == tok[..i] + tok[i + 1..];
      var rest := tok[i + 1..];
      forall k | 0 <= k < |rest| ensures IsDigit(rest[k]) {
        assert rest[k] == t[i + k];
      }
      forall k | 0 <= k < i ensures IsDigit(tok[..i][k]) {
        assert tok[..i][k] == t[k];
      }
    } else {
      assert tok[..i] == tok;
    }
  }

  /** `float(tok)` computed exactly: whole part plus fraction of the decimals. */
  function MxNumber(tok: string): (v: real)
    requires IsMxNumber(tok)
    ensures v >= 0.0
  {
    RemoveFirstParts(tok);
    var i := IndexOf(tok, '.');
    var whole := DigitsValue(tok[..i]) as real;
    if i == |tok| then whole
    else
      var frac := tok[i + 1..];
      whole + DigitsValue(frac) as real / Pow10(|frac|) as real
  }

  /** A whole number written out reads back as itself. */
  lemma MxNumberOfNat(n: nat)
    ensures IsMxNumber(NatToString(n)) && MxNumber(NatToString(n)) == n as real
  {
    var s := NatToString(n);
    assert IndexOf(s, '.') == |s|;
    assert s[..|s|] == s;
    NatToStringValue(n);
  }
}
