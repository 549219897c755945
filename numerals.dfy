/**
 * Digit strings in bases up to sixteen: fixed-width formatting as used by the
 * `yyyyMMddHHmmssfff` timestamp and the textual form of a Guid, unpadded decimal
 * text as produced by JavaScript's number-to-string conversion, and the values
 * of digit strings, which invert both.
 */
module Numerals {

  function Pow(b: nat, w: nat): (p: nat)
    ensures b >= 1 ==> p >= 1
  {
    if w == 0 then 1 else b * Pow(b, w - 1)
  }

  /** Lower-case digit for a value below sixteen. */
  function DigitOf(d: nat): char
    requires d < 16
  {
    if d < 10 then ('0' as int + d) as char else ('a' as int + d - 10) as char
  }

  predicate IsDigitIn(c: char, b: nat) {
    ('0' <= c <= '9' && (c as int - '0' as int) < b) || ('a' <= c <= 'f' && (c as int - 'a' as int + 10) < b)
  }

  predicate IsDecimalDigit(c: char) { '0' <= c <= '9' }

  function ValueOf(c: char): nat
    requires IsDigitIn(c, 16)
  {
    if '0' <= c <= '9' then c as int - '0' as int else c as int - 'a' as int + 10
  }

  predicate AllDigitsIn(s: string, b: nat) {
    forall i :: 0 <= i < |s| ==> IsDigitIn(s[i], b)
  }

  /** The value of a digit string in base `b`, most significant digit first. */
  function Value(s: string, b: nat): nat
    requires AllDigitsIn(s, b)
  {
    if s == [] then 0 else Value(s[..|s| - 1], b) * b + ValueOf(s[|s| - 1])
  }

  /** The low `w` digits of `n` in base `b`, zero-padded on the left. */
  function Pad(n: nat, w: nat, b: nat): (s: string)
    requires 2 <= b <= 16
    ensures |s| == w
    ensures AllDigitsIn(s, b)
  {
    if w == 0 then "" else Pad(n / b, w - 1, b) + [DigitOf(n % b)]
  }

  /** A number below `b * p` has a quotient by `b` below `p`. */
  lemma DivBound(n: nat, b: nat, p: nat)
    requires 2 <= b && n < b * p
    ensures n / b < p
  {
    var q := n / b;
    assert q >= p ==> q * b >= p * b;
    assert q * b <= n;
  }

  lemma DivMod(n: nat, b: nat)
    requires b >= 1
    ensures (n / b) * b + n % b == n
  {
  }

  lemma DigitValue(d: nat)
    requires d < 16
    ensures IsDigitIn(DigitOf(d), 16) && ValueOf(DigitOf(d)) == d
  {
  }

  /** Appending the digit of `n % b` to a reading of `n / b` gives a reading of `n`. */
  lemma ValueSnoc(p: string, n: nat, b: nat)
    requires 2 <= b <= 16
    requires AllDigitsIn(p, b) && Value(p, b) == n / b
    ensures AllDigitsIn(p + [DigitOf(n % b)], b)
    ensures Value(p + [DigitOf(n % b)], b) == n
  {
    DigitValue(n % b);
    var s := p + [DigitOf(n % b)];
    assert s[..|s| - 1] == p;
    DivMod(n, b);
  }

  /** Reading back a padded number gives the number when it fits in the width. */
  lemma {:induction false} PadValue(n: nat, w: nat, b: nat)
    requires 2 <= b <= 16
    requires n < Pow(b, w)
    ensures Value(Pad(n, w, b), b) == n
    decreases w
  {
    if w > 0 {
      DivBound(n, b, Pow(b, w - 1));
      PadValue(n / b, w - 1, b);
      ValueSnoc(Pad(n / b, w - 1, b), n, b);
    }
  }

  /** Decimal text of a natural number without leading zeros ("0" for zero). */
  function NatToString(n: nat): (s: string)
    ensures |s| >= 1
    ensures AllDigitsIn(s, 10)
    decreases n
  {
    if n < 10 then [DigitOf(n)] else NatToString(n / 10) + [DigitOf(n % 10)]
  }

  lemma {:induction false} NatToStringValue(n: nat)
    ensures Value(NatToString(n), 10) == n
    ensures NatToString(n)[0] != '0' || n == 0
    decreases n
  {
    if n >= 10 {
      NatToStringValue(n / 10);
      var s := NatToString(n);
      assert s[..|s| - 1] == NatToString(n / 10);
    }
  }
}
