/**
 * The regular expressions the client's numeric validators are built from, as
 * syntax trees, with the language each one accepts. Every pattern used is anchored
 * (`^...$`), so a value passes when the whole value is in the language.
 */
module Patterns {
  import opened Wrappers
  import opened Numerals

  datatype Re =
    | Lit(c: char)                                    // a character standing for itself
    | Range(lo: char, hi: char)                       // `[lo-hi]`
    | Cat(first: Re, second: Re)                      // one after the other
    | Repeat(body: Re, min: nat, max: Option<nat>)    // `{min,max}`, `{min,}` when max is None

  /** One iteration fewer of an upper bound. */
  function Fewer(max: Option<nat>): Option<nat> {
    match max
    case None => None
    case Some(n) => if n == 0 then Some(0) else Some(n - 1)
  }

  /** `s` is in the language of `r`. */
  ghost predicate Matches(r: Re, s: string)
    decreases r, 0, 0, 0
  {
    match r
    case Lit(c) => s == [c]
    case Range(lo, hi) => |s| == 1 && lo <= s[0] <= hi
    case Cat(a, b) => exists k :: 0 <= k <= |s| && Matches(a, s[..k]) && Matches(b, s[k..])
    case Repeat(body, min, max) => Repeats(body, min, max, s)
  }

  /** `s` is between `min` and `max` consecutive pieces, each in the language of `r`. */
  ghost predicate Repeats(r: Re, min: nat, max: Option<nat>, s: string)
    decreases r, 1, |s|, min
  {
    if s == [] && min == 0 then true
    else if max == Some(0) then false
    else if s == [] then Matches(r, []) && Repeats(r, min - 1, Fewer(max), [])
    else exists k :: 1 <= k <= |s| && Matches(r, s[..k]) && Repeats(r, if min == 0 then 0 else min - 1, Fewer(max), s[k..])
  }

  /** `[0-9]`, which is also what `\d` means without the `u` flag. */
  const Digit: Re := Range('0', '9')

  /** `r?`, also written `r{0,1}`. */
  function Optional(r: Re): Re {
    Repeat(r, 0, Some(1))
  }

  /** `^-?\d+$`, which is also the `-?[0-9]+` every numeric pattern starts with. */
  const Integer: Re := Cat(Optional(Lit('-')), Repeat(Digit, 1, None))

  /** `-?[0-9]+(\.F){0,1}` for a fraction pattern `F`. */
  function WithFraction(fraction: Re): Re {
    Cat(Integer, Optional(Cat(Lit('.'), fraction)))
  }

  /** A pattern that matches the text `t` and nothing else (characters with no special meaning). */
  function Literal(t: string): Re
    requires |t| >= 1
  {
    if |t| == 1 then Lit(t[0]) else Cat(Lit(t[0]), Literal(t[1..]))
  }

  predicate AllDecimal(s: string) {
    forall i :: 0 <= i < |s| ==> IsDecimalDigit(s[i])
  }

  /** An optional minus sign followed by at least one decimal digit. */
  predicate IntegerText(s: string) {
    var digits := if |s| > 0 && s[0] == '-' then s[1..] else s;
    |digits| >= 1 && AllDecimal(digits)
  }

  /** `{min,max}` of `[0-9]` accepts exactly the digit strings of a length in range. */
  lemma {:induction false} DigitsRepeat(min: nat, max: Option<nat>, s: string)
    ensures Repeats(Digit, min, max, s) <==>
            AllDecimal(s) && min <= |s| && (max.None? || |s| <= max.value)
    decreases |s|
  {
    if s == [] {
      if min != 0 && max != Some(0) {
        assert !Matches(Digit, []);
      }
    } else if max != Some(0) {
      var min' := if min == 0 then 0 else min - 1;
      DigitsRepeat(min', Fewer(max), s[1..]);
      if Repeats(Digit, min, max, s) {
        var k :| 1 <= k <= |s| && Matches(Digit, s[..k]) && Repeats(Digit, min', Fewer(max), s[k..]);
        assert k == 1;
        assert IsDecimalDigit(s[..k][0]);
        assert forall i :: 1 <= i < |s| ==> s[i] == s[1..][i - 1];
      }
      if AllDecimal(s) && min <= |s| && (max.None? || |s| <= max.value) {
        assert Matches(Digit, s[..1]);
        assert AllDecimal(s[1..]) by {
          assert forall i :: 0 <= i < |s[1..]| ==> s[1..][i] == s[i + 1];
        }
      }
    }
  }

  /** `r{0,1}` accepts the empty text and what `r` accepts. */
  lemma OptionalMatches(r: Re, s: string)
    ensures Matches(Optional(r), s) <==> s == [] || Matches(r, s)
  {
    if s != [] {
      if Matches(r, s) {
        assert s[..|s|] == s && s[|s|..] == [];
        assert Repeats(r, 0, Some(0), s[|s|..]);
      }
      if Matches(Optional(r), s) {
        assert Repeats(r, 0, Some(1), s);
        assert Fewer(Some(1)) == Some(0);
        var k :| 1 <= k <= |s| && Matches(r, s[..k]) && Repeats(r, 0, Some(0), s[k..]);
        assert s[..k] == s;
      }
    }
  }

  /** A literal character followed by `r`. */
  lemma LitThen(c: char, r: Re, s: string)
    ensures Matches(Cat(Lit(c), r), s) <==> |s| >= 1 && s[0] == c && Matches(r, s[1..])
  {
    if |s| >= 1 && s[0] == c && Matches(r, s[1..]) {
      assert s[..1] == [c];
    }
  }

  lemma {:induction false} LiteralMatches(t: string, s: string)
    requires |t| >= 1
    ensures Matches(Literal(t), s) <==> s == t
    decreases |t|
  {
    if |t| > 1 {
      LitThen(t[0], Literal(t[1..]), s);
      if |s| >= 1 {
        LiteralMatches(t[1..], s[1..]);
      }
      if |s| >= 1 && s[0] == t[0] && s[1..] == t[1..] {
        assert s == [s[0]] + s[1..];
        assert t == [t[0]] + t[1..];
      }
    }
  }

  /** `[0-9]` followed by a literal text: one digit, then exactly that text. */
  lemma DigitThenLiteralMatches(t: string, s: string)
    requires |t| >= 1
    ensures Matches(Cat(Digit, Literal(t)), s) <==> |s| >= 1 && IsDecimalDigit(s[0]) && s[1..] == t
  {
    if Matches(Cat(Digit, Literal(t)), s) {
      var k :| 0 <= k <= |s| && Matches(Digit, s[..k]) && Matches(Literal(t), s[k..]);
      LiteralMatches(t, s[k..]);
      assert k == 1 && s[..k][0] == s[0];
    }
    if |s| >= 1 && IsDecimalDigit(s[0]) && s[1..] == t {
      LiteralMatches(t, s[1..]);
      assert s[..1] == [s[0]];
      assert Matches(Digit, s[..1]) && Matches(Literal(t), s[1..]);
    }
  }

  /** `^-?\d+$` accepts exactly an optional minus sign followed by digits. */
  lemma IntegerMatches(s: string)
    ensures Matches(Integer, s) <==> IntegerText(s)
  {
    if Matches(Integer, s) {
      IntegerMatchesOnly(s);
    }
    if IntegerText(s) {
      IntegerTextMatches(s);
    }
  }

  lemma IntegerMatchesOnly(s: string)
    requires Matches(Integer, s)
    ensures IntegerText(s)
  {
    var k :| 0 <= k <= |s| && Matches(Optional(Lit('-')), s[..k]) && Matches(Repeat(Digit, 1, None), s[k..]);
    OptionalMatches(Lit('-'), s[..k]);
    DigitsRepeat(1, None, s[k..]);
    if k == 0 {
      assert s[k..] == s;
      assert IsDecimalDigit(s[0]);
    } else {
      assert s[..k] == "-";
      assert s[k..] == s[1..];
    }
  }

  lemma IntegerTextMatches(s: string)
    requires IntegerText(s)
    ensures Matches(Integer, s)
  {
    var sign := Optional(Lit('-'));
    var digits := Repeat(Digit, 1, None);
    if |s| > 0 && s[0] == '-' {
      OptionalMatches(Lit('-'), s[..1]);
      DigitsRepeat(1, None, s[1..]);
      assert s[..1] == "-";
      assert Matches(sign, s[..1]) && Matches(digits, s[1..]);
    } else {
      OptionalMatches(Lit('-'), s[..0]);
      DigitsRepeat(1, None, s);
      assert s[..0] == [] && s[0..] == s;
      assert Matches(sign, s[..0]) && Matches(digits, s[0..]);
    }
  }

  /**
   * `-?[0-9]+(\.F){0,1}` accepts an integer, or an integer, a point and a text that
   * `F` accepts.
   */
  lemma WithFractionMatches(fraction: Re, s: string)
    ensures Matches(WithFraction(fraction), s) <==>
            IntegerText(s) ||
            exists i :: 0 <= i < |s| && s[i] == '.' && IntegerText(s[..i]) && Matches(fraction, s[i + 1..])
  {
    var tail := Optional(Cat(Lit('.'), fraction));
    if Matches(WithFraction(fraction), s) {
      var k :| 0 <= k <= |s| && Matches(Integer, s[..k]) && Matches(tail, s[k..]);
      IntegerMatches(s[..k]);
      OptionalMatches(Cat(Lit('.'), fraction), s[k..]);
      if s[k..] == [] {
        assert s[..k] == s;
      } else {
        LitThen('.', fraction, s[k..]);
        assert s[k..][1..] == s[k + 1..];
        assert s[k] == '.' && IntegerText(s[..k]) && Matches(fraction, s[k + 1..]);
      }
    }
    if IntegerText(s) {
      IntegerMatches(s);
      OptionalMatches(Cat(Lit('.'), fraction), s[|s|..]);
      assert s[..|s|] == s;
      assert Matches(Integer, s[..|s|]) && Matches(tail, s[|s|..]);
    } else if exists i :: 0 <= i < |s| && s[i] == '.' && IntegerText(s[..i]) && Matches(fraction, s[i + 1..]) {
      var i :| 0 <= i < |s| && s[i] == '.' && IntegerText(s[..i]) && Matches(fraction, s[i + 1..]);
      IntegerMatches(s[..i]);
      LitThen('.', fraction, s[i..]);
      assert s[i..][1..] == s[i + 1..];
      OptionalMatches(Cat(Lit('.'), fraction), s[i..]);
      assert Matches(Integer, s[..i]) && Matches(tail, s[i..]);
    }
  }
}
