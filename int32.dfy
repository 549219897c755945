/**
 * C# `int`: its range, unchecked arithmetic, its decimal text (`ToString()`) and
 * `int.TryParse` with the default number style (surrounding white space, one
 * optional sign, decimal digits).
 */
module Int32s {
  import opened Wrappers
  import opened Numerals

  type Int32 = x: int | -0x8000_0000 <= x < 0x8000_0000

  /** C# unchecked `int` arithmetic: the value modulo 2^32, read back as a signed number. */
  function Wrap32(x: int): (r: Int32)
    ensures (r - x) % 0x1_0000_0000 == 0
    ensures -0x8000_0000 <= x < 0x8000_0000 ==> r == x
  {
    (x + 0x8000_0000) % 0x1_0000_0000 - 0x8000_0000
  }

  /** The white space `int.TryParse` skips: tab, line feed, vertical tab, form feed, carriage return, space. */
  predicate IsWhite(c: char) {
    c == ' ' || '\t' <= c <= '\r'
  }

  /** Drops leading white space: what remains is a suffix that does not start with white space. */
  function TrimStart(s: string): (r: string)
    ensures |r| <= |s| && r == s[|s| - |r|..]
    ensures forall i :: 0 <= i < |s| - |r| ==> IsWhite(s[i])
    ensures r != [] ==> !IsWhite(r[0])
  {
    if s != [] && IsWhite(s[0]) then TrimStart(s[1..]) else s
  }

  /** Drops trailing white space: what remains is a prefix that does not end with white space. */
  function TrimEnd(s: string): (r: string)
    ensures |r| <= |s| && r == s[..|r|]
    ensures forall i :: |r| <= i < |s| ==> IsWhite(s[i])
    ensures r != [] ==> !IsWhite(r[|r| - 1])
  {
    if s != [] && IsWhite(s[|s| - 1]) then TrimEnd(s[..|s| - 1]) else s
  }

  function Trim(s: string): string {
    TrimEnd(TrimStart(s))
  }

  /** `n.ToString()`: a minus sign for negative numbers, then the digits without leading zeros. */
  function IntToString(n: Int32): (s: string)
    ensures |s| >= 1
  {
    if n < 0 then "-" + NatToString(-(n as int)) else NatToString(n)
  }

  /** The digits after an optional leading sign. */
  function Unsigned(t: string): string {
    if |t| > 0 && (t[0] == '-' || t[0] == '+') then t[1..] else t
  }

  /** The value of signed decimal text, or nothing when it is not one. */
  function SignedValue(t: string): Option<int> {
    var digits := Unsigned(t);
    if digits == [] || !AllDigitsIn(digits, 10) then None
    else if |t| > 0 && t[0] == '-' then Some(0 - Value(digits, 10))
    else Some(Value(digits, 10))
  }

  /** `int.TryParse(s, out code)`: the value when `s` is a well-formed decimal in range. */
  function TryParseInt(s: string): (r: Option<Int32>)
  {
    match SignedValue(Trim(s))
    case None => None
    case Some(v) => if -0x8000_0000 <= v < 0x8000_0000 then Some(v) else None
  }

  lemma TrimWithoutWhite(s: string)
    requires s != [] && !IsWhite(s[0]) && !IsWhite(s[|s| - 1])
    ensures Trim(s) == s
  {
  }

  /** Parsing inverts formatting: every int reads back from its own text. */
  lemma ParseFormatted(n: Int32)
    ensures TryParseInt(IntToString(n)) == Some(n)
  {
    var s := IntToString(n);
    var m: nat := if n < 0 then -(n as int) else n;
    NatToStringValue(m);
    var d := NatToString(m);
    assert IsDigitIn(d[0], 10) && IsDigitIn(d[|d| - 1], 10);
    TrimWithoutWhite(s);
    if n < 0 {
      assert s == "-" + d;
      assert Unsigned(s) == d;
      assert SignedValue(s) == Some(0 - m);
    } else {
      assert s == d;
      assert Unsigned(s) == d;
      assert SignedValue(s) == Some(m);
    }
  }

  /** Leading white space in front of text that does not start with white space is all dropped. */
  lemma {:induction false} TrimStartPadded(pre: string, s: string)
    requires forall i :: 0 <= i < |pre| ==> IsWhite(pre[i])
    requires s != [] && !IsWhite(s[0])
    ensures TrimStart(pre + s) == s
    decreases |pre|
  {
    if pre == [] {
      assert pre + s == s;
    } else {
      var rest := pre[1..];
      assert (pre + s)[0] == pre[0] && IsWhite(pre[0]);
      assert (pre + s)[1..] == rest + s;
      assert forall i :: 0 <= i < |rest| ==> rest[i] == pre[i + 1];
      TrimStartPadded(rest, s);
    }
  }

  /** Trailing white space after text that does not end with white space is all dropped. */
  lemma {:induction false} TrimEndPadded(s: string, post: string)
    requires forall i :: 0 <= i < |post| ==> IsWhite(post[i])
    requires s != [] && !IsWhite(s[|s| - 1])
    ensures TrimEnd(s + post) == s
    decreases |post|
  {
    if post == [] {
      assert s + post == s;
    } else {
      var shorter := post[..|post| - 1];
      assert (s + post)[..|s + post| - 1] == s + shorter;
      TrimEndPadded(s, shorter);
    }
  }

  /** Trimming white space of any length around text without white space at its ends gives back the text. */
  lemma TrimPadded(pre: string, s: string, post: string)
    requires forall i :: 0 <= i < |pre| ==> IsWhite(pre[i])
    requires forall i :: 0 <= i < |post| ==> IsWhite(post[i])
    requires s != [] && !IsWhite(s[0]) && !IsWhite(s[|s| - 1])
    ensures Trim(pre + s + post) == s
  {
    assert pre + s + post == pre + (s + post);
    assert (s + post)[0] == s[0];
    TrimStartPadded(pre, s + post);
    TrimEndPadded(s, post);
  }

  /** An int's text starts with a digit or "-" and ends with a digit. */
  lemma IntTextEnds(n: Int32)
    ensures var s := IntToString(n); !IsWhite(s[0]) && !IsWhite(s[|s| - 1])
  {
    var m: nat := if n < 0 then -(n as int) else n;
    var d := NatToString(m);
    assert IsDigitIn(d[0], 10) && IsDigitIn(d[|d| - 1], 10);
  }

  /** White space of any length before and after an int's text does not change what it parses to. */
  lemma ParseIgnoresWhite(n: Int32, pre: string, post: string)
    requires forall i :: 0 <= i < |pre| ==> IsWhite(pre[i])
    requires forall i :: 0 <= i < |post| ==> IsWhite(post[i])
    ensures TryParseInt(pre + IntToString(n) + post) == Some(n)
  {
    var s := IntToString(n);
    IntTextEnds(n);
    TrimPadded(pre, s, post);
    TrimWithoutWhite(s);
    assert Trim(pre + s + post) == Trim(s);
    ParseFormatted(n);
  }

  /** Text without a digit is never a number, whatever else it holds. */
  lemma ParseNeedsDigits(s: string)
    requires forall i :: 0 <= i < |s| ==> !IsDecimalDigit(s[i])
    ensures TryParseInt(s) == None
  {
    var t := Trim(s);
    var start := TrimStart(s);
    assert forall i :: 0 <= i < |t| ==> t[i] == s[|s| - |start| + i];
    if |t| > 0 && (t[0] == '-' || t[0] == '+') {
      if t[1..] != [] {
        assert !IsDigitIn(t[1..][0], 10);
      }
    } else if t != [] {
      assert !IsDigitIn(t[0], 10);
    }
  }

  /** Only values that fit in 32 bits parse: the text of any number outside the range is refused. */
  lemma ParseRefusesOverflow(m: nat)
    ensures m >= 0x8000_0000 ==> TryParseInt(NatToString(m)) == None
    ensures m > 0x8000_0000 ==> TryParseInt("-" + NatToString(m)) == None
  {
    NatToStringValue(m);
    var d := NatToString(m);
    assert IsDigitIn(d[0], 10) && IsDigitIn(d[|d| - 1], 10);
    TrimWithoutWhite(d);
    assert Unsigned(d) == d;
    TrimWithoutWhite("-" + d);
    assert Unsigned("-" + d) == d;
  }
}
