/**
 * A Guid as the 128-bit number its textual form spells out, and that textual form
 * (`Guid.ToString()`, format "D": 32 lower-case hexadecimal digits in groups of
 * 8-4-4-4-12 separated by hyphens).
 */
module Guids {
  import opened Numerals

  type Guid = x: nat | x < Pow(16, 32) witness 0

  const Empty: Guid := 0

  function GuidText(g: Guid): (t: string)
    ensures |t| == 36
  {
    Hyphenate(Pad(g, 32, 16))
  }

  /** The 32 digits in groups of 8-4-4-4-12 separated by hyphens. */
  function Hyphenate(h: string): (t: string)
    requires |h| == 32
    ensures |t| == 36
  {
    h[..8] + "-" + h[8..12] + "-" + h[12..16] + "-" + h[16..20] + "-" + h[20..]
  }

  /** Where digit `i` lands in the hyphenated text. */
  function DigitPosition(i: nat): nat {
    if i < 8 then i else if i < 12 then i + 1 else if i < 16 then i + 2 else if i < 20 then i + 3 else i + 4
  }

  lemma HyphenatedAt(h: string, i: nat)
    requires |h| == 32 && i < 32
    ensures DigitPosition(i) < 36 && Hyphenate(h)[DigitPosition(i)] == h[i]
  {
  }

  /** The hyphenated text determines the digits. */
  lemma HyphenateInjective(h1: string, h2: string)
    requires |h1| == 32 && |h2| == 32 && Hyphenate(h1) == Hyphenate(h2)
    ensures h1 == h2
  {
    forall i | 0 <= i < 32 ensures h1[i] == h2[i] {
      HyphenatedAt(h1, i);
      HyphenatedAt(h2, i);
    }
  }

  /** The hyphens sit at positions 8, 13, 18 and 23 and every other character is a hex digit. */
  lemma GuidTextShape(g: Guid)
    ensures forall i :: 0 <= i < 36 ==>
      if i in {8, 13, 18, 23} then GuidText(g)[i] == '-' else IsDigitIn(GuidText(g)[i], 16)
    ensures '/' !in GuidText(g)
  {
  }

  /** Distinct Guids have distinct texts, so a path segment identifies its tenant. */
  lemma GuidTextInjective(a: Guid, b: Guid)
    requires GuidText(a) == GuidText(b)
    ensures a == b
  {
    HyphenateInjective(Pad(a, 32, 16), Pad(b, 32, 16));
    PadValue(a, 32, 16);
    PadValue(b, 32, 16);
  }
}
