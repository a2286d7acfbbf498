/**
 * How a JavaScript number is written when concatenated to a string, for the
 * numbers the popup settings can hold: integers (width, height) and halves of
 * integers (left, top, which are half a screen size minus constants).
 */
module Decimal {

  /** `x` is an integer or an integer plus one half. */
  predicate IsHalf(x: real)
  {
    (2.0 * x).Floor as real == 2.0 * x
  }

  /** The numbers the popup position can take. */
  type HalfNumber = x: real | IsHalf(x)

  function DigitChar(d: nat): char
    requires d < 10
  {
    ('0' as int + d) as char
  }

  predicate IsDigit(c: char)
  {
    '0' <= c <= '9'
  }

  function DigitValue(c: char): nat
    requires IsDigit(c)
  {
    (c - '0') as nat
  }

  /** Decimal digits of `n`, most significant first, with no leading zero. */
  function NatText(n: nat): (r: string)
    ensures |r| >= 1
    ensures forall k :: 0 <= k < |r| ==> IsDigit(r[k])
  {
    if n < 10 then [DigitChar(n)] else NatText(n / 10) + [DigitChar(n % 10)]
  }

  /** An integer as JavaScript writes it: digits, with `-` in front when negative. */
  function IntText(n: int): string
  {
    if n < 0 then "-" + NatText(-n) else NatText(n)
  }

  /**
   * A half-integer as JavaScript writes it: the integer, or the integer part
   * followed by `.5`; a negative number is its magnitude after `-`.
   */
  function NumberText(x: HalfNumber): string
  {
    var h := (2.0 * x).Floor;
    if h % 2 == 0 then IntText(h / 2)
    else if h > 0 then NatText(h / 2) + ".5"
    else "-" + NatText(-h / 2) + ".5"
  }

  /** Reads back a string of decimal digits. */
  function ParseNat(s: string): nat
    requires forall k :: 0 <= k < |s| ==> IsDigit(s[k])
  {
    if s == [] then 0 else ParseNat(s[..|s| - 1]) * 10 + DigitValue(s[|s| - 1])
  }

  predicate IsUnsignedText(s: string)
  {
    (forall k :: 0 <= k < |s| ==> IsDigit(s[k]))
    || (|s| >= 2 && s[|s| - 2..] == ".5" && forall k :: 0 <= k < |s| - 2 ==> IsDigit(s[k]))
  }

  /** Reads back digits, optionally followed by `.5`. */
  function ParseUnsigned(s: string): real
    requires IsUnsignedText(s)
  {
    if |s| >= 2 && s[|s| - 2..] == ".5" then
      assert forall k :: 0 <= k < |s| - 2 ==> IsDigit(s[k]) by {
        assert s[|s| - 2] == '.';
      }
      ParseNat(s[..|s| - 2]) as real + 0.5
    else ParseNat(s) as real
  }

  predicate IsNumberText(s: string)
  {
    if |s| >= 1 && s[0] == '-' then IsUnsignedText(s[1..]) else IsUnsignedText(s)
  }

  /** Reads back a number written by `NumberText` or `IntText`. */
  function ParseNumber(s: string): real
    requires IsNumberText(s)
  {
    if |s| >= 1 && s[0] == '-' then -ParseUnsigned(s[1..]) else ParseUnsigned(s)
  }

  /** Reading back the digits of `n` gives `n`. */
  lemma {:induction false} ParseNatText(n: nat)
    ensures ParseNat(NatText(n)) == n
  {
    var s := NatText(n);
    if n >= 10 {
      ParseNatText(n / 10);
      assert s[..|s| - 1] == NatText(n / 10);
    }
  }

  /** Digits followed by `.5` read back as the integer plus one half. */
  lemma HalfText(n: nat)
    ensures IsUnsignedText(NatText(n) + ".5")
    ensures ParseUnsigned(NatText(n) + ".5") == n as real + 0.5
  {
    var s := NatText(n) + ".5";
    assert s[|s| - 2..] == ".5";
    assert s[..|s| - 2] == NatText(n);
    ParseNatText(n);
  }

  /** Digits alone read back as the integer. */
  lemma WholeText(n: nat)
    ensures IsUnsignedText(NatText(n))
    ensures ParseUnsigned(NatText(n)) == n as real
  {
    var s := NatText(n);
    assert s[|s| - 1] != '.';
    ParseNatText(n);
  }

  /** Digit text holds no separator of the feature string. */
  lemma DigitsHaveNoSeparator(s: string)
    requires forall k :: 0 <= k < |s| ==> IsDigit(s[k])
    ensures ',' !in s && '=' !in s
  {
  }

  /** Reading back the text of an integer gives the integer; the text has no `,` or `=`. */
  lemma IntTextRoundTrip(n: int)
    ensures IsNumberText(IntText(n))
    ensures ParseNumber(IntText(n)) == n as real
    ensures ',' !in IntText(n) && '=' !in IntText(n)
  {
    var m := if n < 0 then -n else n;
    WholeText(m);
    DigitsHaveNoSeparator(NatText(m));
    var s := IntText(n);
    if n < 0 {
      assert s == "-" + NatText(m);
      assert s[1..] == NatText(m);
    } else {
      assert IsDigit(s[0]);
    }
  }

  /** Reading back the text of a half-integer gives the number; the text has no `,` or `=`. */
  lemma {:induction false} NumberTextRoundTrip(x: HalfNumber)
    ensures IsNumberText(NumberText(x))
    ensures ParseNumber(NumberText(x)) == x
    ensures ',' !in NumberText(x) && '=' !in NumberText(x)
  {
    var h := (2.0 * x).Floor;
    assert IsHalf(x);
    assert h as real == 2.0 * x;
    if h % 2 == 0 {
      WholeNumberText(x, h);
    } else if h > 0 {
      PositiveHalfText(x, h);
    } else {
      NegativeHalfText(x, h);
    }
  }

  lemma {:induction false} WholeNumberText(x: HalfNumber, h: int)
    requires h == (2.0 * x).Floor && h as real == 2.0 * x && h % 2 == 0
    ensures IsNumberText(NumberText(x)) && ParseNumber(NumberText(x)) == x
    ensures ',' !in NumberText(x) && '=' !in NumberText(x)
  {
    assert NumberText(x) == IntText(h / 2);
    IntTextRoundTrip(h / 2);
    assert (h / 2) as real == x;
  }

  lemma {:induction false} PositiveHalfText(x: HalfNumber, h: int)
    requires h == (2.0 * x).Floor && h as real == 2.0 * x && h % 2 == 1 && h > 0
    ensures IsNumberText(NumberText(x)) && ParseNumber(NumberText(x)) == x
    ensures ',' !in NumberText(x) && '=' !in NumberText(x)
  {
    var n: nat := h / 2;
    assert h == 2 * n + 1;
    var s := NumberText(x);
    assert s == NatText(n) + ".5";
    HalfText(n);
    DigitsHaveNoSeparator(NatText(n));
    assert IsDigit(s[0]);
    assert n as real + 0.5 == x;
  }

  /** A `-` in front of unsigned text negates what it reads as. */
  lemma Negated(t: string)
    requires IsUnsignedText(t)
    ensures IsNumberText("-" + t) && ParseNumber("-" + t) == -ParseUnsigned(t)
  {
    var s := "-" + t;
    assert s[0] == '-' && s[1..] == t;
  }

  lemma {:induction false} NegativeHalfText(x: HalfNumber, h: int)
    requires h == (2.0 * x).Floor && h as real == 2.0 * x && h % 2 == 1 && h <= 0
    ensures IsNumberText(NumberText(x)) && ParseNumber(NumberText(x)) == x
    ensures ',' !in NumberText(x) && '=' !in NumberText(x)
  {
    var n: nat := -h / 2;
    assert -h == 2 * n + 1;
    var t := NatText(n) + ".5";
    assert NumberText(x) == "-" + t;
    HalfText(n);
    Negated(t);
    DigitsHaveNoSeparator(NatText(n));
    assert -(n as real + 0.5) == x;
  }
}
