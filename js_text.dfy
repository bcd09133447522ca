/**
 * The pieces of JavaScript's number-to-text conversion that the game's
 * formatting code relies on: `String(n)` / `n.toString()` for integers and
 * `padStart(2, '0')`, together with a decimal reader used as their inverse.
 */
module JsText {
  import opened Wrappers

  predicate IsDigit(c: char) {
    '0' <= c <= '9'
  }

  predicate AllDigits(s: string) {
    forall i :: 0 <= i < |s| ==> IsDigit(s[i])
  }

  function DigitChar(d: int): (c: char)
    requires 0 <= d < 10
    ensures IsDigit(c)
  {
    ('0' as int + d) as char
  }

  function DigitValue(c: char): (d: int)
    requires IsDigit(c)
    ensures 0 <= d < 10 && DigitChar(d) == c
  {
    c as int - '0' as int
  }

  /** Decimal text of a non-negative integer, as `String(n)` gives it. */
  function NatToString(n: nat): (s: string)
    ensures |s| >= 1 && AllDigits(s)
    ensures |s| == 1 <==> n < 10
    ensures |s| > 1 ==> s[0] != '0'
    decreases n
  {
    if n < 10 then [DigitChar(n)] else NatToString(n / 10) + [DigitChar(n % 10)]
  }

  /** Decimal text of any integer, with a leading '-' for negative numbers. */
  function IntToString(i: int): (s: string)
    ensures i >= 0 ==> s == NatToString(i)
    ensures i < 0 ==> |s| >= 2 && s[0] == '-' && s[1..] == NatToString(-i)
  {
    if i < 0 then "-" + NatToString(-i) else NatToString(i)
  }

  /** `s.padStart(2, '0')`: zeros are prepended until the text is two long. */
  function PadStart2(s: string): (r: string)
    ensures |r| == if |s| >= 2 then |s| else 2
    ensures r[|r| - |s|..] == s
    ensures forall i :: 0 <= i < |r| - |s| ==> r[i] == '0'
  {
    if |s| >= 2 then s else if |s| == 1 then "0" + s else "00"
  }

  /** `String(n).padStart(2, '0')` for a non-negative integer. */
  function Pad2(n: nat): string {
    PadStart2(NatToString(n))
  }

  /** The value of a string of decimal digits (the empty string reads as 0). */
  function ParseDecimal(s: string): (v: nat)
    requires AllDigits(s)
  {
    if s == [] then 0 else ParseDecimal(s[..|s| - 1]) * 10 + DigitValue(s[|s| - 1])
  }

  /** Reading back the decimal text of a number gives the number. */
  lemma {:induction false} ParseNatToString(n: nat)
    ensures ParseDecimal(NatToString(n)) == n
    decreases n
  {
    if n >= 10 {
      var s := NatToString(n);
      assert s[..|s| - 1] == NatToString(n / 10);
      ParseNatToString(n / 10);
    }
  }

  /** Two decimal digits, read back as a number below 100. */
  lemma TwoDigitsValue(s: string)
    requires |s| == 2 && AllDigits(s)
    ensures ParseDecimal(s) == 10 * DigitValue(s[0]) + DigitValue(s[1]) < 100
  {
    var head := s[..1];
    assert s[..|s| - 1] == head && head[..|head| - 1] == [];
    assert ParseDecimal(head) == DigitValue(s[0]);
    assert ParseDecimal(s) == ParseDecimal(head) * 10 + DigitValue(s[1]);
  }

  /** For n below 100, Pad2 gives exactly two digits that read back as n. */
  lemma {:induction false} Pad2Inverse(n: nat)
    requires n < 100
    ensures |Pad2(n)| == 2 && AllDigits(Pad2(n))
    ensures ParseDecimal(Pad2(n)) == n
  {
    var s := NatToString(n);
    ParseNatToString(n);
    TwoDigitsValue(Pad2(n));
    if n < 10 {
      assert Pad2(n) == ['0', s[0]];
      assert s[..0] == [];
    } else {
      assert Pad2(n) == s;
    }
  }

  /** Pad2 is one-to-one on numbers below 100. */
  lemma Pad2Injective(a: nat, b: nat)
    requires a < 100 && b < 100 && Pad2(a) == Pad2(b)
    ensures a == b
  {
    Pad2Inverse(a);
    Pad2Inverse(b);
  }

  /** A digit string without a leading zero reads as at least 1. */
  lemma {:induction false} LeadingDigitPositive(s: string)
    requires |s| >= 1 && AllDigits(s) && s[0] != '0'
    ensures ParseDecimal(s) >= 1
    decreases |s|
  {
    if |s| > 1 {
      LeadingDigitPositive(s[..|s| - 1]);
    }
  }

  /** Writing out the value of a digit string without a leading zero gives the string back. */
  lemma {:induction false} NatToStringOfParse(s: string)
    requires |s| >= 1 && AllDigits(s) && s[0] != '0'
    ensures NatToString(ParseDecimal(s)) == s
    decreases |s|
  {
    var v := ParseDecimal(s);
    var init := s[..|s| - 1];
    if |s| > 1 {
      LeadingDigitPositive(init);
      NatToStringOfParse(init);
      assert v / 10 == ParseDecimal(init) && v % 10 == DigitValue(s[|s| - 1]);
      assert s == init + [s[|s| - 1]];
    } else {
      assert init == [];
    }
  }

  /** Two digits read as n come back from Pad2(n). */
  lemma Pad2OfParse(s: string)
    requires |s| == 2 && AllDigits(s)
    ensures Pad2(ParseDecimal(s)) == s
  {
    TwoDigitsValue(s);
    var n := ParseDecimal(s);
    if s[0] == '0' {
      assert n == DigitValue(s[1]) < 10;
      assert Pad2(n) == ['0', DigitChar(n)];
    } else {
      NatToStringOfParse(s);
    }
  }

  /**
   * Splits text of the form head, separator, two characters, separator, two
   * characters, the layout of "2024-05-07" and of "3:07.25".
   */
  function SplitTail(s: string, first: char, second: char): Option<(string, string, string)> {
    if |s| >= 7 && s[|s| - 6] == first && s[|s| - 3] == second
    then Some((s[..|s| - 6], s[|s| - 5..|s| - 3], s[|s| - 2..]))
    else None
  }

  /** Text joined from a non-empty head and two two-character parts splits back into them. */
  lemma SplitJoined(head: string, first: char, mid: string, second: char, last: string)
    requires |head| >= 1 && |mid| == 2 && |last| == 2
    ensures SplitTail(head + [first] + mid + [second] + last, first, second) == Some((head, mid, last))
  {
    var s := head + [first] + mid + [second] + last;
    assert s[..|s| - 6] == head;
    assert s[|s| - 5..|s| - 3] == mid;
    assert s[|s| - 2..] == last;
  }
}
