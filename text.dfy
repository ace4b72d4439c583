/**
 * The text operations the filter relies on: case-insensitive containment
 * (restricted to ASCII letters) and Java's `Integer.parseInt` in base 10.
 */
module Text {

  import opened Wrappers
  import opened Domain

  /** The ASCII lower-case form of a character; other characters are unchanged. */
  function LowerChar(c: char): (d: char)
    ensures 'A' <= c <= 'Z' ==> d as int == c as int + 32
    ensures !('A' <= c <= 'Z') ==> d == c
  {
    if 'A' <= c <= 'Z' then (c as int + 32) as char else c
  }

  function ToLower(s: string): (t: string)
    ensures |t| == |s|
    ensures forall i :: 0 <= i < |s| ==> t[i] == LowerChar(s[i])
  {
    seq(|s|, i requires 0 <= i < |s| => LowerChar(s[i]))
  }

  /** Lower-casing twice is lower-casing once. */
  lemma ToLowerIdempotent(s: string)
    ensures ToLower(ToLower(s)) == ToLower(s)
  {
  }

  /** `needle` occurs in `hay` starting at position `i`. */
  ghost predicate OccursAt(needle: string, hay: string, i: nat)
  {
    i + |needle| <= |hay| && hay[i..i + |needle|] == needle
  }

  /** Substring search: does `needle` occur anywhere in `hay`? */
  function Contains(hay: string, needle: string): (b: bool)
    ensures b <==> exists i: nat :: OccursAt(needle, hay, i)
    decreases |hay|
  {
    if |hay| < |needle| then
      assert forall i: nat :: !OccursAt(needle, hay, i);
      false
    else if hay[..|needle|] == needle then
      assert OccursAt(needle, hay, 0);
      true
    else
      var b := Contains(hay[1..], needle);
      ContainsShift(hay, needle);
      b
  }

  /** An occurrence in `hay[1..]` is an occurrence in `hay` one position later, and vice versa. */
  lemma ContainsShift(hay: string, needle: string)
    requires |hay| > 0
    requires |needle| <= |hay| && hay[..|needle|] != needle
    ensures (exists i: nat :: OccursAt(needle, hay, i)) <==> (exists i: nat :: OccursAt(needle, hay[1..], i))
  {
    forall i: nat | OccursAt(needle, hay[1..], i)
      ensures OccursAt(needle, hay, i + 1)
    {
      assert hay[1..][i..i + |needle|] == hay[i + 1..i + 1 + |needle|];
    }
    forall i: nat | OccursAt(needle, hay, i)
      ensures i > 0 && OccursAt(needle, hay[1..], i - 1)
    {
      assert hay[1..][i - 1..i - 1 + |needle|] == hay[i..i + |needle|];
    }
  }

  /**
   * `containsIgnoreCase`: `needle` is a substring of `hay` once both are
   * lower-cased (ASCII letters only).
   */
  function ContainsIgnoreCase(hay: string, needle: string): (b: bool)
    ensures b <==> exists i: nat :: OccursAt(ToLower(needle), ToLower(hay), i)
  {
    Contains(ToLower(hay), ToLower(needle))
  }

  /** An exact occurrence is also a case-insensitive one. */
  lemma ContainsImpliesContainsIgnoreCase(hay: string, needle: string, i: nat)
    requires OccursAt(needle, hay, i)
    ensures ContainsIgnoreCase(hay, needle)
  {
    assert ToLower(hay)[i..i + |needle|] == ToLower(needle);
    assert OccursAt(ToLower(needle), ToLower(hay), i);
  }

  /** Lower-casing both the field and the value leaves the answer unchanged. */
  lemma ContainsIgnoreCaseOfLowered(hay: string, needle: string)
    ensures ContainsIgnoreCase(ToLower(hay), ToLower(needle)) == ContainsIgnoreCase(hay, needle)
  {
    ToLowerIdempotent(hay);
    ToLowerIdempotent(needle);
  }

  /**
   * The answer depends on the letter case of neither argument: two fields that
   * differ only in case, searched for two values that differ only in case, agree.
   */
  lemma ContainsIgnoreCaseIgnoresCase(hay1: string, hay2: string, needle1: string, needle2: string)
    requires ToLower(hay1) == ToLower(hay2) && ToLower(needle1) == ToLower(needle2)
    ensures ContainsIgnoreCase(hay1, needle1) == ContainsIgnoreCase(hay2, needle2)
  {
  }

  /** The empty string occurs in every string, so an empty filter value matches everything. */
  lemma EmptyNeedleAlwaysContained(hay: string)
    ensures ContainsIgnoreCase(hay, "")
  {
  }

  // ---------------------------------------------------------------------------
  // Integer.parseInt

  predicate IsDigit(c: char)
  {
    '0' <= c <= '9'
  }

  predicate AllDigits(s: string)
  {
    forall i :: 0 <= i < |s| ==> IsDigit(s[i])
  }

  /** The value of a string of decimal digits, most significant first. */
  function DigitsValue(s: string): (n: nat)
    requires AllDigits(s)
  {
    if |s| == 0 then 0
    else DigitsValue(s[..|s| - 1]) * 10 + (s[|s| - 1] as int - '0' as int)
  }

  /**
   * `s` is the base-10 text of `n`: an optional leading `-` (then the digits
   * give `-n`) or `+`, followed by at least one decimal digit. Leading zeros
   * are allowed.
   */
  ghost predicate DecimalText(s: string, n: int)
  {
    || (|s| > 1 && s[0] == '-' && AllDigits(s[1..]) && DigitsValue(s[1..]) == -n)
    || (|s| > 1 && s[0] == '+' && AllDigits(s[1..]) && DigitsValue(s[1..]) == n)
    || (|s| > 0 && AllDigits(s) && DigitsValue(s) == n)
  }

  /**
   * `Integer.parseInt(s)`: an optional leading `-` or `+` followed by at least
   * one decimal digit, whose value lies in the 32-bit range. Every other input
   * makes Java throw NumberFormatException, here None.
   */
  function ParseInt(s: string): (r: Option<Int32>)
    ensures r.Some? ==> DecimalText(s, r.value)
    ensures r.None? ==> forall n: int :: DecimalText(s, n) ==> n < MinInt32 || MaxInt32 < n
  {
    if |s| == 0 then None
    else
      var negative := s[0] == '-';
      var digits := if s[0] == '-' || s[0] == '+' then s[1..] else s;
      if |digits| == 0 || !AllDigits(digits) then None
      else
        var magnitude: int := DigitsValue(digits);
        var n := if negative then -magnitude else magnitude;
        if MinInt32 <= n <= MaxInt32 then Some(n) else None
  }

  /** Parsing succeeds with `n` exactly when `s` is a base-10 text of `n` and `n` fits in 32 bits. */
  lemma ParseIntIff(s: string, n: int)
    ensures ParseInt(s).Some? && ParseInt(s).value == n <==> DecimalText(s, n) && MinInt32 <= n <= MaxInt32
  {
    if DecimalText(s, n) && MinInt32 <= n <= MaxInt32 && ParseInt(s).Some? {
      DecimalTextUnique(s, n, ParseInt(s).value);
    }
  }

  /** A text denotes at most one integer. */
  lemma DecimalTextUnique(s: string, m: int, n: int)
    requires DecimalText(s, m) && DecimalText(s, n)
    ensures m == n
  {
    if |s| > 0 && AllDigits(s) {
      assert !(s[0] == '-' || s[0] == '+') by { assert IsDigit(s[0]); }
    }
  }

  /** Java accepts a plus sign, leading zeros and a negative zero. */
  lemma ParseIntAcceptsSignsAndZeros()
    ensures ParseInt("+4") == Some(4)
    ensures ParseInt("007") == Some(7)
    ensures ParseInt("-0") == Some(0)
  {
    assert DecimalText("+4", 4) by { assert "+4"[1..] == "4"; assert "4"[..0] == ""; }
    ParseIntIff("+4", 4);
    assert DecimalText("007", 7) by {
      assert "007"[..2] == "00" && "00"[..1] == "0" && "0"[..0] == "";
    }
    ParseIntIff("007", 7);
    assert DecimalText("-0", 0) by { assert "-0"[1..] == "0"; assert "0"[..0] == ""; }
    ParseIntIff("-0", 0);
  }

  /** The least 32-bit integer parses; one more than the greatest does not. */
  lemma ParseIntRangeEdges()
    ensures ParseInt(FormatInt(MinInt32)) == Some(MinInt32)
    ensures ParseInt(FormatInt(MaxInt32 + 1)) == None
  {
    ParseFormatRoundTrip(MinInt32);
    FormatIntIsDecimalText(MaxInt32 + 1);
    ParseIntIff(FormatInt(MaxInt32 + 1), MaxInt32 + 1);
  }

  /** A character other than a digit, after an optional sign, makes parsing fail. */
  lemma ParseIntRejectsNonDigit(s: string, i: nat)
    requires i < |s| && !IsDigit(s[i])
    requires i > 0 || (s[0] != '-' && s[0] != '+')
    ensures ParseInt(s) == None
  {
  }

  /** The decimal representation of a natural number, without leading zeros. */
  function FormatNat(n: nat): (s: string)
    ensures |s| > 0 && AllDigits(s)
    decreases n
  {
    if n < 10 then [('0' as int + n) as char]
    else FormatNat(n / 10) + [('0' as int + n % 10) as char]
  }

  /** `Integer.toString(n)`: the decimal representation, with `-` for negative values. */
  function FormatInt(n: int): (s: string)
    ensures |s| > 0
  {
    if n < 0 then "-" + FormatNat(-n) else FormatNat(n)
  }

  lemma {:induction false} DigitsValueOfFormatNat(n: nat)
    ensures DigitsValue(FormatNat(n)) == n
    decreases n
  {
    var s := FormatNat(n);
    if n >= 10 {
      DigitsValueOfFormatNat(n / 10);
      assert s[..|s| - 1] == FormatNat(n / 10);
    }
  }

  /** The decimal representation of an integer is a base-10 text of it. */
  lemma FormatIntIsDecimalText(n: int)
    ensures DecimalText(FormatInt(n), n)
  {
    DigitsValueOfFormatNat(if n < 0 then -n else n);
    if n < 0 {
      assert FormatInt(n)[1..] == FormatNat(-n);
    } else {
      assert IsDigit(FormatInt(n)[0]);
    }
  }

  /** Parsing the decimal representation of any 32-bit integer gives that integer back. */
  lemma ParseFormatRoundTrip(n: Int32)
    ensures ParseInt(FormatInt(n)) == Some(n)
  {
    FormatIntIsDecimalText(n);
    ParseIntIff(FormatInt(n), n);
  }
}
