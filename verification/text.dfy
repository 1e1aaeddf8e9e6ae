/**
 The string operations the cache relies on: Python's substring test
 (`needle in haystack` on `str`), `str.isdigit` restricted to ASCII digits,
 and `int()` on a digit string.
 */
module Text {

  /** `needle` occurs in `haystack` starting at position `i`. */
  predicate OccursAt(needle: string, haystack: string, i: int) {
    0 <= i && i + |needle| <= |haystack| && haystack[i..i + |needle|] == needle
  }

  /** Plain containment: the meaning of Python's `needle in haystack`. */
  ghost predicate IsSubstring(needle: string, haystack: string) {
    exists i :: OccursAt(needle, haystack, i)
  }

  /** Occurrences in `haystack[1..]` are the occurrences in `haystack` shifted by one. */
  lemma OccursInTail(needle: string, haystack: string, i: int)
    requires |haystack| > 0 && i >= 0
    ensures OccursAt(needle, haystack[1..], i) <==> OccursAt(needle, haystack, i + 1)
  {
    if i + |needle| <= |haystack| - 1 {
      assert haystack[1..][i..i + |needle|] == haystack[i + 1..i + 1 + |needle|];
    }
  }

  /** Executable substring search: scans start positions left to right. */
  function Contains(haystack: string, needle: string): (b: bool)
    ensures b <==> IsSubstring(needle, haystack)
    decreases |haystack|
  {
    if |haystack| < |needle| then
      false
    else if haystack[..|needle|] == needle then
      assert OccursAt(needle, haystack, 0);
      true
    else
      var rest := Contains(haystack[1..], needle);
      assert rest ==> IsSubstring(needle, haystack) by {
        if rest {
          var i :| OccursAt(needle, haystack[1..], i);
          OccursInTail(needle, haystack, i);
        }
      }
      assert IsSubstring(needle, haystack) ==> rest by {
        if IsSubstring(needle, haystack) {
          var i :| OccursAt(needle, haystack, i);
          assert i != 0;
          OccursInTail(needle, haystack, i - 1);
        }
      }
      rest
  }

  predicate IsDigit(c: char) {
    '0' <= c <= '9'
  }

  /** Every character is an ASCII digit (the empty string included). */
  predicate AllDigits(s: string) {
    forall i :: 0 <= i < |s| ==> IsDigit(s[i])
  }

  /** `str.isdigit()` on ASCII text: non-empty and every character a digit. */
  predicate IsDigits(s: string) {
    |s| > 0 && AllDigits(s)
  }

  function DigitValue(c: char): (d: nat)
    requires IsDigit(c)
    ensures d < 10
  {
    c as int - '0' as int
  }

  function DigitChar(d: nat): (c: char)
    requires d < 10
    ensures IsDigit(c) && DigitValue(c) == d
  {
    ('0' as int + d) as char
  }

  /** `int(s)` for a string of decimal digits (leading zeros allowed). A digit
      string that does not start with `0` has a positive value. */
  function ParseDecimal(s: string): (v: nat)
    requires AllDigits(s)
    ensures IsDigits(s) && s[0] != '0' ==> v >= 1
    decreases |s|
  {
    if |s| == 0 then 0
    else ParseDecimal(s[..|s| - 1]) * 10 + DigitValue(s[|s| - 1])
  }

  /** `str(n)` for a natural number: its shortest decimal rendering. */
  function DecimalString(n: nat): (s: string)
    ensures IsDigits(s)
    ensures s[0] != '0' || |s| == 1
    decreases n
  {
    if n < 10 then [DigitChar(n)]
    else DecimalString(n / 10) + [DigitChar(n % 10)]
  }

  /** Parsing the rendering of `n` gives `n` back. */
  lemma {:induction false} ParseDecimalString(n: nat)
    ensures ParseDecimal(DecimalString(n)) == n
    decreases n
  {
    var s := DecimalString(n);
    if n >= 10 {
      ParseDecimalString(n / 10);
      assert s[..|s| - 1] == DecimalString(n / 10);
    }
  }

  /** Rendering the value of a digit string without a leading zero gives the string back. */
  lemma {:induction false} DecimalStringParse(s: string)
    requires IsDigits(s) && (s[0] != '0' || |s| == 1)
    ensures DecimalString(ParseDecimal(s)) == s
    decreases |s|
  {
    var n := ParseDecimal(s);
    var last := s[|s| - 1];
    if |s| == 1 {
      assert DigitChar(DigitValue(last)) == last;
    } else {
      var init := s[..|s| - 1];
      assert init[0] == s[0];
      DecimalStringParse(init);
      assert n / 10 == ParseDecimal(init) && n % 10 == DigitValue(last);
      assert DigitChar(DigitValue(last)) == last;
      assert s == init + [last];
    }
  }

  /** `s` without its leading zeros, keeping at least one digit. */
  function StripLeadingZeros(s: string): (t: string)
    requires IsDigits(s)
    ensures IsDigits(t) && (t[0] != '0' || |t| == 1)
    decreases |s|
  {
    if |s| > 1 && s[0] == '0' then StripLeadingZeros(s[1..]) else s
  }

  /** A leading zero does not change the value of a digit string. */
  lemma {:induction false} ParseLeadingZero(t: string)
    requires AllDigits(t)
    ensures ParseDecimal(['0'] + t) == ParseDecimal(t)
    decreases |t|
  {
    if |t| > 0 {
      var init := t[..|t| - 1];
      assert (['0'] + t)[..|t|] == ['0'] + init;
      ParseLeadingZero(init);
    }
  }

  /** `str(int(s))` is `s` with its leading zeros removed. */
  lemma {:induction false} DecimalStringOfParse(s: string)
    requires IsDigits(s)
    ensures DecimalString(ParseDecimal(s)) == StripLeadingZeros(s)
    decreases |s|
  {
    if |s| > 1 && s[0] == '0' {
      assert s == ['0'] + s[1..];
      ParseLeadingZero(s[1..]);
      DecimalStringOfParse(s[1..]);
    } else {
      DecimalStringParse(s);
    }
  }

}
