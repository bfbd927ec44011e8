/**
 * Character-level scanning shared by the line parsers: ASCII digits,
 * Python's `int()` of a digit string, `str(n)`, `str.strip()`, and the
 * decimal subset of Python's `float()`.
 */
module Scan {
  import opened Common

  predicate IsDigit(c: char) { '0' <= c <= '9' }

  /** The value of a digit character (0 for any other character, never consulted). */
  function DigitValue(c: char): nat
  {
    if IsDigit(c) then c as int - '0' as int else 0
  }

  predicate AllDigits(s: string)
  {
    forall i :: 0 <= i < |s| ==> IsDigit(s[i])
  }

  /** End of the maximal run of digits starting at `i` (the greedy `\d+`). */
  function DigitsEnd(s: string, i: nat): (j: nat)
    requires i <= |s|
    ensures i <= j <= |s|
    decreases |s| - i
  {
    if i < |s| && IsDigit(s[i]) then DigitsEnd(s, i + 1) else i
  }

  /** The digit run ends at the end of the text or at a non-digit. */
  lemma {:induction false} DigitsEndStops(s: string, i: nat)
    requires i <= |s|
    ensures DigitsEnd(s, i) < |s| ==> !IsDigit(s[DigitsEnd(s, i)])
    decreases |s| - i
  {
    if i < |s| && IsDigit(s[i]) {
      DigitsEndStops(s, i + 1);
    }
  }

  /** A run of digits to the end of the text is read whole. */
  lemma {:induction false} DigitsEndAll(s: string, i: nat)
    requires i <= |s| && forall k :: i <= k < |s| ==> IsDigit(s[k])
    ensures DigitsEnd(s, i) == |s|
    decreases |s| - i
  {
    if i < |s| {
      DigitsEndAll(s, i + 1);
    }
  }

  /** `int(s)` for a string of ASCII digits. */
  function DecimalValue(s: string): nat
  {
    if s == [] then 0 else 10 * DecimalValue(s[..|s| - 1]) + DigitValue(s[|s| - 1])
  }

  function DigitChar(d: nat): (c: char)
    requires d < 10
    ensures IsDigit(c) && DigitValue(c) == d
  {
    (48 + d) as char
  }

  /** `str(n)` for a natural number. */
  function NatToString(n: nat): (r: string)
    ensures r != [] && AllDigits(r)
  {
    if n < 10 then [DigitChar(n)] else NatToString(n / 10) + [DigitChar(n % 10)]
  }

  /** `str(n)` for an integer. */
  function IntToString(n: int): (r: string)
    ensures r != []
    ensures n >= 0 ==> AllDigits(r)
    ensures n < 0 ==> r[0] == '-' && AllDigits(r[1..])
  {
    if n < 0 then "-" + NatToString(-n) else NatToString(n)
  }

  /** Reading back the decimal text of a number gives the number. */
  lemma {:induction false} DecimalOfNatToString(n: nat)
    ensures DecimalValue(NatToString(n)) == n
  {
    if n >= 10 {
      DecimalOfNatToString(n / 10);
      var s := NatToString(n / 10) + [DigitChar(n % 10)];
      assert s[..|s| - 1] == NatToString(n / 10);
    }
  }

  /** Characters Python's argument-less `str.strip()` removes (ASCII part). */
  predicate IsSpace(c: char)
  {
    c == ' ' || c == '\t' || c == '\n' || c == '\r' || c == '\U{000B}' || c == '\U{000C}'
  }

  /** `s.strip(chars)`: remove leading and trailing characters satisfying `drop`. */
  function StripLeft(s: string, drop: char -> bool): (r: string)
    ensures |r| <= |s| && r == s[|s| - |r|..]
    ensures r != [] ==> !drop(r[0])
  {
    if s != [] && drop(s[0]) then StripLeft(s[1..], drop) else s
  }

  function StripRight(s: string, drop: char -> bool): (r: string)
    ensures |r| <= |s| && r == s[..|r|]
    ensures r != [] ==> !drop(r[|r| - 1])
  {
    if s != [] && drop(s[|s| - 1]) then StripRight(s[..|s| - 1], drop) else s
  }

  function StripWith(s: string, drop: char -> bool): (r: string)
    ensures |r| <= |s|
    ensures r != [] ==> !drop(r[0]) && !drop(r[|r| - 1])
  {
    var l := StripLeft(s, drop);
    var r := StripRight(l, drop);
    assert r != [] ==> r[0] == l[0];
    r
  }

  /** `s.strip()` */
  function Strip(s: string): string { StripWith(s, IsSpace) }

  /** `s.strip('"')` */
  function StripQuotes(s: string): string { StripWith(s, c => c == '"') }

  /** A string that neither starts nor ends with a character to drop is its own stripped form. */
  lemma StripWithKeeps(s: string, drop: char -> bool)
    requires s != [] && !drop(s[0]) && !drop(s[|s| - 1])
    ensures StripWith(s, drop) == s
  {
    assert StripLeft(s, drop) == s;
    assert StripRight(s, drop) == s;
  }

  lemma StripQuotesKeeps(s: string)
    requires s != [] && s[0] != '"' && s[|s| - 1] != '"'
    ensures StripQuotes(s) == s
  {
    StripWithKeeps(s, c => c == '"');
  }

  /** `s.replace('"', "")` */
  function RemoveQuotes(s: string): (r: string)
    ensures '"' !in r
  {
    if s == [] then [] else (if s[0] == '"' then [] else [s[0]]) + RemoveQuotes(s[1..])
  }

  /** `s.rfind(c)`, or -1. */
  function LastIndexOf(s: string, c: char): (r: int)
    ensures -1 <= r < |s|
    ensures r >= 0 ==> s[r] == c
    ensures forall k :: r < k < |s| ==> s[k] != c
  {
    if s == [] then -1 else if s[|s| - 1] == c then |s| - 1 else LastIndexOf(s[..|s| - 1], c)
  }

  function Pow10(n: nat): (r: real)
    ensures r >= 1.0
  {
    if n == 0 then 1.0 else 10.0 * Pow10(n - 1)
  }

  /**
   * Python's `float(s)` on the decimal forms `[+-]digits[.digits][e[+-]digits]`
   * and `[+-].digits[...]`, after stripping surrounding whitespace; None where
   * Python raises `ValueError`.
   */
  function ParseFloat(text: string): Option<real>
  {
    var s := Strip(text);
    var neg := |s| > 0 && s[0] == '-';
    var i := if |s| > 0 && (s[0] == '-' || s[0] == '+') then 1 else 0;
    var intEnd := DigitsEnd(s, i);
    var fracStart := if intEnd < |s| && s[intEnd] == '.' then intEnd + 1 else intEnd;
    var fracEnd := DigitsEnd(s, fracStart);
    var mantissaDigits := (intEnd - i) + (fracEnd - fracStart);
    if mantissaDigits == 0 then None
    else
      var intPart := DecimalValue(s[i..intEnd]) as real;
      var frac := DecimalValue(s[fracStart..fracEnd]) as real / Pow10(fracEnd - fracStart);
      var magnitude := intPart + frac;
      if fracEnd == |s| then Some(if neg then -magnitude else magnitude)
      else if s[fracEnd] == 'e' || s[fracEnd] == 'E' then
        var expneg := fracEnd + 1 < |s| && s[fracEnd + 1] == '-';
        var j := if fracEnd + 1 < |s| && (s[fracEnd + 1] == '-' || s[fracEnd + 1] == '+') then fracEnd + 2 else fracEnd + 1;
        var expEnd := DigitsEnd(s, j);
        if expEnd == j || expEnd != |s| then None
        else
          var e := DecimalValue(s[j..expEnd]);
          var scaled := if expneg then magnitude / Pow10(e) else magnitude * Pow10(e);
          Some(if neg then -scaled else scaled)
      else None
  }

  lemma ParseFloatOfDigits(s: string)
    requires s != [] && AllDigits(s)
    ensures ParseFloat(s) == Some(DecimalValue(s) as real)
  {
    assert forall k :: 0 <= k < |s| ==> !IsSpace(s[k]);
    assert Strip(s) == s;
    DigitsEndAll(s, 0);
    assert s[0..|s|] == s;
    assert s[|s|..|s|] == [];
  }
}
