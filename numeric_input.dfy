/**
 * The numeric text filter shared by every text field of the calculator, and the
 * reading of accepted text as a number (`parseFloat(text) || 0`).
 *
 * The filter is `value === '' || /^\d*\.?\d*$/.test(value)`. In JavaScript `\d`
 * is an ASCII digit and `$` without the multiline flag is the end of the input,
 * so the pattern is a run of digits, at most one '.', and a run of digits.
 */
module NumericInput {
  import opened Options

  predicate IsDigit(c: char) { '0' <= c <= '9' }

  predicate AllDigits(s: string) { forall i :: 0 <= i < |s| ==> IsDigit(s[i]) }

  predicate HasDigit(s: string) { exists i :: 0 <= i < |s| && IsDigit(s[i]) }

  /** `/^\d*\.?\d*$/.test(s)` as a scanner: digits until a '.', then only digits. */
  predicate MatchesNumeric(s: string) {
    if s == [] then true
    else if IsDigit(s[0]) then MatchesNumeric(s[1..])
    else s[0] == '.' && AllDigits(s[1..])
  }

  /** The condition under which a field takes the edited text. */
  predicate Accepts(s: string) { s == "" || MatchesNumeric(s) }

  /** `\.?\d*`: an optional point followed by digits. */
  predicate OptionalDotDigits(t: string) {
    AllDigits(t) || (t != [] && t[0] == '.' && AllDigits(t[1..]))
  }

  /** The first k characters match `\d*` and the rest match `\.?\d*`. */
  ghost predicate SplitAt(s: string, k: int) {
    0 <= k <= |s| && AllDigits(s[..k]) && OptionalDotDigits(s[k..])
  }

  /** The regular expression read literally: `\d*`, then an optional `.`, then `\d*`. */
  ghost predicate PatternSplit(s: string) {
    exists k :: SplitAt(s, k)
  }

  /** Only digits and '.' occur. */
  predicate DigitsAndDots(s: string) {
    forall i :: 0 <= i < |s| ==> IsDigit(s[i]) || s[i] == '.'
  }

  predicate NoDot(s: string) {
    forall i :: 0 <= i < |s| ==> s[i] != '.'
  }

  /** No two positions both hold '.'. */
  predicate AtMostOneDot(s: string) {
    forall i, j :: 0 <= i < j < |s| && s[i] == '.' ==> s[j] != '.'
  }

  lemma AllDigitsTail(s: string)
    requires s != []
    ensures AllDigits(s) <==> IsDigit(s[0]) && AllDigits(s[1..])
  {
    assert forall i :: 0 <= i < |s[1..]| ==> s[1..][i] == s[i + 1];
  }

  lemma SplitAtShift(s: string, k: int)
    requires s != [] && IsDigit(s[0]) && 0 < k <= |s|
    ensures SplitAt(s, k) <==> SplitAt(s[1..], k - 1)
  {
    var t := s[1..];
    assert s[..k][1..] == t[..k - 1];
    assert s[k..] == t[k - 1..];
    AllDigitsTail(s[..k]);
  }

  lemma AllDigitsPrefix(s: string, k: nat)
    requires k <= |s|
    ensures AllDigits(s[..k]) <==> forall i :: 0 <= i < k ==> IsDigit(s[i])
  {
    assert forall i :: 0 <= i < k ==> s[..k][i] == s[i];
  }

  lemma SplitAtNonDigitHead(s: string, k: int)
    requires s != [] && !IsDigit(s[0]) && SplitAt(s, k)
    ensures k == 0
  {
    AllDigitsPrefix(s, k);
  }

  lemma {:induction false} MatchesIffSplit(s: string)
    ensures MatchesNumeric(s) <==> PatternSplit(s)
  {
    if s == [] {
      assert s[..0] == [] && s[0..] == [];
      assert SplitAt(s, 0);
    } else {
      var t := s[1..];
      assert s[..0] == [] && s[0..] == s;
      AllDigitsTail(s);
      if IsDigit(s[0]) {
        MatchesIffSplit(t);
        if PatternSplit(t) {
          var k :| SplitAt(t, k);
          SplitAtShift(s, k + 1);
        }
        if PatternSplit(s) {
          var k :| SplitAt(s, k);
          if k == 0 {
            assert t[..0] == [] && t[0..] == t;
            assert SplitAt(t, 0);
          } else {
            SplitAtShift(s, k);
          }
        }
      } else {
        if PatternSplit(s) {
          var k :| SplitAt(s, k);
          SplitAtNonDigitHead(s, k);
        }
        if MatchesNumeric(s) {
          assert SplitAt(s, 0);
        }
      }
    }
  }

  /** The filter accepts exactly the strings the regular expression describes. */
  lemma AcceptsIffPattern(s: string)
    ensures Accepts(s) <==> PatternSplit(s)
  {
    MatchesIffSplit(s);
  }

  lemma DigitsAndDotsTail(s: string)
    requires s != []
    ensures DigitsAndDots(s) <==> (IsDigit(s[0]) || s[0] == '.') && DigitsAndDots(s[1..])
  {
    assert forall i :: 0 <= i < |s[1..]| ==> s[1..][i] == s[i + 1];
  }

  lemma AtMostOneDotTail(s: string)
    requires s != []
    ensures AtMostOneDot(s) <==> AtMostOneDot(s[1..]) && (s[0] == '.' ==> NoDot(s[1..]))
  {
    var t := s[1..];
    assert forall i :: 0 <= i < |t| ==> t[i] == s[i + 1];
    if AtMostOneDot(t) && (s[0] == '.' ==> NoDot(t)) {
      forall i, j | 0 <= i < j < |s| && s[i] == '.'
        ensures s[j] != '.'
      {
        if i > 0 { assert t[i - 1] == '.'; }
      }
    }
  }

  lemma AllDigitsIffNoDot(t: string)
    ensures AllDigits(t) <==> DigitsAndDots(t) && NoDot(t)
  {
  }

  lemma {:induction false} MatchesIffDigitsWithOneDot(s: string)
    ensures MatchesNumeric(s) <==> DigitsAndDots(s) && AtMostOneDot(s)
  {
    if s != [] {
      var t := s[1..];
      DigitsAndDotsTail(s);
      AtMostOneDotTail(s);
      if IsDigit(s[0]) {
        MatchesIffDigitsWithOneDot(t);
      } else if s[0] == '.' {
        AllDigitsIffNoDot(t);
        assert NoDot(t) ==> AtMostOneDot(t);
      }
    }
  }

  /** The filter accepts exactly the strings of digits that hold at most one '.'. */
  lemma AcceptsIffDigitsWithOneDot(s: string)
    ensures Accepts(s) <==> DigitsAndDots(s) && AtMostOneDot(s)
  {
    MatchesIffDigitsWithOneDot(s);
  }

  /** Deleting characters from the end of accepted text leaves accepted text. */
  lemma AcceptsPrefix(s: string, n: nat)
    requires Accepts(s) && n <= |s|
    ensures Accepts(s[..n])
  {
    AcceptsIffDigitsWithOneDot(s);
    AcceptsIffDigitsWithOneDot(s[..n]);
  }

  /** Position of the first '.', or |s| when there is none. */
  function DotIndex(s: string): (k: nat)
    ensures k <= |s|
    ensures k < |s| ==> s[k] == '.'
    ensures forall i :: 0 <= i < k ==> s[i] != '.'
  {
    if s == [] || s[0] == '.' then 0 else 1 + DotIndex(s[1..])
  }

  /** The text before the decimal point. */
  function WholePart(s: string): string {
    s[..DotIndex(s)]
  }

  /** The text after the decimal point (empty when there is no point). */
  function FractionPart(s: string): string {
    var k := DotIndex(s);
    if k < |s| then s[k + 1..] else ""
  }

  /** A string is what lies before a position, the character there, and what follows. */
  lemma Decompose(s: string, k: nat)
    requires k < |s|
    ensures s == s[..k] + [s[k]] + s[k + 1..]
  {
  }

  /** Every string is its whole part, its point if any, and its fraction part. */
  lemma SplitAtDot(s: string)
    ensures DotIndex(s) < |s| ==> s == WholePart(s) + "." + FractionPart(s)
    ensures DotIndex(s) == |s| ==> s == WholePart(s) && FractionPart(s) == ""
  {
    var k := DotIndex(s);
    if k < |s| {
      Decompose(s, k);
      assert [s[k]] == ".";
    } else {
      assert s[..k] == s;
    }
  }

  lemma {:induction false} ScannedParts(s: string)
    requires MatchesNumeric(s)
    ensures AllDigits(WholePart(s)) && AllDigits(FractionPart(s))
  {
    if s != [] {
      var t := s[1..];
      if IsDigit(s[0]) {
        ScannedParts(t);
        assert WholePart(s) == [s[0]] + WholePart(t);
        assert FractionPart(s) == FractionPart(t);
        AllDigitsTail(WholePart(s));
      }
    }
  }

  /** Accepted text is whole digits, an optional point and fraction digits. */
  lemma AcceptedParts(s: string)
    requires Accepts(s)
    ensures AllDigits(WholePart(s)) && AllDigits(FractionPart(s))
    ensures DotIndex(s) < |s| ==> s == WholePart(s) + "." + FractionPart(s)
    ensures DotIndex(s) == |s| ==> s == WholePart(s) && FractionPart(s) == ""
  {
    SplitAtDot(s);
    if s != [] {
      ScannedParts(s);
    }
  }

  function DigitValue(c: char): (d: nat)
    requires IsDigit(c)
    ensures d < 10
  {
    (c as int) - ('0' as int)
  }

  /** The number a run of decimal digits denotes. */
  function DigitsValue(s: string): (v: real)
    requires AllDigits(s)
    ensures v >= 0.0
  {
    if s == [] then 0.0 else DigitsValue(s[..|s| - 1]) * 10.0 + DigitValue(s[|s| - 1]) as real
  }

  /** The value of digits written after a decimal point: "25" after the point is 0.25. */
  function FractionValue(s: string): (x: real)
    requires AllDigits(s)
    ensures 0.0 <= x < 1.0
  {
    if s == [] then 0.0 else (DigitValue(s[0]) as real + FractionValue(s[1..])) / 10.0
  }

  /**
   * `parseFloat` on accepted text: None where JavaScript gives NaN (no digit at
   * all, as in "" and "."), else the decimal value. Defined only on text the
   * filter accepts, since that is all a field can hold.
   */
  function Parse(s: string): (r: Option<real>)
    requires Accepts(s)
    ensures r.Some? ==> r.value >= 0.0
  {
    AcceptedParts(s);
    var whole := WholePart(s);
    var fraction := FractionPart(s);
    if whole == [] && fraction == [] then None
    else Some(DigitsValue(whole) as real + FractionValue(fraction))
  }

  /** `parseFloat(s) || 0`: NaN (and 0 itself) read as 0. */
  function ReadNumber(s: string): (x: real)
    requires Accepts(s)
    ensures x >= 0.0
  {
    Parse(s).GetOr(0.0)
  }

  /** Accepted text gives a number exactly when it holds a digit. */
  lemma ParseDefinedIffDigit(s: string)
    requires Accepts(s)
    ensures Parse(s).Some? <==> HasDigit(s)
  {
    AcceptedParts(s);
    var whole, fraction := WholePart(s), FractionPart(s);
    var dot := if DotIndex(s) < |s| then "." else "";
    if whole != [] {
      assert s[0] == whole[0];
    } else if fraction != [] {
      assert s[|dot|] == fraction[0];
    } else {
      assert s == dot;
    }
  }

  /** Accepted text without a digit reads as 0. */
  lemma ReadNumberWithoutDigit(s: string)
    requires Accepts(s) && !HasDigit(s)
    ensures ReadNumber(s) == 0.0
  {
    ParseDefinedIffDigit(s);
  }

  lemma DotIndexAfterDigits(a: string, rest: string)
    requires AllDigits(a) && rest != [] && rest[0] == '.'
    ensures DotIndex(a + rest) == |a|
  {
    var s := a + rest;
    assert s[|a|] == '.';
    assert forall i :: 0 <= i < |a| ==> s[i] == a[i];
  }

  /** Digits, a point and digits: the filter accepts it. */
  lemma ParsePartsAccepted(s: string)
    requires DotIndex(s) < |s| && AllDigits(WholePart(s)) && AllDigits(FractionPart(s))
    ensures Accepts(s)
  {
    var k := DotIndex(s);
    SplitAtDot(s);
    assert s[..k] == WholePart(s) && s[k..] == "." + FractionPart(s);
    assert SplitAt(s, k);
    AcceptsIffPattern(s);
  }

  lemma PartsOfDecimal(a: string, b: string)
    requires AllDigits(a) && AllDigits(b)
    ensures DotIndex(a + "." + b) == |a|
    ensures WholePart(a + "." + b) == a && FractionPart(a + "." + b) == b
  {
    var s := a + "." + b;
    assert s == a + ("." + b);
    DotIndexAfterDigits(a, "." + b);
    assert s[..|a|] == a;
    assert s[|a| + 1..] == b;
  }

  /** Accepted text with known whole and fraction parts reads as their values. */
  lemma ParseOfParts(s: string, whole: string, fraction: string)
    requires Accepts(s) && WholePart(s) == whole && FractionPart(s) == fraction
    ensures AllDigits(whole) && AllDigits(fraction)
    ensures Parse(s) == if whole == [] && fraction == [] then None else Some(DigitsValue(whole) + FractionValue(fraction))
  {
    AcceptedParts(s);
  }

  /**
   * "a.b" reads as the whole number a plus the fraction b; with no digit on
   * either side (".") it is NaN.
   */
  lemma ParseDecimal(a: string, b: string)
    requires AllDigits(a) && AllDigits(b)
    ensures Accepts(a + "." + b)
    ensures Parse(a + "." + b) ==
      if a == [] && b == [] then None else Some(DigitsValue(a) + FractionValue(b))
  {
    var s := a + "." + b;
    PartsOfDecimal(a, b);
    ParsePartsAccepted(s);
    ParseOfParts(s, a, b);
  }

  /** A run of digits is read as the natural number it denotes. */
  lemma ParseDigits(a: string)
    requires AllDigits(a) && a != []
    ensures Accepts(a) && Parse(a) == Some(DigitsValue(a))
  {
    AcceptsIffDigitsWithOneDot(a);
    assert DotIndex(a) == |a|;
    assert WholePart(a) == a;
  }

  /** A trailing point changes nothing: "12." reads as 12. */
  lemma ParseTrailingDot(a: string)
    requires AllDigits(a) && a != []
    ensures Accepts(a) && Accepts(a + ".")
    ensures Parse(a + ".") == Parse(a)
  {
    ParseDigits(a);
    ParseDecimal(a, "");
    assert a + "." + "" == a + ".";
    assert a + "" == a;
  }

  lemma {:induction false} DigitsValueLeadingZero(s: string)
    requires AllDigits(s)
    ensures AllDigits("0" + s) && DigitsValue("0" + s) == DigitsValue(s)
  {
    if s != [] {
      var s' := s[..|s| - 1];
      DigitsValueLeadingZero(s');
      assert ("0" + s)[..|"0" + s| - 1] == "0" + s';
    }
  }

  lemma LeadingZeroDecimal(a: string, b: string)
    requires AllDigits(a) && AllDigits(b) && (a != [] || b != [])
    ensures Accepts(a + "." + b) && Accepts("0" + a + "." + b)
    ensures Parse("0" + a + "." + b) == Parse(a + "." + b)
  {
    var za := "0" + a;
    DigitsValueLeadingZero(a);
    ParseDecimal(a, b);
    ParseDecimal(za, b);
  }

  /** A leading "0" changes nothing once there is a digit: "0.5" and ".5" agree. */
  lemma ParseLeadingZero(s: string)
    requires Accepts(s) && HasDigit(s)
    ensures Accepts("0" + s) && Parse("0" + s) == Parse(s)
  {
    AcceptedParts(s);
    var whole, fraction := WholePart(s), FractionPart(s);
    if DotIndex(s) < |s| {
      assert "0" + s == "0" + whole + "." + fraction;
      ParseDefinedIffDigit(s);
      LeadingZeroDecimal(whole, fraction);
    } else {
      DigitsValueLeadingZero(s);
      ParseDigits(s);
      ParseDigits("0" + s);
    }
  }

  /** Decimal text of a natural number, without leading zeros. */
  function ShowNat(n: nat): (s: string)
    ensures AllDigits(s) && s != []
  {
    if n < 10 then ['0' + n as char] else ShowNat(n / 10) + ['0' + (n % 10) as char]
  }

  /** Reading back the decimal text of a natural number gives that number. */
  lemma {:induction false} ParseShowNat(n: nat)
    ensures Accepts(ShowNat(n)) && Parse(ShowNat(n)) == Some(n as real)
  {
    DigitsValueShowNat(n);
    ParseDigits(ShowNat(n));
  }

  lemma {:induction false} DigitsValueShowNat(n: nat)
    ensures DigitsValue(ShowNat(n)) == n as real
  {
    if n >= 10 {
      DigitsValueShowNat(n / 10);
      var s := ShowNat(n);
      assert s[..|s| - 1] == ShowNat(n / 10);
    }
  }
}
