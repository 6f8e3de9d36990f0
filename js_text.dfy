/** The JavaScript string built-ins that the pricing and validation rules rely on:
    String.prototype.trim, .length (UTF-16 code units), toLowerCase / toUpperCase as far
    as they can decide equality with an ASCII key, case-insensitive regular-expression
    search for an ASCII word, and the decimal rendering of numbers (String(n), toFixed(2)). */
module JsText {

  /** ECMAScript WhiteSpace and LineTerminator code points: what trim() removes. */
  predicate IsJsWhitespace(c: char) {
    || c == '\t' || c == '\n' || c == '\U{000B}' || c == '\U{000C}' || c == '\r'
    || c == ' ' || c == '\U{00A0}' || c == '\U{1680}'
    || ('\U{2000}' <= c <= '\U{200A}')
    || c == '\U{2028}' || c == '\U{2029}' || c == '\U{202F}' || c == '\U{205F}'
    || c == '\U{3000}' || c == '\U{FEFF}'
  }

  predicate AllWhitespace(s: string) {
    forall i :: 0 <= i < |s| ==> IsJsWhitespace(s[i])
  }

  /** Drops the leading whitespace. */
  function TrimStart(s: string): (r: string)
    ensures |r| <= |s|
  {
    if |s| > 0 && IsJsWhitespace(s[0]) then TrimStart(s[1..]) else s
  }

  /** Drops the trailing whitespace. */
  function TrimEnd(s: string): (r: string)
    ensures |r| <= |s|
  {
    if |s| > 0 && IsJsWhitespace(s[|s| - 1]) then TrimEnd(s[..|s| - 1]) else s
  }

  /** String.prototype.trim. */
  function Trim(s: string): string {
    TrimEnd(TrimStart(s))
  }

  /** TrimStart keeps a suffix that does not start with whitespace and drops only whitespace. */
  lemma {:induction false} TrimStartSpec(s: string)
    ensures var r := TrimStart(s);
      && |r| <= |s| && r == s[|s| - |r|..]
      && AllWhitespace(s[..|s| - |r|])
      && (r == [] || !IsJsWhitespace(r[0]))
  {
    if |s| > 0 && IsJsWhitespace(s[0]) {
      var r := TrimStart(s[1..]);
      TrimStartSpec(s[1..]);
      assert s[..|s| - |r|] == [s[0]] + s[1..][..|s| - 1 - |r|];
    }
  }

  /** TrimEnd keeps a prefix that does not end with whitespace and drops only whitespace. */
  lemma {:induction false} TrimEndSpec(s: string)
    ensures var r := TrimEnd(s);
      && |r| <= |s| && r == s[..|r|]
      && AllWhitespace(s[|r|..])
      && (r == [] || !IsJsWhitespace(r[|r| - 1]))
  {
    if |s| > 0 && IsJsWhitespace(s[|s| - 1]) {
      var r := TrimEnd(s[..|s| - 1]);
      TrimEndSpec(s[..|s| - 1]);
      assert s[|r|..] == s[..|s| - 1][|r|..] + [s[|s| - 1]];
    }
  }

  /** trim() keeps the slice between the leading and the trailing whitespace: what it
      drops on either side is whitespace, and what it keeps neither starts nor ends
      with whitespace. */
  lemma TrimSpec(s: string)
    ensures var r := Trim(s);
      var i := |s| - |TrimStart(s)|;
      && i + |r| <= |s| && r == s[i..i + |r|]
      && AllWhitespace(s[..i]) && AllWhitespace(s[i + |r|..])
      && (r == [] || (!IsJsWhitespace(r[0]) && !IsJsWhitespace(r[|r| - 1])))
  {
    var t := TrimStart(s);
    TrimStartSpec(s);
    TrimEndSpec(t);
    var r := TrimEnd(t);
    var i := |s| - |t|;
    assert s[i..i + |r|] == t[..|r|];
    assert s[i + |r|..] == t[|r|..];
    if r != [] {
      assert r[0] == t[0];
    }
  }

  /** Trimming yields the empty string exactly when the input is all whitespace. */
  lemma TrimEmptyIff(s: string)
    ensures Trim(s) == [] <==> AllWhitespace(s)
  {
    var t := TrimStart(s);
    TrimStartSpec(s);
    TrimEndSpec(t);
    if AllWhitespace(s) && t != [] {
      assert false;
    }
    if Trim(s) == [] {
      assert AllWhitespace(t[0..]);
      assert t == [];
      assert s[..|s|] == s;
    }
  }

  /** A string that neither starts nor ends with whitespace is its own trim. */
  lemma TrimUnpadded(s: string)
    requires s != [] && !IsJsWhitespace(s[0]) && !IsJsWhitespace(s[|s| - 1])
    ensures Trim(s) == s
  {
  }

  /** Trimming twice is trimming once. */
  lemma TrimIdempotent(s: string)
    ensures Trim(Trim(s)) == Trim(s)
  {
    var r := Trim(s);
    TrimSpec(s);
    if r != [] {
      TrimUnpadded(r);
    }
  }

  /** The value of .length: UTF-16 code units, two for a code point above U+FFFF. */
  function Utf16Length(s: string): (n: nat)
    ensures |s| <= n <= 2 * |s|
    ensures n == 0 <==> s == []
    ensures |s| == 1 ==> n == if s[0] as int > 0xFFFF then 2 else 1
  {
    if s == [] then 0 else (if s[0] as int > 0xFFFF then 2 else 1) + Utf16Length(s[1..])
  }

  /** The length of a concatenation is the sum of the lengths, so with the one-character
      case the length is the number of characters plus the number above U+FFFF. */
  lemma {:induction false} Utf16LengthAppend(s: string, t: string)
    ensures Utf16Length(s + t) == Utf16Length(s) + Utf16Length(t)
  {
    if s == [] {
      assert s + t == t;
    } else {
      assert (s + t)[0] == s[0];
      assert (s + t)[1..] == s[1..] + t;
      Utf16LengthAppend(s[1..], t);
    }
  }

  /** toLowerCase on one character, as far as it can make a string equal to a
      lower-case ASCII word: the ASCII capitals, and the Kelvin sign, whose
      lower-case form is the ASCII letter k. Every other character is kept. */
  function LowerChar(c: char): char {
    if 'A' <= c <= 'Z' then (c as int + 32) as char
    else if c == '\U{212A}' then 'k'
    else c
  }

  function LowerCase(s: string): (r: string)
    ensures |r| == |s|
  {
    seq(|s|, i requires 0 <= i < |s| => LowerChar(s[i]))
  }

  predicate IsAscii(s: string) {
    forall i :: 0 <= i < |s| ==> s[i] as int < 128
  }

  /** A word of ASCII small letters, such as a season key. */
  predicate IsLowerWord(w: string) {
    forall i :: 0 <= i < |w| ==> 'a' <= w[i] <= 'z'
  }

  /** A word of ASCII capitals, such as a promo code. */
  predicate IsUpperWord(w: string) {
    forall i :: 0 <= i < |w| ==> 'A' <= w[i] <= 'Z'
  }

  /** s and t are the same text once ASCII case is ignored. */
  predicate EqualIgnoringAsciiCase(s: string, t: string) {
    |s| == |t| && forall i :: 0 <= i < |s| ==> AsciiFold(s[i]) == AsciiFold(t[i])
  }

  /** On ASCII text, lower-casing changes exactly the capitals, each into its small letter. */
  lemma LowerCaseOfAscii(s: string)
    requires IsAscii(s)
    ensures forall i :: 0 <= i < |s| ==>
      LowerCase(s)[i] == if 'A' <= s[i] <= 'Z' then (s[i] as int + 32) as char else s[i]
  {
  }

  /** ASCII text lower-cases to a word of small letters exactly when it is that word
      ignoring case. */
  lemma LowerCaseEqualsIff(s: string, w: string)
    requires IsAscii(s) && IsLowerWord(w)
    ensures LowerCase(s) == w <==> EqualIgnoringAsciiCase(s, w)
  {
    LowerCaseOfAscii(s);
    if LowerCase(s) == w {
      forall i | 0 <= i < |s|
        ensures AsciiFold(s[i]) == AsciiFold(w[i])
      {
        assert LowerCase(s)[i] == w[i];
      }
    }
    if EqualIgnoringAsciiCase(s, w) {
      forall i | 0 <= i < |s|
        ensures LowerCase(s)[i] == w[i]
      {
        assert AsciiFold(s[i]) == AsciiFold(w[i]);
      }
    }
  }

  /** toUpperCase on one character, as far as it can make a string equal to an
      upper-case ASCII word: the ASCII small letters, the dotless i and the long s
      (which become I and S), the sharp s (SS) and the Latin ligatures U+FB00 to
      U+FB06, which expand to two or three capitals. Every other character is kept. */
  function UpperChar(c: char): (r: string)
    ensures 1 <= |r| <= 3
  {
    if 'a' <= c <= 'z' then [(c as int - 32) as char]
    else if c == '\U{0131}' then "I"
    else if c == '\U{017F}' then "S"
    else if c == '\U{00DF}' then "SS"
    else if c == '\U{FB00}' then "FF"
    else if c == '\U{FB01}' then "FI"
    else if c == '\U{FB02}' then "FL"
    else if c == '\U{FB03}' then "FFI"
    else if c == '\U{FB04}' then "FFL"
    else if c == '\U{FB05}' || c == '\U{FB06}' then "ST"
    else [c]
  }

  /** No upper-cased character is an ASCII small letter. */
  lemma UpperCharHasNoSmallLetter(c: char)
    ensures forall i :: 0 <= i < |UpperChar(c)| ==> !('a' <= UpperChar(c)[i] <= 'z')
  {
  }

  function UpperCase(s: string): (r: string)
    ensures |s| <= |r| <= 3 * |s|
  {
    if s == [] then [] else UpperChar(s[0]) + UpperCase(s[1..])
  }

  /** On ASCII text, upper-casing changes exactly the small letters. */
  lemma {:induction false} UpperCaseOfAscii(s: string)
    requires IsAscii(s)
    ensures |UpperCase(s)| == |s|
    ensures forall i :: 0 <= i < |s| ==> UpperCase(s)[i] == AsciiFold(s[i])
  {
    if s != [] {
      UpperCaseOfAscii(s[1..]);
      assert UpperChar(s[0]) == [AsciiFold(s[0])];
    }
  }

  /** Upper-casing leaves no ASCII small letter. */
  lemma {:induction false} UpperCaseHasNoSmallLetter(s: string)
    ensures forall i :: 0 <= i < |UpperCase(s)| ==> !('a' <= UpperCase(s)[i] <= 'z')
  {
    if s != [] {
      UpperCaseHasNoSmallLetter(s[1..]);
      UpperCharHasNoSmallLetter(s[0]);
      var head := UpperChar(s[0]);
      var tail := UpperCase(s[1..]);
      forall i | 0 <= i < |UpperCase(s)|
        ensures !('a' <= UpperCase(s)[i] <= 'z')
      {
        if i < |head| {
          assert UpperCase(s)[i] == head[i];
        } else {
          assert UpperCase(s)[i] == tail[i - |head|];
        }
      }
    }
  }

  /** ASCII text upper-cases to a word of capitals exactly when it is that word ignoring
      case. */
  lemma UpperCaseEqualsIff(s: string, w: string)
    requires IsAscii(s) && IsUpperWord(w)
    ensures UpperCase(s) == w <==> EqualIgnoringAsciiCase(s, w)
  {
    UpperCaseOfAscii(s);
    if UpperCase(s) == w {
      forall i | 0 <= i < |s|
        ensures AsciiFold(s[i]) == AsciiFold(w[i])
      {
        assert UpperCase(s)[i] == w[i];
      }
    }
    if EqualIgnoringAsciiCase(s, w) {
      forall i | 0 <= i < |s|
        ensures UpperCase(s)[i] == w[i]
      {
        assert AsciiFold(s[i]) == AsciiFold(w[i]);
      }
    }
  }

  /** Upper-casing ASCII text gives the text with its small letters capitalised. */
  lemma UpperCaseOfAsciiIs(s: string, t: string)
    requires IsAscii(s)
    requires |t| == |s| && forall i :: 0 <= i < |s| ==> t[i] == AsciiFold(s[i])
    ensures UpperCase(s) == t
  {
    UpperCaseOfAscii(s);
  }

  /** The case folding a regular expression with the i flag and no u flag applies to
      ASCII letters; no other character folds onto an ASCII letter. */
  function AsciiFold(c: char): char {
    if 'a' <= c <= 'z' then (c as int - 32) as char else c
  }

  /** The pattern p occurs in s at offset i, ignoring ASCII case. */
  predicate MatchAt(s: string, p: string, i: nat)
    requires i + |p| <= |s|
  {
    forall k :: 0 <= k < |p| ==> AsciiFold(s[i + k]) == AsciiFold(p[k])
  }

  /** /p/i.test(s) for a pattern p of plain letters. */
  predicate TestIgnoreCase(s: string, p: string) {
    exists i: nat :: i + |p| <= |s| && MatchAt(s, p, i)
  }

  /** The pattern is found wherever the text contains it in any ASCII case. */
  lemma TestIgnoreCaseFinds(a: string, w: string, b: string, p: string)
    requires EqualIgnoringAsciiCase(w, p)
    ensures TestIgnoreCase(a + w + b, p)
  {
    var s := a + w + b;
    forall k | 0 <= k < |p|
      ensures AsciiFold(s[|a| + k]) == AsciiFold(p[k])
    {
      assert s[|a| + k] == w[k];
    }
    assert MatchAt(s, p, |a|);
  }

  /** Changing the ASCII case of the text never changes the outcome of the test. */
  lemma TestIgnoreCaseCaseBlind(s: string, t: string, p: string)
    requires EqualIgnoringAsciiCase(s, t)
    ensures TestIgnoreCase(s, p) <==> TestIgnoreCase(t, p)
  {
    forall i: nat | i + |p| <= |s|
      ensures MatchAt(s, p, i) <==> MatchAt(t, p, i)
    {
      forall k | 0 <= k < |p|
        ensures AsciiFold(s[i + k]) == AsciiFold(p[k]) <==> AsciiFold(t[i + k]) == AsciiFold(p[k])
      {
        assert 0 <= i + k < |s|;
      }
    }
  }

  /** Math.round on an exact value: the nearest integer, halves rounded up. */
  function MathRound(x: real): (n: int)
    ensures n as real - 0.5 <= x < n as real + 0.5
  {
    (x + 0.5).Floor
  }

  predicate IsDigit(c: char) {
    '0' <= c <= '9'
  }

  function DigitChar(d: nat): (c: char)
    requires d < 10
    ensures IsDigit(c)
  {
    ('0' as int + d) as char
  }

  /** The decimal rendering of a non-negative integer (String(n) in JavaScript). */
  function NatToDecimal(n: nat): (s: string)
    ensures |s| >= 1
    ensures forall i :: 0 <= i < |s| ==> IsDigit(s[i])
    ensures |s| > 1 ==> s[0] != '0'
  {
    if n < 10 then [DigitChar(n)] else NatToDecimal(n / 10) + [DigitChar(n % 10)]
  }

  /** The number of decimal digits at the start of s. */
  function LeadingDigits(s: string): (k: nat)
    ensures k <= |s|
    ensures forall i :: 0 <= i < k ==> IsDigit(s[i])
    ensures k < |s| ==> !IsDigit(s[k])
  {
    if s != [] && IsDigit(s[0]) then 1 + LeadingDigits(s[1..]) else 0
  }

  /** Digits followed by anything that does not start with a digit: the leading digits are
      exactly the first part. */
  lemma LeadingDigitsOf(a: string, b: string)
    requires forall i :: 0 <= i < |a| ==> IsDigit(a[i])
    requires b != [] && !IsDigit(b[0])
    ensures LeadingDigits(a + b) == |a|
  {
    var s := a + b;
    assert s[|a|] == b[0];
    assert forall i :: 0 <= i < |a| ==> s[i] == a[i];
  }

  /** Reads a string of decimal digits back as a number: the reference against which
      the renderings are checked. */
  function DecimalValue(s: string): nat
    requires forall i :: 0 <= i < |s| ==> IsDigit(s[i])
  {
    if s == [] then 0
    else
      assert IsDigit(s[|s| - 1]);
      10 * DecimalValue(s[..|s| - 1]) + (s[|s| - 1] as int - '0' as int)
  }

  lemma {:induction false} NatToDecimalRoundTrip(n: nat)
    ensures DecimalValue(NatToDecimal(n)) == n
  {
    var s := NatToDecimal(n);
    if n >= 10 {
      NatToDecimalRoundTrip(n / 10);
      assert s[..|s| - 1] == NatToDecimal(n / 10);
    }
  }

  /** Number.prototype.toFixed(2) of cents / 100 for a non-negative whole number of cents. */
  function FixedTwo(cents: nat): (s: string)
    ensures |s| >= 4 && s[|s| - 3] == '.'
    ensures forall i :: 0 <= i < |s| && i != |s| - 3 ==> IsDigit(s[i])
  {
    NatToDecimal(cents / 100) + "." + [DigitChar(cents / 10 % 10), DigitChar(cents % 10)]
  }

  /** Reading the integer part and the two fraction digits of FixedTwo gives back the cents. */
  lemma FixedTwoRoundTrip(cents: nat)
    ensures var s := FixedTwo(cents);
      100 * DecimalValue(s[..|s| - 3]) + DecimalValue(s[|s| - 2..]) == cents
  {
    var s := FixedTwo(cents);
    var whole := NatToDecimal(cents / 100);
    assert s[..|s| - 3] == whole;
    NatToDecimalRoundTrip(cents / 100);
    var frac := s[|s| - 2..];
    assert frac == [DigitChar(cents / 10 % 10), DigitChar(cents % 10)];
    assert frac[..1] == [DigitChar(cents / 10 % 10)];
    assert DecimalValue(frac[..1]) == cents / 10 % 10 by {
      assert frac[..1][..0] == [];
    }
    assert DecimalValue(frac) == 10 * (cents / 10 % 10) + cents % 10;
  }
}
