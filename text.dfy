/**
  Text operations of the .NET base library that the modelled code relies on:
  char.IsWhiteSpace and Trim, string.IsNullOrWhiteSpace, Int32/Int64 TryParse
  with NumberStyles.Integer, decimal formatting ("D" and "D3"), ordinal
  case-insensitive comparison and the UTF-16 length of a string.
*/
module Text {
  import opened Wrappers

  /** char.IsWhiteSpace: U+0009..U+000D, space, U+0085, U+00A0 and the Unicode space separators. */
  predicate IsWhiteSpace(c: char) {
    ('\t' <= c <= '\r') || c == ' ' || c == '\U{85}' || c == '\U{A0}' || c == '\U{1680}'
    || ('\U{2000}' <= c <= '\U{200A}') || c == '\U{2028}' || c == '\U{2029}'
    || c == '\U{202F}' || c == '\U{205F}' || c == '\U{3000}'
  }

  /** string.IsNullOrWhiteSpace for a non-null string. */
  predicate IsBlank(s: string) {
    forall i :: 0 <= i < |s| ==> IsWhiteSpace(s[i])
  }

  /** String.TrimStart(): drops the leading white space. */
  function TrimStart(s: string): string {
    if |s| > 0 && IsWhiteSpace(s[0]) then TrimStart(s[1..]) else s
  }

  /** String.TrimEnd(): drops the trailing white space. */
  function TrimEnd(s: string): string {
    if |s| > 0 && IsWhiteSpace(s[|s| - 1]) then TrimEnd(s[..|s| - 1]) else s
  }

  /** String.Trim(). */
  function Trim(s: string): string {
    TrimEnd(TrimStart(s))
  }

  /** TrimStart removes a blank prefix and leaves a text that does not start with white space. */
  lemma {:induction false} TrimStartParts(s: string)
    ensures var r := TrimStart(s);
      && |r| <= |s| && r == s[|s| - |r|..]
      && (r == [] || !IsWhiteSpace(r[0]))
      && IsBlank(s[..|s| - |r|])
  {
    if |s| > 0 && IsWhiteSpace(s[0]) {
      TrimStartParts(s[1..]);
      var r := TrimStart(s[1..]);
      assert s[..|s| - |r|] == [s[0]] + s[1..][..|s| - 1 - |r|];
    }
  }

  /** TrimEnd removes a blank suffix and leaves a text that does not end with white space. */
  lemma {:induction false} TrimEndParts(s: string)
    ensures var r := TrimEnd(s);
      && |r| <= |s| && r == s[..|r|]
      && (r == [] || !IsWhiteSpace(r[|r| - 1]))
      && IsBlank(s[|r|..])
  {
    if |s| > 0 && IsWhiteSpace(s[|s| - 1]) {
      TrimEndParts(s[..|s| - 1]);
      var r := TrimEnd(s[..|s| - 1]);
      assert s[|r|..] == s[..|s| - 1][|r|..] + [s[|s| - 1]];
    }
  }

  /** Text that neither starts nor ends with white space is its own trim. */
  lemma TrimUnchanged(s: string)
    requires |s| > 0 && !IsWhiteSpace(s[0]) && !IsWhiteSpace(s[|s| - 1])
    ensures Trim(s) == s
  {
  }

  /** Trimming leaves nothing exactly when the text is blank. */
  lemma TrimEmptyIffBlank(s: string)
    ensures Trim(s) == [] <==> IsBlank(s)
  {
    var a := TrimStart(s);
    TrimStartParts(s);
    TrimEndParts(a);
    if Trim(s) == [] {
      assert IsBlank(a[0..]);
      forall i | 0 <= i < |s| ensures IsWhiteSpace(s[i]) {
        if i < |s| - |a| {
          assert s[i] == s[..|s| - |a|][i];
        }
      }
    }
  }

  /** A trimmed text is blank only when it is empty. */
  lemma TrimmedBlankIsEmpty(s: string)
    ensures IsBlank(Trim(s)) <==> Trim(s) == []
  {
    var t := Trim(s);
    TrimEndParts(TrimStart(s));
    if t != [] {
      assert !IsWhiteSpace(t[|t| - 1]);
    }
  }

  predicate StartsWith(s: string, prefix: string) {
    |prefix| <= |s| && s[..|prefix|] == prefix
  }

  predicate EndsWith(s: string, suffix: string) {
    |suffix| <= |s| && s[|s| - |suffix|..] == suffix
  }

  /** Ordinal String.Contains. */
  predicate Contains(s: string, t: string)
    decreases |s|
  {
    StartsWith(s, t) || (|s| > 0 && Contains(s[1..], t))
  }

  /** `t` occurs in `s` starting at position `i`. */
  predicate OccursAt(s: string, t: string, i: int) {
    0 <= i <= |s| - |t| && s[i..i + |t|] == t
  }

  /** Contains agrees with the direct definition: `t` occurs at some position of `s`. */
  lemma {:induction false} ContainsIff(s: string, t: string)
    ensures Contains(s, t) <==> exists i :: OccursAt(s, t, i)
    decreases |s|
  {
    if StartsWith(s, t) {
      assert OccursAt(s, t, 0);
    } else if |s| > 0 {
      ContainsIff(s[1..], t);
      if Contains(s[1..], t) {
        var i :| OccursAt(s[1..], t, i);
        assert s[i + 1..i + 1 + |t|] == s[1..][i..i + |t|];
        assert OccursAt(s, t, i + 1);
      } else {
        forall i | 0 < i <= |s| - |t| ensures !OccursAt(s, t, i) {
          assert s[i..i + |t|] == s[1..][i - 1..i - 1 + |t|];
          assert !OccursAt(s[1..], t, i - 1);
        }
        assert !OccursAt(s, t, 0);
      }
    }
  }

  // ---------------------------------------------------------------------------
  // Ordinal case-insensitive comparison. The model folds the ASCII letters
  // A-Z only; .NET's OrdinalIgnoreCase also folds non-ASCII letters.

  function ToLowerAscii(c: char): char {
    if 'A' <= c <= 'Z' then (c as int + 32) as char else c
  }

  function Lower(s: string): (r: string)
    ensures |r| == |s|
  {
    seq(|s|, i requires 0 <= i < |s| => ToLowerAscii(s[i]))
  }

  /** string.Equals(a, b, StringComparison.OrdinalIgnoreCase), with the ASCII-only folding of Lower. */
  predicate EqualsIgnoreCase(a: string, b: string) {
    Lower(a) == Lower(b)
  }

  /** string.Contains(t, StringComparison.OrdinalIgnoreCase). */
  predicate ContainsIgnoreCase(s: string, t: string) {
    Contains(Lower(s), Lower(t))
  }

  lemma LowerIdempotent(s: string)
    ensures Lower(Lower(s)) == Lower(s)
  {
  }

  // ---------------------------------------------------------------------------
  // Integer parsing (NumberStyles.Integer) and formatting

  /** The white space NumberStyles.Integer accepts around the number. */
  predicate IsNumberWhite(c: char) {
    '\t' <= c <= '\r' || c == ' '
  }

  function StripNumberWhite(s: string): string
    decreases |s|
  {
    if |s| > 0 && IsNumberWhite(s[0]) then StripNumberWhite(s[1..])
    else if |s| > 0 && IsNumberWhite(s[|s| - 1]) then StripNumberWhite(s[..|s| - 1])
    else s
  }

  predicate IsDigit(c: char) {
    '0' <= c <= '9'
  }

  predicate AllDigits(s: string) {
    forall i :: 0 <= i < |s| ==> IsDigit(s[i])
  }

  /** A non-empty run of ASCII decimal digits. */
  predicate IsDigits(s: string) {
    |s| > 0 && AllDigits(s)
  }

  function DigitChar(d: nat): char
    requires d < 10
  {
    ('0' as int + d) as char
  }

  /** The value of a digit string read in base 10. */
  function DigitsValue(s: string): nat
    requires AllDigits(s)
  {
    if s == [] then 0
    else 10 * DigitsValue(s[..|s| - 1]) + ((s[|s| - 1] as int) - ('0' as int))
  }

  /** Drops the run of '\0' characters at the end of the text. */
  function StripTrailingNuls(s: string): (r: string)
    ensures |r| <= |s| && r == s[..|r|]
    ensures forall i :: |r| <= i < |s| ==> s[i] == '\0'
    ensures r == [] || r[|r| - 1] != '\0'
    decreases |s|
  {
    if |s| > 0 && s[|s| - 1] == '\0' then StripTrailingNuls(s[..|s| - 1]) else s
  }

  /**
    Int32.TryParse / Int64.TryParse with NumberStyles.Integer and ASCII signs:
    optional surrounding white space, an optional '+' or '-', then one or more
    ASCII digits whose value lies in [min, max]. Like .NET, the parser also
    accepts any run of '\0' characters at the very end of the text.
  */
  function TryParseInteger(s: string, min: int, max: int): (r: Option<int>)
    ensures r.Some? ==> min <= r.value <= max
  {
    var t := StripNumberWhite(StripTrailingNuls(s));
    var signed := |t| > 0 && (t[0] == '-' || t[0] == '+');
    var digits := if signed then t[1..] else t;
    if !IsDigits(digits) then None
    else
      var v: int := if signed && t[0] == '-' then 0 - DigitsValue(digits) as int else DigitsValue(digits);
      if min <= v <= max then Some(v) else None
  }

  /** Stripping '\0' characters ignores any run of them appended to the text. */
  lemma {:induction false} StripAppendedNuls(s: string, n: nat)
    ensures StripTrailingNuls(s + seq(n, _ => '\0')) == StripTrailingNuls(s)
    decreases n
  {
    if n > 0 {
      var u := s + seq(n, _ => '\0');
      assert u[|u| - 1] == '\0';
      assert u[..|u| - 1] == s + seq(n - 1, _ => '\0');
      StripAppendedNuls(s, n - 1);
    } else {
      assert s + seq(n, _ => '\0') == s;
    }
  }

  /** '\0' characters appended to a text do not change what it parses to. */
  lemma TrailingNulsIgnored(s: string, n: nat, min: int, max: int)
    ensures TryParseInteger(s + seq(n, _ => '\0'), min, max) == TryParseInteger(s, min, max)
  {
    StripAppendedNuls(s, n);
  }

  const Int32Min := -0x8000_0000
  const Int32Max := 0x7FFF_FFFF
  const Int64Min := -0x8000_0000_0000_0000
  const Int64Max := 0x7FFF_FFFF_FFFF_FFFF

  type Int32 = x: int | Int32Min <= x <= Int32Max

  /** Int32.ToString() of a non-negative number: decimal digits without leading zeros. */
  function NatToString(n: nat): (s: string)
    ensures IsDigits(s) && DigitsValue(s) == n
    ensures n < 10 <==> |s| == 1
  {
    if n < 10 then [DigitChar(n)]
    else
      var s := NatToString(n / 10) + [DigitChar(n % 10)];
      assert s[..|s| - 1] == NatToString(n / 10);
      s
  }

  /** Int32.ToString(): a '-' before the digits of a negative number. */
  function IntToString(v: int): string {
    if v < 0 then "-" + NatToString(-v) else NatToString(v)
  }

  lemma NoNumberWhiteStrip(s: string)
    requires |s| > 0 && !IsNumberWhite(s[0]) && !IsNumberWhite(s[|s| - 1])
    ensures StripNumberWhite(s) == s
  {
  }

  /** A digit string, with a leading '-' when `negative`. */
  function SignedText(negative: bool, digits: string): string {
    if negative then "-" + digits else digits
  }

  function SignedValue(negative: bool, digits: string): int
    requires AllDigits(digits)
  {
    if negative then 0 - DigitsValue(digits) else DigitsValue(digits)
  }

  /** A digit string with an optional '-' parses to its signed value exactly when that value is in range. */
  lemma ParseSignedDigits(negative: bool, digits: string, min: int, max: int)
    requires IsDigits(digits)
    ensures var v := SignedValue(negative, digits);
      TryParseInteger(SignedText(negative, digits), min, max) == if min <= v <= max then Some(v) else None
  {
    var t := SignedText(negative, digits);
    assert t[|t| - 1] == digits[|digits| - 1];
    assert StripTrailingNuls(t) == t;
    NoNumberWhiteStrip(t);
    if negative {
      assert t[1..] == digits;
    }
  }

  /** Formatting a number in range and parsing it back gives the number. */
  lemma {:induction false} ParseIntToString(v: int, min: int, max: int)
    requires min <= v <= max
    ensures TryParseInteger(IntToString(v), min, max) == Some(v)
  {
    if v < 0 {
      ParseSignedDigits(true, NatToString(-v), min, max);
    } else {
      ParseSignedDigits(false, NatToString(v), min, max);
    }
  }

  /** Adds leading '0's until the text is `width` characters long. */
  function PadZeros(s: string, width: nat): (r: string)
    ensures |r| == if |s| >= width then |s| else width
    ensures r == seq(|r| - |s|, _ => '0') + s
  {
    if |s| >= width then
      assert s == seq(0, _ => '0') + s;
      s
    else seq(width - |s|, _ => '0') + s
  }

  /** Leading zeros do not change the value of a digit string. */
  lemma {:induction false} LeadingZerosValue(z: nat, s: string)
    requires AllDigits(s)
    ensures AllDigits(seq(z, _ => '0') + s)
    ensures DigitsValue(seq(z, _ => '0') + s) == DigitsValue(s)
    decreases |s|
  {
    var zs: string := seq(z, _ => '0');
    if s == [] {
      assert zs + s == zs;
      AllZerosValue(z);
    } else {
      var t := zs + s;
      assert t[..|t| - 1] == zs + s[..|s| - 1];
      LeadingZerosValue(z, s[..|s| - 1]);
    }
  }

  lemma {:induction false} AllZerosValue(z: nat)
    ensures AllDigits(seq(z, _ => '0'))
    ensures DigitsValue(seq(z, _ => '0')) == 0
  {
    if z > 0 {
      var zs: string := seq(z, _ => '0');
      assert zs[..z - 1] == seq(z - 1, _ => '0');
      AllZerosValue(z - 1);
    }
  }

  /** The "D3" format: at least three digits, zero padded, '-' before a negative number. */
  function FormatD3(n: int): string {
    if n < 0 then "-" + PadZeros(NatToString(-n), 3) else PadZeros(NatToString(n), 3)
  }

  /** "D3" of a non-negative number is a digit string of at least three characters that reads back as the number. */
  lemma FormatD3Digits(n: nat)
    ensures IsDigits(FormatD3(n)) && DigitsValue(FormatD3(n)) == n
    ensures |FormatD3(n)| >= 3
    ensures n < 1000 ==> |FormatD3(n)| == 3
  {
    var s := NatToString(n);
    var r := PadZeros(s, 3);
    LeadingZerosValue(|r| - |s|, s);
    if n < 1000 {
      NatToStringShort(n);
    }
  }

  lemma {:induction false} NatToStringShort(n: nat)
    requires n < 1000
    ensures |NatToString(n)| <= 3
  {
    if n >= 10 {
      NatToStringShort(n / 10);
      if n / 10 >= 10 {
        assert n / 10 / 10 < 10;
      }
    }
  }

  /** Trimming twice trims nothing more. */
  lemma TrimIdempotent(s: string)
    ensures Trim(Trim(s)) == Trim(s)
  {
    var a := TrimStart(s);
    var r := TrimEnd(a);
    TrimStartParts(s);
    TrimEndParts(a);
    if r != [] {
      assert r[0] == a[0];
      TrimUnchanged(r);
    }
  }

  /** A text without characters above U+FFFF has one UTF-16 code unit per character. */
  lemma {:induction false} Utf16LengthBmp(s: string)
    requires forall i :: 0 <= i < |s| ==> s[i] as int < 0x1_0000
    ensures Utf16Length(s) == |s|
    decreases |s|
  {
    if s != [] {
      Utf16LengthBmp(s[..|s| - 1]);
    }
  }

  /** String.Length: the number of UTF-16 code units (characters above U+FFFF take two). */
  function Utf16Length(s: string): (n: nat)
    ensures |s| <= n <= 2 * |s|
  {
    if s == [] then 0
    else Utf16Length(s[..|s| - 1]) + (if s[|s| - 1] as int >= 0x1_0000 then 2 else 1)
  }
}
