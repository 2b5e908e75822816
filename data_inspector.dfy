/**
  DataInspector.DetecDataType: the first-match classifier that tags a payload
  as Empty, Integer, JSON, XML, String or Binary.

  The UTF-8 decoder and the JSON and XML parsers are library code; they are
  parameters of the model (a `Library` value). Lemmas that need concrete text
  assume only that the decoder maps ASCII bytes to the same characters.
*/
module Inspection {
  import opened Wrappers
  import opened Text

  type byte = x: int | 0 <= x < 256

  /** Encoding.UTF8.GetString, JsonDocument.Parse succeeding, XmlDocument.LoadXml succeeding. */
  datatype Library = Library(decodeUtf8: seq<byte> -> string, isJson: string -> bool, isXml: string -> bool)

  /** The six tags the classifier returns. */
  datatype Tag = Empty | Integer | Json | Xml | Text | Binary

  /** The tag strings the source returns and stores in the records. */
  function TagName(t: Tag): (name: string)
    ensures name in {"Empty", "Integer", "JSON", "XML", "String", "Binary"}
  {
    match t
    case Empty => "Empty"
    case Integer => "Integer"
    case Json => "JSON"
    case Xml => "XML"
    case Text => "String"
    case Binary => "Binary"
  }

  lemma TagNameInjective(t: Tag, u: Tag)
    ensures TagName(t) == TagName(u) <==> t == u
  {
  }

  function AsciiText(data: seq<byte>): (s: string)
    requires forall i :: 0 <= i < |data| ==> data[i] < 128
    ensures |s| == |data|
  {
    seq(|data|, i requires 0 <= i < |data| => data[i] as char)
  }

  function AsciiBytes(s: string): (data: seq<byte>)
    requires forall i :: 0 <= i < |s| ==> s[i] as int < 128
    ensures |data| == |s|
  {
    seq(|s|, i requires 0 <= i < |s| => s[i] as int)
  }

  /** Encoding ASCII text as bytes and reading it back gives the text. */
  lemma AsciiRoundTrip(s: string)
    requires forall i :: 0 <= i < |s| ==> s[i] as int < 128
    ensures AsciiText(AsciiBytes(s)) == s
  {
  }

  /** The decoder maps every ASCII-only byte sequence to the same characters, as UTF-8 does. */
  ghost predicate DecodesAscii(lib: Library) {
    forall data: seq<byte> | (forall i :: 0 <= i < |data| ==> data[i] < 128) ::
      lib.decodeUtf8(data) == AsciiText(data)
  }

  /** A byte the printability scan accepts: 32 or above, or tab, LF or CR. */
  predicate IsPrintable(b: byte): (r: bool)
    ensures b >= 0x80 ==> r
  {
    !(b < 32 && b != 9 && b != 10 && b != 13)
  }

  predicate AllPrintable(data: seq<byte>) {
    forall i :: 0 <= i < |data| ==> IsPrintable(data[i])
  }

  /** The trimmed text of a payload. */
  function TrimmedText(data: seq<byte>, lib: Library): string {
    Trim(lib.decodeUtf8(data))
  }

  predicate Wrapped(text: string, open: string, close: string) {
    StartsWith(text, open) && EndsWith(text, close)
  }

  predicate IsInt64Text(text: string) {
    TryParseInteger(text, Int64Min, Int64Max).Some?
  }

  /** The classification rule, checks in source order; a null array is `None`. */
  function Classify(data: Option<seq<byte>>, lib: Library): (r: Tag)
    ensures r == Empty <==> data.None? || |data.value| == 0
    ensures r == Text ==> data.Some? && AllPrintable(data.value)
    ensures r == Binary ==> data.Some? && !AllPrintable(data.value)
  {
    if data.None? || |data.value| == 0 then Empty
    else
      var text := TrimmedText(data.value, lib);
      if IsInt64Text(text) then Integer
      else if Wrapped(text, "{", "}") && lib.isJson(text) then Json
      else if Wrapped(text, "<", ">") && lib.isXml(text) then Xml
      else if AllPrintable(data.value) then Text
      else Binary
  }

  /** The source's printability loop: stops at the first unprintable byte. */
  method ScanPrintable(bytes: seq<byte>) returns (allPrintable: bool)
    ensures allPrintable <==> AllPrintable(bytes)
  {
    allPrintable := true;
    var i := 0;
    while i < |bytes|
      invariant 0 <= i <= |bytes|
      invariant allPrintable ==> forall j :: 0 <= j < i ==> IsPrintable(bytes[j])
      invariant !allPrintable ==> !AllPrintable(bytes)
    {
      if !IsPrintable(bytes[i]) {
        allPrintable := false;
        break;
      }
      i := i + 1;
    }
  }

  /** DetecDataType: the checks in source order, each returning its tag. */
  method DetectDataType(data: Option<seq<byte>>, lib: Library) returns (tag: string)
    ensures tag == TagName(Classify(data, lib))
  {
    if data.None? || |data.value| == 0 {
      return "Empty";
    }
    var bytes := data.value;
    var text := Trim(lib.decodeUtf8(bytes));
    if TryParseInteger(text, Int64Min, Int64Max).Some? {
      return "Integer";
    }
    if StartsWith(text, "{") && EndsWith(text, "}") {
      if lib.isJson(text) {
        return "JSON";
      }
    }
    if StartsWith(text, "<") && EndsWith(text, ">") {
      if lib.isXml(text) {
        return "XML";
      }
    }
    var allPrintable := ScanPrintable(bytes);
    if allPrintable {
      return "String";
    }
    return "Binary";
  }

  // ---------------------------------------------------------------------------
  // Properties of the classification

  /** Empty exactly for a null or zero-length payload. */
  lemma EmptyIff(data: Option<seq<byte>>, lib: Library)
    ensures Classify(data, lib) == Empty <==> data.None? || |data.value| == 0
  {
  }

  /** Integer exactly when the trimmed text is a 64-bit integer; this is decided before any JSON or XML parse. */
  lemma IntegerIff(data: seq<byte>, lib: Library)
    requires |data| > 0
    ensures Classify(Some(data), lib) == Integer <==> IsInt64Text(TrimmedText(data, lib))
  {
  }

  /** Text whose first character is neither white space, a sign nor a digit never parses as an integer. */
  lemma {:induction false} NotIntegerByFirst(text: string)
    requires |text| > 0 && !IsNumberWhite(text[0]) && !IsDigit(text[0]) && text[0] != '-' && text[0] != '+'
    ensures !IsInt64Text(text)
  {
    var u := StripTrailingNuls(text);
    if u != [] {
      assert u[0] == text[0];
      StripKeepsFirst(u);
    }
  }

  /** Stripping number white space from text that does not begin with it keeps the first character. */
  lemma {:induction false} StripKeepsFirst(s: string)
    requires |s| > 0 && !IsNumberWhite(s[0])
    ensures |StripNumberWhite(s)| > 0 && StripNumberWhite(s)[0] == s[0]
    decreases |s|
  {
    if IsNumberWhite(s[|s| - 1]) {
      assert |s| > 1;
      StripKeepsFirst(s[..|s| - 1]);
    }
  }

  /** JSON exactly when the trimmed text is wrapped in braces and parses; a failed parse falls through. */
  lemma JsonIff(data: seq<byte>, lib: Library)
    requires |data| > 0
    ensures var text := TrimmedText(data, lib);
      Classify(Some(data), lib) == Json <==> Wrapped(text, "{", "}") && lib.isJson(text)
  {
    var text := TrimmedText(data, lib);
    if Wrapped(text, "{", "}") {
      assert text[0] == "{"[0];
      NotIntegerByFirst(text);
    }
  }

  /** XML exactly when the trimmed text is wrapped in angle brackets and parses; a failed parse falls through. */
  lemma XmlIff(data: seq<byte>, lib: Library)
    requires |data| > 0
    ensures var text := TrimmedText(data, lib);
      Classify(Some(data), lib) == Xml <==> Wrapped(text, "<", ">") && lib.isXml(text)
  {
    var text := TrimmedText(data, lib);
    if Wrapped(text, "<", ">") {
      assert text[0] == "<"[0];
      NotIntegerByFirst(text);
    }
  }

  /** Text wrapped in braces that the JSON parser rejects ends as String or Binary, by the raw bytes. */
  lemma FailedJsonFallsThrough(data: seq<byte>, lib: Library)
    requires |data| > 0
    requires Wrapped(TrimmedText(data, lib), "{", "}") && !lib.isJson(TrimmedText(data, lib))
    ensures Classify(Some(data), lib) == if AllPrintable(data) then Text else Binary
  {
    var text := TrimmedText(data, lib);
    assert text[0] == "{"[0];
    NotIntegerByFirst(text);
  }

  /**
    String exactly when no earlier rule matched and every raw byte is
    printable; Binary when no earlier rule matched and some byte is not.
  */
  lemma TextOrBinary(data: seq<byte>, lib: Library)
    requires |data| > 0
    ensures var text := TrimmedText(data, lib);
      var fallsThrough := !IsInt64Text(text) && !(Wrapped(text, "{", "}") && lib.isJson(text))
        && !(Wrapped(text, "<", ">") && lib.isXml(text));
      && (Classify(Some(data), lib) == Text <==> fallsThrough && AllPrintable(data))
      && (Classify(Some(data), lib) == Binary <==> fallsThrough && exists i :: 0 <= i < |data| && !IsPrintable(data[i]))
  {
  }

  /** Data whose trimmed text is no number and starts with neither brace nor bracket, and whose first byte is unprintable, is Binary. */
  lemma BinaryByFirstByte(data: seq<byte>, lib: Library)
    requires |data| > 0 && !IsPrintable(data[0])
    requires !IsInt64Text(TrimmedText(data, lib))
    requires !StartsWith(TrimmedText(data, lib), "{") && !StartsWith(TrimmedText(data, lib), "<")
    ensures Classify(Some(data), lib) == Binary
  {
  }

  /** Data whose trimmed text is no number and starts with neither brace nor bracket, and whose bytes are all printable, is a String. */
  lemma TextWhenPrintable(data: seq<byte>, lib: Library)
    requires |data| > 0 && AllPrintable(data)
    requires !IsInt64Text(TrimmedText(data, lib))
    requires !StartsWith(TrimmedText(data, lib), "{") && !StartsWith(TrimmedText(data, lib), "<")
    ensures Classify(Some(data), lib) == Text
  {
  }

  /** A non-empty payload of only space, tab, LF and CR is a String. */
  lemma WhiteSpaceIsText(data: seq<byte>, lib: Library)
    requires DecodesAscii(lib)
    requires |data| > 0 && forall i :: 0 <= i < |data| ==> data[i] in {9, 10, 13, 32}
    ensures Classify(Some(data), lib) == Text
  {
    var s := AsciiText(data);
    assert lib.decodeUtf8(data) == s;
    assert IsBlank(s) by {
      forall i | 0 <= i < |s| ensures IsWhiteSpace(s[i]) {
        assert data[i] in {9, 10, 13, 32};
      }
    }
    TrimEmptyIffBlank(s);
  }

  predicate IsDigitBytes(digits: seq<byte>) {
    |digits| > 0 && forall i :: 0 <= i < |digits| ==> 48 <= digits[i] <= 57
  }

  /** The decimal value of ASCII digit bytes. */
  function DigitBytesValue(digits: seq<byte>): nat
    requires IsDigitBytes(digits)
  {
    DigitsValue(AsciiText(digits))
  }

  lemma AsciiDigitsText(digits: seq<byte>)
    requires IsDigitBytes(digits)
    ensures IsDigits(AsciiText(digits))
  {
    var d := AsciiText(digits);
    forall i | 0 <= i < |d| ensures IsDigit(d[i]) {
      assert 48 <= digits[i] <= 57;
    }
  }

  lemma AsciiTextSigned(negative: bool, digits: seq<byte>)
    requires IsDigitBytes(digits)
    ensures var data: seq<byte> := if negative then [45] + digits else digits;
      AsciiText(data) == SignedText(negative, AsciiText(digits))
  {
    if negative {
      var data: seq<byte> := [45] + digits;
      var t := SignedText(negative, AsciiText(digits));
      forall i | 0 <= i < |data| ensures AsciiText(data)[i] == t[i] {
        if i > 0 {
          assert data[i] == digits[i - 1];
        }
      }
    }
  }

  /** The trimmed text of an optionally negated run of ASCII digits is that text itself. */
  lemma SignedDigitsText(negative: bool, digits: seq<byte>, lib: Library)
    requires DecodesAscii(lib) && IsDigitBytes(digits)
    ensures IsDigits(AsciiText(digits))
    ensures TrimmedText(if negative then [45] + digits else digits, lib) == SignedText(negative, AsciiText(digits))
  {
    var data: seq<byte> := if negative then [45] + digits else digits;
    var d := AsciiText(digits);
    AsciiDigitsText(digits);
    SignedDecodes(negative, digits, lib);
    SignedTextTrimmed(negative, d);
  }

  lemma SignedDecodes(negative: bool, digits: seq<byte>, lib: Library)
    requires DecodesAscii(lib) && IsDigitBytes(digits)
    ensures lib.decodeUtf8(if negative then [45] + digits else digits) == SignedText(negative, AsciiText(digits))
  {
    var data: seq<byte> := if negative then [45] + digits else digits;
    AsciiTextSigned(negative, digits);
    assert forall i :: 0 <= i < |data| ==> data[i] < 128;
  }

  lemma SignedTextTrimmed(negative: bool, d: string)
    requires IsDigits(d)
    ensures Trim(SignedText(negative, d)) == SignedText(negative, d)
  {
    var t := SignedText(negative, d);
    assert t[|t| - 1] == d[|d| - 1];
    assert t[0] == '-' || IsDigit(t[0]);
    TrimUnchanged(t);
  }

  /**
    ASCII digits, optionally after a '-', whose value fits in 64 bits are an
    Integer, also when NUL bytes follow them (long.TryParse accepts trailing
    '\0' characters, and Trim does not remove them).
  */
  lemma DigitsAreInteger(negative: bool, digits: seq<byte>, nuls: nat, lib: Library)
    requires DecodesAscii(lib) && IsDigitBytes(digits)
    requires DigitBytesValue(digits) <= if negative then -Int64Min else Int64Max
    ensures Classify(Some((if negative then [45] + digits else digits) + seq(nuls, _ => 0)), lib) == Integer
  {
    var signed: seq<byte> := if negative then [45] + digits else digits;
    var data := signed + seq(nuls, _ => 0);
    var d := AsciiText(digits);
    var t := SignedText(negative, d);
    var u := t + seq(nuls, _ => '\0');
    assert TrimmedText(data, lib) == u by {
      SignedDigitsText(negative, digits, lib);
      SignedDecodes(negative, digits, lib);
      NulsDecode(signed, nuls, lib);
      assert t[0] == '-' || IsDigit(t[0]);
      assert u[0] == t[0];
      assert u[|u| - 1] == if nuls > 0 then '\0' else d[|d| - 1];
      TrimUnchanged(u);
    }
    assert IsInt64Text(u) by {
      SignedDigitsText(negative, digits, lib);
      TrailingNulsIgnored(t, nuls, Int64Min, Int64Max);
      ParseSignedDigits(negative, d, Int64Min, Int64Max);
    }
  }

  /** An ASCII decoder turns NUL bytes after ASCII text into '\0' characters after its text. */
  lemma NulsDecode(data: seq<byte>, nuls: nat, lib: Library)
    requires DecodesAscii(lib) && forall i :: 0 <= i < |data| ==> data[i] < 128
    ensures lib.decodeUtf8(data + seq(nuls, _ => 0)) == lib.decodeUtf8(data) + seq(nuls, _ => '\0')
  {
    var all := data + seq(nuls, _ => 0);
    assert forall i :: 0 <= i < |all| ==> all[i] < 128;
    assert lib.decodeUtf8(all) == AsciiText(all);
    assert lib.decodeUtf8(data) == AsciiText(data);
    forall i | 0 <= i < |all| ensures AsciiText(all)[i] == (AsciiText(data) + seq(nuls, _ => '\0'))[i] {
      if i < |data| {
        assert all[i] == data[i];
      }
    }
  }

  /** The bytes of "5" followed by a NUL terminator are an Integer. */
  lemma NulTerminatedDigitIsInteger(lib: Library)
    requires DecodesAscii(lib)
    ensures Classify(Some([0x35, 0x00]), lib) == Integer
  {
    var digits: seq<byte> := [0x35];
    assert DigitBytesValue(digits) == 5 by {
      assert AsciiText(digits) == "5" && "5"[..0] == "";
    }
    DigitsAreInteger(false, digits, 1, lib);
    assert digits + seq(1, _ => 0) == [0x35, 0x00];
  }

  /**
    A digit string whose value exceeds 64 bits is not an Integer: it is a
    String (the claim that every digit string is an Integer does not hold).
  */
  lemma LongDigitsAreText(digits: seq<byte>, lib: Library)
    requires DecodesAscii(lib) && IsDigitBytes(digits)
    requires DigitBytesValue(digits) > Int64Max
    ensures Classify(Some(digits), lib) == Text
  {
    var t := AsciiText(digits);
    assert TrimmedText(digits, lib) == t && !IsInt64Text(t) by {
      SignedDigitsText(false, digits, lib);
      ParseSignedDigits(false, t, Int64Min, Int64Max);
    }
    assert !StartsWith(t, "{") && !StartsWith(t, "<") by {
      assert t[..1][0] == t[0] && IsDigit(t[0]);
    }
    assert AllPrintable(digits);
    TextWhenPrintable(digits, lib);
  }

  /** Twenty nines: as digits they read above Int64.MaxValue, so the payload is a String. */
  lemma TwentyNinesAreText(lib: Library)
    requires DecodesAscii(lib)
    ensures Classify(Some(seq(20, _ => 57)), lib) == Text
  {
    var digits: seq<byte> := seq(20, _ => 57);
    NinesValue(20);
    assert Power10(5) == 100_000;
    Power10Add(5, 5);
    Power10Add(10, 10);
    LongDigitsAreText(digits, lib);
  }

  lemma {:induction false} NinesValue(n: nat)
    ensures IsDigitBytes(seq(n, _ => 57)) || n == 0
    ensures n > 0 ==> DigitBytesValue(seq(n, _ => 57)) + 1 == Power10(n)
  {
    if n > 0 {
      var d: seq<byte> := seq(n, _ => 57);
      var t := AsciiText(d);
      assert t[n - 1] == '9';
      assert DigitsValue(t) == 10 * DigitsValue(t[..n - 1]) + 9;
      if n == 1 {
        assert t[..0] == [];
      } else {
        assert t[..n - 1] == AsciiText(seq(n - 1, _ => 57));
        NinesValue(n - 1);
      }
    }
  }

  function Power10(n: nat): nat {
    if n == 0 then 1 else 10 * Power10(n - 1)
  }

  lemma {:induction false} Power10Add(a: nat, b: nat)
    ensures Power10(a + b) == Power10(a) * Power10(b)
  {
    if a > 0 {
      Power10Add(a - 1, b);
    }
  }

  /** Printable ASCII text: every character from space to '~'. */
  predicate IsPrintableAscii(s: string) {
    forall i :: 0 <= i < |s| ==> ' ' <= s[i] <= '~'
  }

  lemma PrintableAsciiBytes(s: string)
    requires IsPrintableAscii(s)
    ensures AllPrintable(AsciiBytes(s))
  {
    var data := AsciiBytes(s);
    forall i | 0 <= i < |data| ensures IsPrintable(data[i]) {
      assert data[i] == s[i] as int;
    }
  }

  /** A printable payload whose trimmed text is in braces is JSON if the parser accepts the text, else a String. */
  lemma BracedPayload(data: seq<byte>, lib: Library)
    requires |data| > 0 && AllPrintable(data)
    requires Wrapped(TrimmedText(data, lib), "{", "}")
    ensures Classify(Some(data), lib) == if lib.isJson(TrimmedText(data, lib)) then Json else Text
  {
    var text := TrimmedText(data, lib);
    assert text[0] == "{"[0];
    NotIntegerByFirst(text);
  }

  /** A payload whose trimmed text is in angle brackets and parses as XML is XML. */
  lemma AngledPayload(data: seq<byte>, lib: Library)
    requires |data| > 0
    requires Wrapped(TrimmedText(data, lib), "<", ">") && lib.isXml(TrimmedText(data, lib))
    ensures Classify(Some(data), lib) == Xml
  {
    XmlIff(data, lib);
  }

  /** The bytes of printable ASCII text without surrounding spaces decode and trim back to the text. */
  lemma PrintableExample(s: string, lib: Library)
    requires DecodesAscii(lib) && IsPrintableAscii(s)
    requires |s| > 0 && s[0] != ' ' && s[|s| - 1] != ' '
    ensures TrimmedText(AsciiBytes(s), lib) == s && AllPrintable(AsciiBytes(s))
  {
    ExampleText(s, lib);
    PrintableAsciiBytes(s);
  }

  /** Printable ASCII text in braces that the parser accepts is JSON, and one it rejects is a String. */
  lemma BracedText(s: string, lib: Library)
    requires DecodesAscii(lib) && IsPrintableAscii(s)
    requires |s| >= 2 && s[0] == '{' && s[|s| - 1] == '}'
    ensures Classify(Some(AsciiBytes(s)), lib) == if lib.isJson(s) then Json else Text
  {
    PrintableExample(s, lib);
    assert Wrapped(s, "{", "}");
    BracedPayload(AsciiBytes(s), lib);
  }

  /** Printable ASCII text in angle brackets that the parser accepts is XML. */
  lemma AngledText(s: string, lib: Library)
    requires DecodesAscii(lib) && IsPrintableAscii(s)
    requires |s| >= 2 && s[0] == '<' && s[|s| - 1] == '>' && lib.isXml(s)
    ensures Classify(Some(AsciiBytes(s)), lib) == Xml
  {
    PrintableExample(s, lib);
    assert Wrapped(s, "<", ">");
    AngledPayload(AsciiBytes(s), lib);
  }

  /** A JSON object that the parser accepts is JSON. */
  lemma JsonExample(lib: Library)
    requires DecodesAscii(lib) && lib.isJson("{\"a\":1}")
    ensures Classify(Some(AsciiBytes("{\"a\":1}")), lib) == Json
  {
    BracedText("{\"a\":1}", lib);
  }

  /** Brace text that the parser rejects falls through to String. */
  lemma RejectedJsonExample(lib: Library)
    requires DecodesAscii(lib) && !lib.isJson("{not json}")
    ensures Classify(Some(AsciiBytes("{not json}")), lib) == Text
  {
    BracedText("{not json}", lib);
  }

  /** An XML element that the parser accepts is XML. */
  lemma XmlExample(lib: Library)
    requires DecodesAscii(lib) && lib.isXml("<a>1</a>")
    ensures Classify(Some(AsciiBytes("<a>1</a>")), lib) == Xml
  {
    AngledText("<a>1</a>", lib);
  }

  /** Control bytes are Binary. */
  lemma BinaryExample(lib: Library)
    requires DecodesAscii(lib)
    ensures Classify(Some([0, 1, 2]), lib) == Binary
  {
    var control: seq<byte> := [0, 1, 2];
    var c := AsciiText(control);
    assert TrimmedText(control, lib) == c && c[0] == '\0' by {
      assert c == ['\0', '\U{1}', '\U{2}'];
      assert lib.decodeUtf8(control) == c;
      TrimUnchanged(c);
    }
    assert !IsInt64Text(c) by {
      NotIntegerByFirst(c);
    }
    assert !StartsWith(c, "{") && !StartsWith(c, "<") by {
      assert c[..1][0] == '\0';
    }
    assert !IsPrintable(control[0]);
    BinaryByFirstByte(control, lib);
  }

  /** The trimmed text of an example without surrounding white space is the example. */
  lemma ExampleText(s: string, lib: Library)
    requires DecodesAscii(lib) && IsPrintableAscii(s)
    requires |s| > 0 && s[0] != ' ' && s[|s| - 1] != ' '
    ensures TrimmedText(AsciiBytes(s), lib) == s
  {
    AsciiRoundTrip(s);
    TrimUnchanged(s);
  }
}
