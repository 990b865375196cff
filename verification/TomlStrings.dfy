/**
 String values of a policy file: the JSON encoding the editor writes (`encoding/json`) and
 the single-line TOML strings and arrays a policy is read with.

 The editor writes JSON and reads TOML, so an edit is faithful exactly for the values whose
 JSON encoding is a TOML string of the same bytes; `WriteReadExact` says which those are.
 */
module TomlStrings {
  import opened Basics
  import opened Utf8

  const Replacement: string := [0xEF as char, 0xBF as char, 0xBD as char]

  // ----- json.Marshal of a string -----

  function JsonShort(code: nat): Option<char> {
    if code == 0x22 || code == 0x5C then Some(code as char)
    else if code == 8 then Some('b')
    else if code == 12 then Some('f')
    else if code == 10 then Some('n')
    else if code == 13 then Some('r')
    else if code == 9 then Some('t')
    else None
  }

  predicate JsonHex(code: nat) {
    code < 0x20 || code == 0x3C || code == 0x3E || code == 0x26 || code == 0x2028 || code == 0x2029
  }

  /** What the first rune is written as, and how many bytes it takes. */
  function JsonPiece(s: string): (p: (string, nat))
    requires s != ""
    ensures 1 <= p.1 <= |s|
  {
    match DecodeFirst(s)
    case Malformed => ("\\ufffd", 1)
    case Scalar(code, w) =>
      DecodedWidth(s);
      if JsonShort(code).Some? then ("\\" + [JsonShort(code).value], w)
      else if JsonHex(code) then ("\\u" + Hex4(code), w)
      else (s[..w], w)
  }

  function JsonBody(s: string): string {
    if s == "" then "" else JsonPiece(s).0 + JsonBody(s[JsonPiece(s).1..])
  }

  function JsonString(s: string): string { "\"" + JsonBody(s) + "\"" }

  function JsonItems(argv: seq<string>): string
    requires argv != []
  {
    if |argv| == 1 then JsonString(argv[0]) else JsonString(argv[0]) + "," + JsonItems(argv[1..])
  }

  /** json.Marshal of a non-empty []string. */
  function JsonArray(argv: seq<string>): string
    requires argv != []
  {
    "[" + JsonItems(argv) + "]"
  }

  // ----- TOML strings on one line -----

  predicate PlainToml(c: char) {
    c == '\t' || (c as int >= 0x20 && c as int != 0x7F)
  }

  function TomlShort(c: char): Option<char> {
    if c == '"' || c == '\\' then Some(c)
    else if c == 'b' then Some(8 as char)
    else if c == 'f' then Some(12 as char)
    else if c == 'n' then Some('\n')
    else if c == 'r' then Some('\r')
    else if c == 't' then Some('\t')
    else None
  }

  predicate ScalarValue(n: nat) { n <= 0x10FFFF && !(0xD800 <= n < 0xE000) }

  /** A basic string, from after its opening quote: its value and what follows it. */
  function ReadBasic(t: string): Option<(string, string)> {
    if t == "" then None
    else if t[0] == '"' then Some(("", t[1..]))
    else if t[0] != '\\' then (if PlainToml(t[0]) then Prepend([t[0]], ReadBasic(t[1..])) else None)
    else if |t| >= 6 && t[1] == 'u' && IsHex(t[2..6]) && ScalarValue(Value4(t[2..6])) then
      Prepend(Encode(Value4(t[2..6])), ReadBasic(t[6..]))
    else if |t| >= 10 && t[1] == 'U' && IsHex(t[2..10]) && ScalarValue(Value8(t[2..10])) then
      Prepend(Encode(Value8(t[2..10])), ReadBasic(t[10..]))
    else if |t| >= 2 && TomlShort(t[1]).Some? then Prepend([TomlShort(t[1]).value], ReadBasic(t[2..]))
    else None
  }

  /** A literal string, from after its opening quote. */
  function ReadLiteral(t: string): Option<(string, string)> {
    if t == "" then None
    else if t[0] == '\'' then Some(("", t[1..]))
    else if PlainToml(t[0]) then Prepend([t[0]], ReadLiteral(t[1..]))
    else None
  }

  function ReadString(t: string): Option<(string, string)> {
    if t == "" then None
    else if t[0] == '"' then ReadBasic(t[1..])
    else if t[0] == '\'' then ReadLiteral(t[1..])
    else None
  }

  function SkipBlanks(t: string): (r: string)
    ensures |r| <= |t|
  {
    if t != "" && (t[0] == ' ' || t[0] == '\t') then SkipBlanks(t[1..]) else t
  }

  lemma {:induction false} ReadStringShorter(t: string)
    ensures ReadString(t).Some? ==> |ReadString(t).value.1| < |t|
  {
    if t != "" {
      ReadBasicShorter(t[1..]);
      ReadLiteralShorter(t[1..]);
    }
  }

  lemma ReadBasicShorter(t: string)
    ensures ReadBasic(t).Some? ==> |ReadBasic(t).value.1| < |t|
  {
  }

  lemma ReadLiteralShorter(t: string)
    ensures ReadLiteral(t).Some? ==> |ReadLiteral(t).value.1| < |t|
  {
  }

  /** The elements of an array up to its closing bracket. */
  function ReadItems(t: string): Option<(seq<string>, string)>
    decreases |t|
  {
    match ReadString(SkipBlanks(t))
    case None => None
    case Some((item, rest)) =>
      ReadStringShorter(SkipBlanks(t));
      var next := SkipBlanks(rest);
      if next == "" then None
      else if next[0] == ']' then Some(([item], next[1..]))
      else if next[0] == ',' then
        match ReadItems(next[1..])
        case None => None
        case Some((items, after)) => Some(([item] + items, after))
      else None
  }

  function ReadArray(t: string): Option<(seq<string>, string)> {
    if t != "" && t[0] == '[' then ReadItems(t[1..]) else None
  }

  // ----- Writing JSON and reading TOML -----

  /** The string with every malformed byte replaced by U+FFFD. */
  function Sanitized(s: string): string {
    if s == "" then ""
    else match DecodeFirst(s)
      case Malformed => Replacement + Sanitized(s[1..])
      case Scalar(_, w) => DecodedWidth(s); s[..w] + Sanitized(s[w..])
  }

  predicate HasDel(s: string) { 0x7F as char in s }

  lemma ReadHex4(n: nat, t: string)
    requires n < 0x10000 && ScalarValue(n)
    ensures ReadBasic("\\u" + Hex4(n) + t) == Prepend(Encode(n), ReadBasic(t))
  {
    var h := Hex4(n);
    var whole := "\\u" + h + t;
    assert whole[2..6] == h;
    assert whole[6..] == t;
  }

  lemma ReadShort(c: char, t: string)
    requires TomlShort(c).Some?
    ensures ReadBasic("\\" + [c] + t) == Prepend([TomlShort(c).value], ReadBasic(t))
  {
    assert c != 'u' && c != 'U';
    var whole := "\\" + [c] + t;
    assert |whole| == 2 + |t| && whole[0] == '\\' && whole[1] == c;
    assert whole[2..] == t;
  }

  lemma {:induction false} ReadPlain(raw: string, t: string)
    requires forall i :: 0 <= i < |raw| ==> raw[i] != '"' && raw[i] != '\\' && PlainToml(raw[i])
    ensures ReadBasic(raw + t) == Prepend(raw, ReadBasic(t))
  {
    if raw == "" {
      assert raw + t == t;
      if ReadBasic(t).Some? { assert raw + ReadBasic(t).value.0 == ReadBasic(t).value.0; }
    } else {
      ReadPlain(raw[1..], t);
      assert (raw + t)[1..] == raw[1..] + t;
      match ReadBasic(t)
      case None =>
      case Some((value, rest)) => assert [raw[0]] + (raw[1..] + value) == raw + value;
    }
  }

  lemma Replaced()
    ensures Encode(0xFFFD) == Replacement
    ensures Value4("fffd") == 0xFFFD && Hex4(0xFFFD) == "fffd"
  {
    assert Value2("ff") == 0xFF && Value2("fd") == 0xFD;
    assert "fffd"[..2] == "ff" && "fffd"[2..] == "fd";
    assert Hex2(0xFF) == "ff" && Hex2(0xFD) == "fd";
  }

  /** The bytes a piece stands for once read as TOML. */
  function PieceValue(s: string): string
    requires s != ""
  {
    if DecodeFirst(s).Malformed? then Replacement else s[..JsonPiece(s).1]
  }

  lemma ReadPiece(s: string, t: string)
    requires s != "" && s[0] as int != 0x7F
    ensures ReadBasic(JsonPiece(s).0 + t) == Prepend(PieceValue(s), ReadBasic(t))
  {
    match DecodeFirst(s)
    case Malformed =>
      Replaced();
      ReadHex4(0xFFFD, t);
      assert "\\u" + "fffd" == "\\ufffd";
    case Scalar(code, w) =>
      DecodedWidth(s);
      EncodeDecoded(s);
      if JsonShort(code).Some? {
        ReadShort(JsonShort(code).value, t);
      } else if JsonHex(code) {
        ReadHex4(code, t);
      } else {
        if code >= 0x80 { WideBytes(s); } else { assert s[..1] == [s[0]]; }
        ReadPlain(s[..w], t);
      }
  }

  lemma ReadClose(rest: string)
    ensures ReadBasic("" + ("\"" + rest)) == Some(("", rest))
  {
    var close := "\"" + rest;
    assert "" + close == close;
    assert close[1..] == rest;
  }

  /** Reading a written string, closing quote included, gives its sanitized bytes. */
  lemma {:induction false} ReadWritten(s: string, rest: string)
    requires !HasDel(s)
    ensures ReadBasic(JsonBody(s) + ("\"" + rest)) == Some((Sanitized(s), rest))
    decreases |s|
  {
    if s == "" {
      ReadClose(rest);
    } else {
      hide ReadBasic, DecodeFirst;
      var w := JsonPiece(s).1;
      var body, close := JsonBody(s[w..]), "\"" + rest;
      ReadWritten(s[w..], rest);
      ReadPiece(s, body + close);
      Regroup(JsonPiece(s).0, body, close);
    }
  }

  /** A DEL byte is written raw by JSON and refused by TOML. */
  lemma {:induction false} ReadWrittenDel(s: string, rest: string)
    requires HasDel(s)
    ensures ReadBasic(JsonBody(s) + ("\"" + rest)) == None
    decreases |s|
  {
    var w := JsonPiece(s).1;
    var body, close := JsonBody(s[w..]), "\"" + rest;
    Regroup(JsonPiece(s).0, body, close);
    if s[0] as int == 0x7F {
      assert JsonPiece(s) == (s[..1], 1);
      var t := s[..1] + (body + close);
      assert t[0] == s[0];
    } else {
      DelAfterPiece(s);
      hide ReadBasic, DecodeFirst;
      ReadWrittenDel(s[w..], rest);
      ReadPiece(s, body + close);
    }
  }

  lemma DelAfterPiece(s: string)
    requires s != "" && s[0] as int != 0x7F && HasDel(s)
    ensures HasDel(s[JsonPiece(s).1..])
  {
    var w := JsonPiece(s).1;
    var i :| 0 <= i < |s| && s[i] == 0x7F as char;
    if DecodeFirst(s).Scalar? && DecodeFirst(s).code >= 0x80 {
      WideBytes(s);
    } else if DecodeFirst(s).Scalar? {
      DecodedWidth(s);
    }
    assert i >= w;
    assert s[w..][i - w] == 0x7F as char;
  }

  lemma {:induction false} SanitizedLength(s: string)
    ensures |Sanitized(s)| >= |s|
    ensures ValidUtf8(s) ==> Sanitized(s) == s
    ensures !ValidUtf8(s) ==> |Sanitized(s)| > |s|
    decreases |s|
  {
    if s != "" {
      match DecodeFirst(s)
      case Malformed => SanitizedLength(s[1..]);
      case Scalar(_, w) =>
        DecodedWidth(s);
        hide DecodeFirst;
        SanitizedLength(s[w..]);
        assert s[..w] + s[w..] == s;
    }
  }

  /** Values the editor can write faithfully. */
  predicate Writable(s: string) { ValidUtf8(s) && !HasDel(s) }

  lemma ReadStringBasic(body: string, rest: string)
    ensures ReadString("\"" + body + "\"" + rest) == ReadBasic(body + ("\"" + rest))
  {
    var t := "\"" + body + "\"" + rest;
    assert t[1..] == body + ("\"" + rest);
  }

  /**
   Exactly the valid UTF-8 strings without DEL survive: what the editor writes as JSON is
   read back as TOML unchanged if and only if the value is one of those.
   */
  lemma WriteReadExact(s: string, rest: string)
    ensures ReadString(JsonString(s) + rest) == Some((s, rest)) <==> Writable(s)
  {
    ReadStringBasic(JsonBody(s), rest);
    SanitizedLength(s);
    if HasDel(s) {
      ReadWrittenDel(s, rest);
    } else {
      ReadWritten(s, rest);
    }
  }

  lemma {:induction false} ReadItemsWritten(argv: seq<string>, rest: string)
    requires argv != [] && forall i :: 0 <= i < |argv| ==> Writable(argv[i])
    ensures ReadItems(JsonItems(argv) + "]" + rest) == Some((argv, rest))
  {
    hide ReadString, JsonBody;
    var item := JsonString(argv[0]);
    if |argv| == 1 {
      var t := item + "]" + rest;
      Regroup(item, "]", rest);
      WriteReadExact(argv[0], "]" + rest);
      assert SkipBlanks(t) == t;
      assert ("]" + rest)[1..] == rest;
      assert argv == [argv[0]];
    } else {
      var more := JsonItems(argv[1..]) + "]" + rest;
      ItemsGrouping(item, JsonItems(argv[1..]), rest);
      WriteReadExact(argv[0], "," + more);
      ReadItemsWritten(argv[1..], rest);
      ReadItemsStep(item + ("," + more), argv[0], more, argv[1..], rest);
      assert argv == [argv[0]] + argv[1..];
    }
  }

  lemma ItemsGrouping(a: string, b: string, rest: string)
    ensures a + "," + b + "]" + rest == a + ("," + (b + "]" + rest))
  {
  }

  lemma ReadItemsStep(t: string, item: string, more: string, items: seq<string>, rest: string)
    requires t != "" && t[0] == '"'
    requires ReadString(t) == Some((item, "," + more))
    requires ReadItems(more) == Some((items, rest))
    ensures ReadItems(t) == Some(([item] + items, rest))
  {
    hide ReadString;
    assert SkipBlanks(t) == t;
    var next := "," + more;
    assert SkipBlanks(next) == next;
    assert next[1..] == more;
  }

  /** An argument list of writable strings is read back unchanged. */
  lemma ArrayRoundTrip(argv: seq<string>, rest: string)
    requires argv != [] && forall i :: 0 <= i < |argv| ==> Writable(argv[i])
    ensures ReadArray(JsonArray(argv) + rest) == Some((argv, rest))
  {
    var t := JsonArray(argv) + rest;
    assert t[1..] == JsonItems(argv) + "]" + rest;
    ReadItemsWritten(argv, rest);
  }

  /** An escape of a surrogate stands for no character. */
  lemma NoSurrogates(n: nat, t: string)
    requires 0xD800 <= n < 0xE000
    ensures ReadBasic("\\u" + Hex4(n) + t) == None && ReadBasic("\\U0000" + Hex4(n) + t) == None
  {
    var whole, wide := "\\u" + Hex4(n) + t, "\\U0000" + Hex4(n) + t;
    assert whole[2..6] == Hex4(n);
    assert wide[2..10] == "0000" + Hex4(n);
  }
}
