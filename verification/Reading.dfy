/**
 How single lines are read: the lines the editor writes mean what it intends, and a field
 line whose value is replaced keeps its key.
 */
module Reading {
  import opened Basics
  import opened Utf8
  import opened Text
  import opened TomlStrings
  import opened Layout

  // ----- Blanks and keys -----

  predicate IsBlank(c: char) { c == ' ' || c == '\t' }
  predicate AllBlank(s: string) { forall i :: 0 <= i < |s| ==> IsBlank(s[i]) }
  predicate AllKey(s: string) { forall i :: 0 <= i < |s| ==> KeyChar(s[i]) }
  predicate Unblank(t: string) { t == "" || !IsBlank(t[0]) }
  predicate Unkey(t: string) { t == "" || !KeyChar(t[0]) }

  lemma {:induction false} BlanksOf(x: string, t: string)
    requires AllBlank(x) && Unblank(t)
    ensures SkipBlanks(x + t) == t
  {
    if x == "" { assert x + t == t; } else { assert (x + t)[1..] == x[1..] + t; BlanksOf(x[1..], t); }
  }

  lemma {:induction false} BlanksSplit(t: string) returns (x: string)
    ensures AllBlank(x) && Unblank(SkipBlanks(t)) && t == x + SkipBlanks(t)
  {
    if t != "" && IsBlank(t[0]) {
      var y := BlanksSplit(t[1..]);
      x := [t[0]] + y;
      assert t == [t[0]] + t[1..];
      assert [t[0]] + (y + SkipBlanks(t[1..])) == x + SkipBlanks(t[1..]);
    } else {
      x := "";
      assert "" + t == t;
    }
  }

  lemma {:induction false} KeyLengthOf(k: string, t: string)
    requires AllKey(k) && Unkey(t)
    ensures KeyLength(k + t) == |k|
  {
    if k == "" { assert k + t == t; } else { assert (k + t)[1..] == k[1..] + t; KeyLengthOf(k[1..], t); }
  }

  lemma {:induction false} KeyLengthSplit(t: string)
    ensures AllKey(t[..KeyLength(t)])
  {
    if t != "" && KeyChar(t[0]) {
      KeyLengthSplit(t[1..]);
      assert t[..KeyLength(t)] == [t[0]] + t[1..][..KeyLength(t[1..])];
    }
  }

  /** `blanks key blanks = blanks rest` */
  function Pair(x: string, k: string, y: string, z: string, rest: string): string {
    x + (k + (y + ("=" + (z + rest))))
  }

  predicate PairParts(x: string, k: string, y: string, z: string, rest: string) {
    AllBlank(x) && AllKey(k) && k != "" && AllBlank(y) && AllBlank(z) && Unblank(rest)
  }

  lemma Dropped(x: string, t: string)
    ensures (x + t)[|x|..] == t && (x + t)[..|x|] == x
  {
  }

  lemma KeyAtPair(x: string, k: string, y: string, z: string, rest: string)
    requires PairParts(x, k, y, z, rest)
    ensures KeyAt(Pair(x, k, y, z, rest)) == Some((k, |x| + |k| + |y| + 1 + |z|))
    ensures SkipBlanks(Pair(x, k, y, z, rest)) == k + (y + ("=" + (z + rest)))
  {
    var t4 := z + rest;
    var t3 := "=" + t4;
    var t2 := y + t3;
    var t1 := k + t2;
    assert KeyChar(t1[0]) && !IsBlank(t1[0]);
    assert Unkey(t2) by { if y != "" { assert t2[0] == y[0] && IsBlank(y[0]); } }
    hide SkipBlanks, KeyLength, AllBlank, AllKey, KeyChar;
    BlanksOf(x, t1);
    KeyLengthOf(k, t2);
    Dropped(k, t2);
    BlanksOf(y, t3);
    Dropped("=", t4);
    BlanksOf(z, rest);
  }

  lemma PairOfKeyAt(line: string) returns (x: string, k: string, y: string, z: string, rest: string)
    requires KeyAt(line).Some?
    ensures PairParts(x, k, y, z, rest) && line == Pair(x, k, y, z, rest)
    ensures KeyAt(line) == Some((k, |x| + |k| + |y| + 1 + |z|))
  {
    hide SkipBlanks, KeyLength, AllBlank, AllKey, KeyChar;
    var t := SkipBlanks(line);
    k := t[..KeyLength(t)];
    var v := t[KeyLength(t)..];
    var u := SkipBlanks(v);
    rest := SkipBlanks(u[1..]);
    x := BlanksSplit(line);
    KeyLengthSplit(t);
    y := BlanksSplit(v);
    z := BlanksSplit(u[1..]);
    assert t == k + v;
    assert u == "=" + u[1..];
  }

  /** Changing only what comes after the equals sign keeps the key. */
  lemma KeyAtSamePrefix(line: string, w: string)
    requires KeyAt(line).Some? && w != "" && !IsBlank(w[0])
    ensures var line' := line[..KeyAt(line).value.1] + w;
            && KeyAt(line') == KeyAt(line)
            && SkipBlanks(line') != "" && KeyChar(SkipBlanks(line')[0])
  {
    var x, k, y, z, rest := PairOfKeyAt(line);
    KeyAtPair(x, k, y, z, w);
    hide KeyAt, SkipBlanks, IsBlank, KeyChar, AllKey, AllBlank;
    PairPrefix(x, k, y, z, rest, w);
    assert (k + (y + ("=" + (z + w))))[0] == k[0];
    assert KeyChar(k[0]) by { assert AllKey(k); FirstKey(k); }
  }

  lemma FirstKey(k: string)
    requires AllKey(k) && k != ""
    ensures KeyChar(k[0])
  {
  }

  lemma PairPrefix(x: string, k: string, y: string, z: string, rest: string, w: string)
    ensures var at := |x| + |k| + |y| + 1 + |z|;
            |Pair(x, k, y, z, rest)| >= at &&
            Pair(x, k, y, z, rest)[..at] + w == Pair(x, k, y, z, w)
  {
    var at := |x| + |k| + |y| + 1 + |z|;
    var pre := x + (k + (y + ("=" + z)));
    assert Pair(x, k, y, z, rest) == pre + rest;
    assert Pair(x, k, y, z, w) == pre + w;
    Dropped(pre, rest);
  }

  lemma KeyAtWritten(indent: string, name: string, rest: string)
    requires AllBlank(indent) && AllKey(name) && name != "" && rest != "" && !IsBlank(rest[0])
    ensures var line := indent + name + " = " + rest;
            && KeyAt(line) == Some((name, |indent| + |name| + 3))
            && line[|indent| + |name| + 3..] == rest
            && SkipBlanks(line) != "" && SkipBlanks(line)[0] == name[0]
  {
    KeyAtPair(indent, name, " ", " ", rest);
    hide KeyAt, SkipBlanks;
    var line := indent + name + " = " + rest;
    assert line == Pair(indent, name, " ", " ", rest);
    Dropped(indent + name + " = ", rest);
  }

  // ----- Written strings -----

  predicate NoControl(s: string) { forall i :: 0 <= i < |s| ==> s[i] as int >= 0x20 }

  lemma NoControlConcat(a: string, b: string)
    requires NoControl(a) && NoControl(b)
    ensures NoControl(a + b)
  {
  }

  lemma PieceNoControl(s: string)
    requires s != ""
    ensures NoControl(JsonPiece(s).0)
  {
    match DecodeFirst(s)
    case Malformed =>
    case Scalar(code, w) =>
      DecodedWidth(s);
      if JsonShort(code).None? && !JsonHex(code) && code >= 0x80 { WideBytes(s); }
  }

  /** A written string has no control characters, hence no line breaks. */
  lemma {:induction false} JsonNoControl(s: string)
    ensures NoControl(JsonBody(s)) && NoControl(JsonString(s))
    decreases |s|
  {
    if s != "" {
      hide JsonPiece;
      PieceNoControl(s);
      JsonNoControl(s[JsonPiece(s).1..]);
      NoControlConcat(JsonPiece(s).0, JsonBody(s[JsonPiece(s).1..]));
    }
  }

  lemma {:induction false} ItemsNoControl(argv: seq<string>)
    requires argv != []
    ensures NoControl(JsonItems(argv))
  {
    hide JsonString;
    JsonNoControl(argv[0]);
    if |argv| > 1 {
      ItemsNoControl(argv[1..]);
      NoControlConcat(JsonString(argv[0]) + ",", JsonItems(argv[1..]));
    }
  }

  function Plus(n: nat, r: Option<nat>): Option<nat> {
    match r case None => None case Some(m) => Some(n + m)
  }

  lemma {:induction false} LengthPlain(raw: string, t: string)
    requires forall i :: 0 <= i < |raw| ==> raw[i] !in "\"\\\r\n"
    ensures BasicLength(raw + t) == Plus(|raw|, BasicLength(t))
  {
    if raw == "" {
      assert raw + t == t;
    } else {
      assert (raw + t)[1..] == raw[1..] + t;
      LengthPlain(raw[1..], t);
    }
  }

  lemma LengthEscape(c: char, raw: string, t: string)
    requires c != '\n' && forall i :: 0 <= i < |raw| ==> raw[i] !in "\"\\\r\n"
    ensures BasicLength("\\" + [c] + raw + t) == Plus(2 + |raw|, BasicLength(t))
  {
    var whole := "\\" + [c] + raw + t;
    assert whole[0] == '\\' && whole[1] == c;
    assert whole[2..] == raw + t;
    LengthPlain(raw, t);
  }

  lemma HexPlain(h: string)
    requires IsHex(h)
    ensures forall i :: 0 <= i < |h| ==> h[i] !in "\"\\\r\n"
  {
  }

  lemma LengthPiece(s: string, t: string)
    requires s != ""
    ensures BasicLength(JsonPiece(s).0 + t) == Plus(|JsonPiece(s).0|, BasicLength(t))
  {
    hide DecodeFirst, BasicLength;
    match DecodeFirst(s)
    case Malformed =>
      assert "\\ufffd" + t == "\\" + "u" + "fffd" + t;
      LengthEscape('u', "fffd", t);
    case Scalar(code, w) =>
      DecodedWidth(s);
      if JsonShort(code).Some? {
        var c := JsonShort(code).value;
        assert "\\" + [c] + "" + t == "\\" + [c] + t;
        LengthEscape(c, "", t);
      } else if JsonHex(code) {
        HexPlain(Hex4(code));
        assert "\\u" + Hex4(code) + t == "\\" + "u" + Hex4(code) + t;
        LengthEscape('u', Hex4(code), t);
      } else {
        LengthRaw(s, t);
      }
  }

  /** A character written as it is. */
  lemma LengthRaw(s: string, t: string)
    requires s != "" && DecodeFirst(s).Scalar?
    requires JsonShort(DecodeFirst(s).code).None? && !JsonHex(DecodeFirst(s).code)
    ensures DecodeFirst(s).width <= |s|
    ensures BasicLength(s[..DecodeFirst(s).width] + t) == Plus(DecodeFirst(s).width, BasicLength(t))
  {
    hide BasicLength;
    DecodedWidth(s);
    if DecodeFirst(s).code >= 0x80 { WideBytes(s); } else { assert s[..1] == [s[0]]; }
    LengthPlain(s[..DecodeFirst(s).width], t);
  }

  lemma {:induction false} LengthBody(s: string, t: string)
    ensures BasicLength(JsonBody(s) + ("\"" + t)) == Some(|JsonBody(s)| + 1)
    decreases |s|
  {
    if s == "" {
      assert "" + ("\"" + t) == "\"" + t;
    } else {
      hide JsonPiece, BasicLength;
      var w := JsonPiece(s).1;
      LengthBody(s[w..], t);
      LengthPiece(s, JsonBody(s[w..]) + ("\"" + t));
      Regroup(JsonPiece(s).0, JsonBody(s[w..]), "\"" + t);
    }
  }

  /** The quoted-value pattern stops exactly at the end of a written string. */
  lemma LengthWritten(s: string, t: string)
    ensures QuotedLength(JsonString(s) + t) == Some(|JsonString(s)|)
  {
    var whole := JsonString(s) + t;
    assert whole[0] == '"' && whole[1..] == JsonBody(s) + ("\"" + t);
    LengthBody(s, t);
  }

  // ----- What written lines mean -----

  predicate CrOrNothing(cr: string) { cr == "" || cr == "\r" }

  lemma StripWritten(body: string, cr: string)
    requires CrOrNothing(cr) && '\r' !in body
    ensures StripCr(body + cr) == body
  {
    if cr == "" {
      assert body + cr == body;
      if body != "" { assert body[|body| - 1] in body; }
    } else {
      assert (body + cr)[..|body|] == body;
    }
  }

  lemma SameBodySameKind(line: string, line': string)
    requires StripCr(line) == StripCr(line')
    ensures Classify(line) == Classify(line') && IsProjectHeader(line) == IsProjectHeader(line')
  {
    hide StripCr, SkipBlanks, KeyAt, KeyNamed, QuotedLength, Trailer, ReadString, ReadArray, StartsWith;
  }

  lemma NoControlNoCr(s: string)
    requires NoControl(s)
    ensures '\r' !in s && '\n' !in s
  {
  }

  lemma KeyNames(key: Key)
    ensures KeyNamed(KeyName(key)) == Some(key)
    ensures KeyName(key) != "" && AllKey(KeyName(key)) && KeyName(key) != "argv"
  {
  }

  lemma KeyCharKind(c: char)
    requires KeyChar(c)
    ensures c != '#' && c != '[' && !IsBlank(c)
  {
  }

  /** A line that starts with a key is neither blank nor a table header. */
  lemma PairIsClassified(line: string)
    requires '\r' !in StripCr(line)
    requires SkipBlanks(StripCr(line)) != "" && KeyChar(SkipBlanks(StripCr(line))[0])
    ensures Classify(line) == ClassifyPair(line)
    ensures !IsProjectHeader(line) && !IsAllowHeader(line)
  {
    hide ClassifyPair, SkipBlanks, StripCr;
    var t := SkipBlanks(StripCr(line));
    KeyCharKind(t[0]);
    assert forall h: string :: h != "" && StartsWith(t, h) ==> t[..|h|][0] == t[0];
    assert !StartsWith(t, "[[projects]]") && !StartsWith(t, "[[projects.allow]]");
  }

  lemma Slices(body: string, at: nat, json: string, suffix: string)
    requires at <= |body| && body[at..] == json + suffix
    ensures at + |json| <= |body| && body[at + |json|..] == suffix && body[at..at + |json|] == json
  {
    Dropped(json, suffix);
    assert body[at + |json|..] == body[at..][|json|..];
    assert body[at..at + |json|] == body[at..][..|json|];
  }

  lemma AppendNothing(s: string)
    ensures s + "" == s
  {
  }

  /** A field line holding a written value reads as that value. */
  lemma ClassifyField(line: string, key: Key, at: nat, v: string, suffix: string)
    requires '\r' !in StripCr(line)
    requires SkipBlanks(StripCr(line)) != "" && KeyChar(SkipBlanks(StripCr(line))[0])
    requires KeyAt(StripCr(line)) == Some((KeyName(key), at))
    requires StripCr(line)[at..] == JsonString(v) + suffix && Trailer(suffix) && Writable(v)
    ensures Classify(line) == Field(key, v)
    ensures !IsProjectHeader(line)
    ensures FieldValue(KeyName(key), line) == Some((at, at + |JsonString(v)|))
  {
    hide SkipBlanks, StripCr, KeyAt, QuotedLength, Trailer, ReadString, ReadArray, JsonString, Writable, KeyName,
         KeyNamed, KeyChar, Classify, IsProjectHeader, IsAllowHeader;
    PairIsClassified(line);
    KeyNames(key);
    LengthWritten(v, suffix);
    WriteReadExact(v, "");
    Slices(StripCr(line), at, JsonString(v), suffix);
    AppendNothing(JsonString(v));
  }

  /** `key = "value"`, as appendProject writes it. */
  lemma WrittenFieldLine(key: Key, v: string, cr: string)
    requires CrOrNothing(cr) && Writable(v)
    ensures Classify(KeyName(key) + " = " + JsonString(v) + cr) == Field(key, v)
    ensures !IsProjectHeader(KeyName(key) + " = " + JsonString(v) + cr)
    ensures Newlineless(KeyName(key) + " = " + JsonString(v) + cr)
  {
    hide SkipBlanks, StripCr, KeyAt, Classify, JsonString, KeyName, IsProjectHeader, KeyChar, Trailer, Writable;
    var name, json := KeyName(key), JsonString(v);
    var body := name + " = " + json;
    WrittenBody(key, v);
    NoControlNoCr(body);
    StripWritten(body, cr);
    AppendNothing(json);
    EmptyTrailer();
    ClassifyField(body + cr, key, |name| + 3, v, "");
  }

  lemma EmptyTrailer()
    ensures Trailer("")
  {
  }

  lemma WrittenBody(key: Key, v: string)
    ensures var body := KeyName(key) + " = " + JsonString(v);
            && NoControl(body) && KeyAt(body) == Some((KeyName(key), |KeyName(key)| + 3))
            && body[|KeyName(key)| + 3..] == JsonString(v)
            && SkipBlanks(body) != "" && KeyChar(SkipBlanks(body)[0])
  {
    KeyNames(key);
    KeyNameChars(key);
    assert JsonString(v)[0] == '"';
    JsonNoControl(v);
    hide SkipBlanks, KeyAt, KeyName, JsonString, KeyChar, NoControl;
    AssignNoControl();
    KeyAtWritten("", KeyName(key), JsonString(v));
    assert "" + KeyName(key) == KeyName(key);
    NoControlConcat(KeyName(key), " = ");
    NoControlConcat(KeyName(key) + " = ", JsonString(v));
    FirstKey(KeyName(key));
  }

  lemma AssignNoControl()
    ensures NoControl(" = ")
  {
  }

  lemma KeyNameChars(key: Key)
    ensures NoControl(KeyName(key))
  {
  }

  lemma StripShorter(line: string)
    ensures |StripCr(line)| <= |line| && line[..|StripCr(line)|] == StripCr(line)
    ensures line == StripCr(line) || line == StripCr(line) + "\r"
  {
  }

  /** Replacing the middle of a line's body leaves its carriage return alone. */
  lemma StripReplaced(line: string, a: nat, b: nat, w: string)
    requires a <= b <= |StripCr(line)| && w != "" && w[|w| - 1] != '\r'
    ensures b <= |line|
    ensures StripCr(line[..a] + w + line[b..]) == StripCr(line)[..a] + w + StripCr(line)[b..]
  {
    StripShorter(line);
    var body := StripCr(line);
    var body' := body[..a] + w + body[b..];
    assert line[..a] == body[..a];
    if line == body {
      assert body' != "" && body'[|body'| - 1] != '\r' by {
        if b < |body| { assert body'[|body'| - 1] == body[|body| - 1]; }
      }
    } else {
      assert line[b..] == body[b..] + "\r";
      assert line[..a] + w + line[b..] == body' + "\r";
    }
  }

  lemma FieldLineParts(line: string, key: Key)
    requires Classify(line).Field? && Classify(line).key == key
    ensures var body := StripCr(line);
            && '\r' !in body && KeyAt(body).Some? && KeyAt(body).value.0 == KeyName(key)
            && FieldValue(KeyName(key), line).Some?
            && FieldValue(KeyName(key), line).value.0 == KeyAt(body).value.1
            && Trailer(body[FieldValue(KeyName(key), line).value.1..])
  {
    hide SkipBlanks, StripCr, KeyAt, QuotedLength, Trailer, ReadString, ReadArray, IsAllowHeader;
  }

  lemma ArgvLineParts(line: string)
    requires Classify(line).Argv?
    ensures IsArgvLine(line)
  {
    hide SkipBlanks, StripCr, KeyAt, QuotedLength, Trailer, ReadString, ReadArray, IsAllowHeader;
  }

  /** A field line whose value is replaced by a written one keeps its key and reads as the new value. */
  lemma ReplacedFieldLine(line: string, key: Key, v: string)
    requires Classify(line).Field? && Classify(line).key == key && Writable(v)
    requires Newlineless(line)
    ensures FieldValue(KeyName(key), line).Some?
    ensures var (a, b) := FieldValue(KeyName(key), line).value;
            var line' := line[..a] + JsonString(v) + line[b..];
            Classify(line') == Field(key, v) && !IsProjectHeader(line') && Newlineless(line')
  {
    FieldLineParts(line, key);
    JsonNoControl(v);
    NoControlNoCr(JsonString(v));
    JsonQuotes(v);
    var body, json := StripCr(line), JsonString(v);
    var (a, b) := FieldValue(KeyName(key), line).value;
    hide SkipBlanks, StripCr, KeyAt, Classify, JsonString, FieldValue, IsProjectHeader, KeyName, KeyChar, Trailer,
         Writable;
    StripReplaced(line, a, b, json);
    Regroup(body[..a], json, body[b..]);
    KeyAtSamePrefix(body, json + body[b..]);
    Dropped(body[..a], json + body[b..]);
    ClassifyField(line[..a] + json + line[b..], key, a, v, body[b..]);
  }

  lemma JsonQuotes(v: string)
    ensures var json := JsonString(v); json[0] == '"' && json[|json| - 1] == '"' && !IsBlank(json[0])
  {
  }

  // ----- Allow tables -----

  lemma WrittenAllowHeader(cr: string)
    requires CrOrNothing(cr)
    ensures Classify("  [[projects.allow]]" + cr) == AllowHeader
    ensures !IsProjectHeader("  [[projects.allow]]" + cr) && Newlineless("  [[projects.allow]]" + cr)
  {
    var body, t := "  [[projects.allow]]", "[[projects.allow]]";
    hide SkipBlanks, StripCr, Trailer;
    StripWritten(body, cr);
    BlanksOf("  ", t);
    assert body == "  " + t;
    AllowHeaderStart();
    EmptyTrailer();
  }

  lemma AllowHeaderStart()
    ensures var t := "[[projects.allow]]"; t[..18] == t && t[18..] == "" && t[..12] != "[[projects]]"
  {
    var t := "[[projects.allow]]";
    assert t[..12][10] == '.' && "[[projects]]"[10] == ']';
  }

  lemma WrittenArgvLine(argv: seq<string>, cr: string)
    requires CrOrNothing(cr) && argv != [] && forall i :: 0 <= i < |argv| ==> Writable(argv[i])
    ensures Classify("  argv = " + JsonArray(argv) + cr) == Argv(argv)
    ensures !IsProjectHeader("  argv = " + JsonArray(argv) + cr) && Newlineless("  argv = " + JsonArray(argv) + cr)
  {
    hide SkipBlanks, StripCr, KeyAt, Classify, IsProjectHeader, IsAllowHeader, ReadArray, Trailer, JsonItems, Writable;
    var json := JsonArray(argv);
    assert json[0] == '[' && !IsBlank(json[0]);
    ArgvNoControl(argv);
    ArrayRoundTrip(argv, "");
    KeyAtWritten("  ", "argv", json);
    EmptyTrailer();
    hide JsonArray;
    var body := "  argv = " + json;
    assert "  " + "argv" + " = " + json == body;
    NoControlNoCr(body);
    StripWritten(body, cr);
    PairIsClassified(body + cr);
    AppendNothing(json);
  }

  lemma ArgvNoControl(argv: seq<string>)
    requires argv != []
    ensures NoControl("  argv = " + JsonArray(argv))
  {
    ItemsNoControl(argv);
  }

  // ----- Approval modes are written without escapes -----

  predicate PlainWord(s: string) { forall i :: 0 <= i < |s| ==> 'a' <= s[i] <= 'z' || s[i] == '-' }

  lemma {:induction false} PlainJson(s: string)
    requires PlainWord(s)
    ensures JsonBody(s) == s && Writable(s)
  {
    if s != "" {
      PlainJson(s[1..]);
      assert DecodeFirst(s) == Scalar(s[0] as int, 1);
      assert JsonPiece(s) == (s[..1], 1);
      assert s == s[..1] + s[1..];
    }
  }
}
