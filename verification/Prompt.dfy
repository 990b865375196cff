/**
 The approval prompt of internal/broker/broker.go, and Go's string quoting it relies on.

 A human approves a text, the broker runs a command. `ParsePrompt` recovers the command
 from the text, so the text a human approved determines the project, the working directory
 and the exact argument vector.
 */
module Prompt {
  import opened Basics
  import opened Utf8

  datatype Command = Command(project: string, workingDir: string, argv: seq<string>)

  predicate IsCommand(c: Command) {
    IsBytes(c.project) && IsBytes(c.workingDir) && forall i :: 0 <= i < |c.argv| ==> IsBytes(c.argv[i])
  }

  // ----- strconv.Quote and strconv.QuoteToASCII -----

  predicate Printable(code: nat, ascii: bool, wide: nat -> bool) {
    if code < 0x80 then 0x20 <= code < 0x7F else !ascii && wide(code)
  }

  function ShortEscape(code: nat): Option<char> {
    match code
    case 7 => Some('a')
    case 8 => Some('b')
    case 12 => Some('f')
    case 10 => Some('n')
    case 13 => Some('r')
    case 9 => Some('t')
    case 11 => Some('v')
    case _ => None
  }

  function EscapeRune(code: nat, raw: string, ascii: bool, wide: nat -> bool): string
    requires code <= 0x10FFFF
  {
    if code == 0x22 || code == 0x5C then "\\" + [code as char]
    else if Printable(code, ascii, wide) then raw
    else if ShortEscape(code).Some? then "\\" + [ShortEscape(code).value]
    else if code < 0x20 || code == 0x7F then "\\x" + Hex2(code)
    else if code < 0x10000 then "\\u" + Hex4(code)
    else "\\U" + Hex8(code)
  }

  /** What the first rune (or malformed byte) is written as, and how many bytes it takes. */
  function FirstPiece(s: string, ascii: bool, wide: nat -> bool): (p: (string, nat))
    requires s != "" && IsBytes(s)
    ensures 1 <= p.1 <= |s|
  {
    match DecodeFirst(s)
    case Malformed => ("\\x" + Hex2(s[0] as int), 1)
    case Scalar(code, w) => DecodedWidth(s); (EscapeRune(code, s[..w], ascii, wide), w)
  }

  /** The quoted form without its quotes. `wide` says which runes above ASCII are printable. */
  function Escaped(s: string, ascii: bool, wide: nat -> bool): string
    requires IsBytes(s)
  {
    if s == "" then ""
    else
      var p := FirstPiece(s, ascii, wide);
      p.0 + Escaped(s[p.1..], ascii, wide)
  }

  function Quote(s: string, ascii: bool, wide: nat -> bool): string
    requires IsBytes(s)
  {
    "\"" + Escaped(s, ascii, wide) + "\""
  }

  // ----- The inverse -----

  function LongForm(c: char): nat {
    if c == 'a' then 7 else if c == 'b' then 8 else if c == 'f' then 12 else if c == 'n' then 10
    else if c == 'r' then 13 else if c == 't' then 9 else if c == 'v' then 11 else c as nat
  }

  /** Reads up to the closing quote; returns the denoted bytes and what follows the quote. */
  function Unquote(t: string): Option<(string, string)> {
    if t == "" then None
    else if t[0] == '"' then Some(("", t[1..]))
    else if t[0] != '\\' then Prepend([t[0]], Unquote(t[1..]))
    else if |t| >= 4 && t[1] == 'x' && IsHex(t[2..4]) then
      Prepend([Value2(t[2..4]) as char], Unquote(t[4..]))
    else if |t| >= 6 && t[1] == 'u' && IsHex(t[2..6]) then
      Prepend(Encode(Value4(t[2..6])), Unquote(t[6..]))
    else if |t| >= 10 && t[1] == 'U' && IsHex(t[2..10]) && Value8(t[2..10]) <= 0x10FFFF then
      Prepend(Encode(Value8(t[2..10])), Unquote(t[10..]))
    else if |t| >= 2 && LongForm(t[1]) < 0x80 then Prepend([LongForm(t[1]) as char], Unquote(t[2..]))
    else None
  }

  lemma UnquoteHex2(n: nat, t: string)
    requires n < 0x100
    ensures Unquote("\\x" + Hex2(n) + t) == Prepend([n as char], Unquote(t))
  {
    var h := Hex2(n);
    var whole := "\\x" + h + t;
    assert whole[2..4] == h;
    assert whole[4..] == t;
  }

  lemma UnquoteHex4(n: nat, t: string)
    requires n < 0x10000
    ensures Unquote("\\u" + Hex4(n) + t) == Prepend(Encode(n), Unquote(t))
  {
    var h := Hex4(n);
    var whole := "\\u" + h + t;
    assert whole[2..6] == h;
    assert whole[6..] == t;
  }

  lemma UnquoteHex8(n: nat, t: string)
    requires n <= 0x10FFFF
    ensures Unquote("\\U" + Hex8(n) + t) == Prepend(Encode(n), Unquote(t))
  {
    var h := Hex8(n);
    var whole := "\\U" + h + t;
    assert whole[2..10] == h;
    assert whole[10..] == t;
  }

  lemma UnquoteShort(c: char, t: string)
    requires c !in "xuU" && LongForm(c) < 0x80
    ensures Unquote("\\" + [c] + t) == Prepend([LongForm(c) as char], Unquote(t))
  {
    var whole := "\\" + [c] + t;
    assert whole[0] == '\\' && whole[1] == c;
    assert whole[2..] == t;
  }

  lemma {:induction false} UnquotePlain(raw: string, t: string)
    requires forall i :: 0 <= i < |raw| ==> raw[i] != '"' && raw[i] != '\\'
    ensures Unquote(raw + t) == Prepend(raw, Unquote(t))
  {
    if raw == "" {
      assert raw + t == t;
      if Unquote(t).Some? { assert raw + Unquote(t).value.0 == Unquote(t).value.0; }
    } else {
      UnquotePlain(raw[1..], t);
      assert (raw + t)[1..] == raw[1..] + t;
      assert [raw[0]] + raw[1..] == raw;
      match Unquote(t)
      case None =>
      case Some((value, rest)) => assert [raw[0]] + (raw[1..] + value) == raw + value;
    }
  }

  /** One escaped rune reads back as the bytes it came from. */
  lemma UnquoteRune(s: string, ascii: bool, wide: nat -> bool, t: string)
    requires s != "" && IsBytes(s) && DecodeFirst(s).Scalar?
    ensures DecodeFirst(s).width <= |s| && DecodeFirst(s).code <= 0x10FFFF
    ensures var raw := s[..DecodeFirst(s).width];
            Unquote(EscapeRune(DecodeFirst(s).code, raw, ascii, wide) + t) == Prepend(raw, Unquote(t))
  {
    DecodedWidth(s);
    EncodeDecoded(s);
    var Scalar(code, w) := DecodeFirst(s);
    var raw := s[..w];
    if code == 0x22 || code == 0x5C {
      UnquoteShort(code as char, t);
    } else if Printable(code, ascii, wide) {
      if code >= 0x80 { WideBytes(s); }
      UnquotePlain(raw, t);
    } else if ShortEscape(code).Some? {
      UnquoteShort(ShortEscape(code).value, t);
    } else if code < 0x20 || code == 0x7F {
      UnquoteHex2(code, t);
    } else if code < 0x10000 {
      UnquoteHex4(code, t);
    } else {
      UnquoteHex8(code, t);
    }
  }

  lemma UnquoteFirstPiece(s: string, ascii: bool, wide: nat -> bool, t: string)
    requires s != "" && IsBytes(s)
    ensures var (piece, w) := FirstPiece(s, ascii, wide);
            Unquote(piece + t) == Prepend(s[..w], Unquote(t))
  {
    match DecodeFirst(s)
    case Malformed =>
      UnquoteHex2(s[0] as int, t);
      assert s[..1] == [s[0]];
    case Scalar(code, w) =>
      UnquoteRune(s, ascii, wide, t);
  }

  lemma UnquoteClose(rest: string)
    ensures Unquote("" + ("\"" + rest)) == Some(("", rest))
  {
    var close := "\"" + rest;
    assert "" + close == close;
    assert close[1..] == rest;
  }

  /** A quoted string is self-delimiting and denotes the string it was made from. */
  lemma {:induction false} UnquoteEscaped(s: string, ascii: bool, wide: nat -> bool, rest: string)
    requires IsBytes(s)
    ensures Unquote(Escaped(s, ascii, wide) + ("\"" + rest)) == Some((s, rest))
    decreases |s|
  {
    if s == "" {
      UnquoteClose(rest);
    } else {
      var (piece, w) := FirstPiece(s, ascii, wide);
      BytesSuffix(s, w);
      var body, close := Escaped(s[w..], ascii, wide), "\"" + rest;
      UnquoteEscaped(s[w..], ascii, wide, rest);
      UnquoteFirstPiece(s, ascii, wide, body + close);
      Regroup(piece, body, close);
      assert s[..w] + s[w..] == s;
    }
  }

  // ----- formatPrompt -----

  const Opening := "secrets-broker: allow project "
  const Middle := " to run:\n\nworking directory: "

  function Decimal(n: nat): string {
    if n < 10 then [('0' as int + n) as char] else Decimal(n / 10) + [('0' as int + n % 10) as char]
  }

  function ArgLabel(i: nat): string { "  argv[" + Decimal(i) + "] = " }

  function NoWide(code: nat): bool { false }

  function ArgLine(i: nat, arg: string): string
    requires IsBytes(arg)
  {
    ArgLabel(i) + Quote(arg, true, NoWide)
  }

  /** The argument lines from index i on, joined with newlines. */
  function ArgLines(argv: seq<string>, i: nat): string
    requires i <= |argv| && forall k :: 0 <= k < |argv| ==> IsBytes(argv[k])
    decreases |argv| - i
  {
    if i == |argv| then ""
    else if i + 1 == |argv| then ArgLine(i, argv[i])
    else ArgLine(i, argv[i]) + "\n" + ArgLines(argv, i + 1)
  }

  function PromptText(c: Command, wide: nat -> bool): string
    requires IsCommand(c)
  {
    Opening + Quote(c.project, false, wide) + Middle + Quote(c.workingDir, true, NoWide) + "\n" + ArgLines(c.argv, 0)
  }

  function JoinNewlines(lines: seq<string>): string {
    if lines == [] then "" else if |lines| == 1 then lines[0] else lines[0] + "\n" + JoinNewlines(lines[1..])
  }

  /** formatPrompt: fills one line per argument, then joins. */
  method FormatPrompt(project: string, workingDir: string, argv: seq<string>, wide: nat -> bool)
    returns (prompt: string)
    requires IsCommand(Command(project, workingDir, argv))
    ensures prompt == PromptText(Command(project, workingDir, argv), wide)
    ensures ParsePrompt(prompt) == Some(Command(project, workingDir, argv))
  {
    var lines: seq<string> := [];
    for i := 0 to |argv|
      invariant |lines| == i
      invariant forall k :: 0 <= k < i ==> lines[k] == ArgLine(k, argv[k])
    {
      lines := lines + [ArgLine(i, argv[i])];
    }
    JoinedArgLines(argv, lines, 0);
    assert lines[0..] == lines;
    prompt := Opening + Quote(project, false, wide) + Middle + Quote(workingDir, true, NoWide)
              + "\n" + JoinNewlines(lines);
    PromptRoundTrip(Command(project, workingDir, argv), wide);
  }

  lemma {:induction false} JoinedArgLines(argv: seq<string>, lines: seq<string>, i: nat)
    requires i <= |argv| == |lines| && forall k :: 0 <= k < |argv| ==> IsBytes(argv[k])
    requires forall k :: 0 <= k < |argv| ==> lines[k] == ArgLine(k, argv[k])
    ensures JoinNewlines(lines[i..]) == ArgLines(argv, i)
    decreases |argv| - i
  {
    if i < |argv| {
      JoinedArgLines(argv, lines, i + 1);
      assert lines[i..][1..] == lines[i + 1..];
    }
  }

  // ----- Reading a prompt back -----

  function Expect(literal: string, t: string): Option<string> {
    if |literal| <= |t| && t[..|literal|] == literal then Some(t[|literal|..]) else None
  }

  /** Reads an opening quote and the quoted value. */
  function QuotedAt(t: string): Option<(string, string)> {
    if t != "" && t[0] == '"' then Unquote(t[1..]) else None
  }

  function ParseArgs(t: string, i: nat): Option<seq<string>>
    decreases |t|
  {
    match Expect(ArgLabel(i), t)
    case None => None
    case Some(afterLabel) =>
      match QuotedAt(afterLabel)
      case None => None
      case Some((arg, rest)) =>
        if rest == "" then Some([arg])
        else if rest[0] != '\n' || |rest| >= |t| then None
        else match ParseArgs(rest[1..], i + 1)
          case None => None
          case Some(args) => Some([arg] + args)
  }

  function ParsePrompt(t: string): Option<Command> {
    match Expect(Opening, t)
    case None => None
    case Some(t1) =>
      match QuotedAt(t1)
      case None => None
      case Some((project, t2)) =>
        match Expect(Middle, t2)
        case None => None
        case Some(t3) =>
          match QuotedAt(t3)
          case None => None
          case Some((workingDir, t4)) =>
            match Expect("\n", t4)
            case None => None
            case Some(t5) =>
              if t5 == "" then Some(Command(project, workingDir, []))
              else match ParseArgs(t5, 0)
                case None => None
                case Some(argv) => Some(Command(project, workingDir, argv))
  }

  lemma ExpectPrefix(literal: string, t: string)
    ensures Expect(literal, literal + t) == Some(t)
  {
    assert (literal + t)[..|literal|] == literal;
    assert (literal + t)[|literal|..] == t;
  }

  lemma OpeningQuote(body: string, t: string)
    ensures ("\"" + body + "\"" + t)[1..] == body + ("\"" + t)
  {
  }

  lemma QuotedPrefix(s: string, ascii: bool, wide: nat -> bool, t: string)
    requires IsBytes(s)
    ensures QuotedAt(Quote(s, ascii, wide) + t) == Some((s, t))
  {
    OpeningQuote(Escaped(s, ascii, wide), t);
    UnquoteEscaped(s, ascii, wide, t);
  }

  lemma ArgLineParses(i: nat, arg: string, rest: string)
    requires IsBytes(arg)
    ensures Expect(ArgLabel(i), ArgLine(i, arg) + rest) == Some(Quote(arg, true, NoWide) + rest)
    ensures QuotedAt(Quote(arg, true, NoWide) + rest) == Some((arg, rest))
  {
    var quoted := Quote(arg, true, NoWide);
    assert ArgLine(i, arg) + rest == ArgLabel(i) + (quoted + rest);
    ExpectPrefix(ArgLabel(i), quoted + rest);
    QuotedPrefix(arg, true, NoWide, rest);
  }

  lemma ParseArgsStep(t: string, i: nat, arg: string, afterLabel: string, more: string, args: seq<string>)
    requires Expect(ArgLabel(i), t) == Some(afterLabel)
    requires QuotedAt(afterLabel) == Some((arg, "\n" + more))
    requires |more| + 1 < |t|
    requires ParseArgs(more, i + 1) == Some(args)
    ensures ParseArgs(t, i) == Some([arg] + args)
  {
    assert ("\n" + more)[1..] == more;
  }

  lemma LastArgParses(i: nat, arg: string)
    requires IsBytes(arg)
    ensures ParseArgs(ArgLine(i, arg), i) == Some([arg])
  {
    assert ArgLine(i, arg) + "" == ArgLine(i, arg);
    ArgLineParses(i, arg, "");
  }

  lemma NextArgParses(i: nat, arg: string, more: string, args: seq<string>)
    requires IsBytes(arg)
    requires ParseArgs(more, i + 1) == Some(args)
    ensures ParseArgs(ArgLine(i, arg) + "\n" + more, i) == Some([arg] + args)
  {
    var line := ArgLine(i, arg);
    Regroup(line, "\n", more);
    ArgLineParses(i, arg, "\n" + more);
    ParseArgsStep(line + ("\n" + more), i, arg, Quote(arg, true, NoWide) + ("\n" + more), more, args);
  }

  lemma {:induction false} ArgsRoundTrip(argv: seq<string>, i: nat)
    requires i < |argv| && forall k :: 0 <= k < |argv| ==> IsBytes(argv[k])
    ensures ParseArgs(ArgLines(argv, i), i) == Some(argv[i..])
    decreases |argv| - i
  {
    hide ParseArgs, ArgLine;
    if i + 1 == |argv| {
      LastArgParses(i, argv[i]);
      assert argv[i..] == [argv[i]];
    } else {
      var more := ArgLines(argv, i + 1);
      ArgsRoundTrip(argv, i + 1);
      NextArgParses(i, argv[i], more, argv[i + 1..]);
      assert argv[i..] == [argv[i]] + argv[i + 1..];
    }
  }

  /** The prompt text determines the command: reading it back gives every field unchanged. */
  lemma PromptRoundTrip(c: Command, wide: nat -> bool)
    requires IsCommand(c)
    ensures ParsePrompt(PromptText(c, wide)) == Some(c)
  {
    var t5 := ArgLines(c.argv, 0);
    var t4 := "\n" + t5;
    var t3 := Quote(c.workingDir, true, NoWide) + t4;
    var t2 := Middle + t3;
    var t1 := Quote(c.project, false, wide) + t2;
    PromptGrouping(Opening, Quote(c.project, false, wide), Middle, Quote(c.workingDir, true, NoWide), t5);
    assert PromptText(c, wide) == Opening + t1;
    ExpectPrefix(Opening, t1);
    QuotedPrefix(c.project, false, wide, t2);
    ExpectPrefix(Middle, t3);
    QuotedPrefix(c.workingDir, true, NoWide, t4);
    ExpectPrefix("\n", t5);
    if c.argv != [] {
      ArgsRoundTrip(c.argv, 0);
      assert c.argv[0..] == c.argv;
    }
  }

  lemma PromptGrouping(a: string, b: string, c: string, d: string, e: string)
    ensures a + b + c + d + "\n" + e == a + (b + (c + (d + ("\n" + e))))
  {
  }

  /** Two requests with the same prompt are the same request. */
  lemma PromptInjective(c1: Command, c2: Command, wide: nat -> bool)
    requires IsCommand(c1) && IsCommand(c2)
    requires PromptText(c1, wide) == PromptText(c2, wide)
    ensures c1 == c2
  {
    PromptRoundTrip(c1, wide);
    PromptRoundTrip(c2, wide);
  }
}
