/**
 What a human sees of a command in the approval prompt of internal/broker/broker.go: no
 control character, no line that an argument brought along, and plain text unchanged.
 */
module PromptShown {
  import opened Basics
  import opened Prompt
  import opened Utf8

  predicate PlainAscii(c: char) { ' ' <= c <= '~' }

  /** Characters a quoted form may hold: printable ASCII and, unless `ascii`, bytes of wide runes. */
  predicate Showable(t: string, ascii: bool) {
    forall i :: 0 <= i < |t| ==> PlainAscii(t[i]) || (!ascii && t[i] as int >= 0x80)
  }

  /** Printable ASCII that needs no escape. */
  predicate Verbatim(c: char) { PlainAscii(c) && c != '"' && c != '\\' }

  lemma RuneShown(code: nat, raw: string, ascii: bool, wide: nat -> bool)
    requires code <= 0x10FFFF && |raw| >= 1
    requires if code < 0x80 then raw == [code as char] else forall i :: 0 <= i < |raw| ==> raw[i] as int >= 0x80
    ensures Showable(EscapeRune(code, raw, ascii, wide), ascii)
  {
  }

  lemma PieceShown(s: string, ascii: bool, wide: nat -> bool)
    requires s != "" && IsBytes(s)
    ensures Showable(FirstPiece(s, ascii, wide).0, ascii)
  {
    match DecodeFirst(s)
    case Malformed =>
    case Scalar(code, w) =>
      DecodedWidth(s);
      EncodeDecoded(s);
      if code >= 0x80 { WideBytes(s); }
      RuneShown(code, s[..w], ascii, wide);
  }

  /** Whatever is quoted, no control character gets through, and with `ascii` nothing but printable ASCII. */
  lemma {:induction false} QuotedShowable(s: string, ascii: bool, wide: nat -> bool)
    requires IsBytes(s)
    ensures Showable(Quote(s, ascii, wide), ascii)
    decreases |s|
  {
    hide FirstPiece;
    if s != "" {
      var p := FirstPiece(s, ascii, wide);
      BytesSuffix(s, p.1);
      PieceShown(s, ascii, wide);
      QuotedShowable(s[p.1..], ascii, wide);
      assert Showable(Escaped(s[p.1..], ascii, wide), ascii) by {
        var q := Quote(s[p.1..], ascii, wide);
        assert q[1..|q| - 1] == Escaped(s[p.1..], ascii, wide);
      }
    }
  }

  /** Escapes are longer than what they stand for; the short ones take two characters. */
  lemma PieceLength(s: string)
    requires s != "" && IsBytes(s)
    ensures var p := FirstPiece(s, true, NoWide);
            if Verbatim(s[0]) then p == (s[..1], 1)
            else |p.0| > p.1 && (|p.0| == 2 <==> s[0] as int in {7, 8, 9, 10, 11, 12, 13, 0x22, 0x5C})
  {
    match DecodeFirst(s)
    case Malformed =>
    case Scalar(code, w) =>
      DecodedWidth(s);
      EncodeDecoded(s);
      if code >= 0x80 { WideBytes(s); }
  }

  lemma {:induction false} EscapedLength(s: string)
    requires IsBytes(s)
    ensures |Escaped(s, true, NoWide)| >= |s|
    ensures |Escaped(s, true, NoWide)| == |s| ==> forall i :: 0 <= i < |s| ==> Verbatim(s[i])
    ensures (forall i :: 0 <= i < |s| ==> Verbatim(s[i])) ==> Escaped(s, true, NoWide) == s
    decreases |s|
  {
    hide FirstPiece, Verbatim;
    if s != "" {
      var p := FirstPiece(s, true, NoWide);
      BytesSuffix(s, p.1);
      PieceLength(s);
      EscapedLength(s[p.1..]);
      assert s == s[..p.1] + s[p.1..];
      if |Escaped(s, true, NoWide)| == |s| {
        forall i | 0 <= i < |s| ensures Verbatim(s[i]) {
          if i > 0 { assert s[i] == s[p.1..][i - 1]; }
        }
      }
    }
  }

  /** An argument is shown as it is if and only if it is printable ASCII without quotes and backslashes. */
  lemma ShownVerbatim(s: string)
    requires IsBytes(s)
    ensures Quote(s, true, NoWide) == "\"" + s + "\"" <==> forall i :: 0 <= i < |s| ==> Verbatim(s[i])
  {
    hide Escaped;
    EscapedLength(s);
  }

  // ----- Lines -----

  function LineBreaks(t: string): nat {
    if t == "" then 0 else LineBreaks(t[..|t| - 1]) + if t[|t| - 1] == '\n' then 1 else 0
  }

  lemma {:induction false} NoNewline(t: string, ascii: bool)
    requires Showable(t, ascii)
    ensures LineBreaks(t) == 0
  {
    if t != "" { NoNewline(t[..|t| - 1], ascii); }
  }

  lemma {:induction false} Newlines(a: string, b: string)
    ensures LineBreaks(a + b) == LineBreaks(a) + LineBreaks(b)
    decreases |b|
  {
    if b == "" {
      assert a + b == a;
    } else {
      Newlines(a, b[..|b| - 1]);
      assert (a + b)[..|a + b| - 1] == a + b[..|b| - 1];
    }
  }

  lemma {:induction false} DecimalShown(n: nat)
    ensures Showable(Decimal(n), true)
  {
    if n >= 10 { DecimalShown(n / 10); }
  }

  lemma ArgLineShown(i: nat, arg: string)
    requires IsBytes(arg)
    ensures Showable(ArgLine(i, arg), true)
  {
    DecimalShown(i);
    QuotedShowable(arg, true, NoWide);
    hide Quote, Decimal;
  }

  lemma {:induction false} ArgLinesCount(argv: seq<string>, i: nat)
    requires i < |argv| && forall k :: 0 <= k < |argv| ==> IsBytes(argv[k])
    ensures LineBreaks(ArgLines(argv, i)) == |argv| - i - 1
    decreases |argv| - i
  {
    hide ArgLine, LineBreaks;
    TwoBreaks();
    ArgLineShown(i, argv[i]);
    NoNewline(ArgLine(i, argv[i]), true);
    if i + 1 < |argv| {
      ArgLinesCount(argv, i + 1);
      Newlines(ArgLine(i, argv[i]) + "\n", ArgLines(argv, i + 1));
      Newlines(ArgLine(i, argv[i]), "\n");
    }
  }

  lemma NewlinesOfSix(a: string, b: string, c: string, d: string, e: string, f: string)
    ensures LineBreaks(a + b + c + d + e + f)
            == LineBreaks(a) + LineBreaks(b) + LineBreaks(c) + LineBreaks(d) + LineBreaks(e)
               + LineBreaks(f)
  {
    hide LineBreaks;
    Newlines(a + b + c + d + e, f);
    Newlines(a + b + c + d, e);
    Newlines(a + b + c, d);
    Newlines(a + b, c);
    Newlines(a, b);
  }

  lemma TwoBreaks()
    ensures LineBreaks("\n") == 1 && LineBreaks("\n\n") == 2
  {
    assert "\n\n"[..1] == "\n";
    assert "\n"[..0] == "";
  }

  lemma NoBreaks()
    ensures LineBreaks(Opening) == 0 && LineBreaks(" to run:") == 0 && LineBreaks("working directory: ") == 0
  {
    hide LineBreaks;
    NoNewline(Opening, true);
    NoNewline(" to run:", true);
    NoNewline("working directory: ", true);
  }

  lemma MiddleParts(a: string, b: string)
    requires a == " to run:" && b == "working directory: "
    ensures Middle == a + "\n\n" + b
  {
  }

  lemma FixedParts()
    ensures LineBreaks(Opening) == 0 && LineBreaks(Middle) == 2
  {
    hide LineBreaks;
    NoBreaks();
    TwoBreaks();
    var a, b := " to run:", "working directory: ";
    MiddleParts(a, b);
    Newlines(a + "\n\n", b);
    Newlines(a, "\n\n");
  }

  /** The prompt has three lines before the arguments and one for each, whatever the values contain. */
  lemma OneLineEach(c: Command, wide: nat -> bool)
    requires IsCommand(c)
    ensures LineBreaks(PromptText(c, wide)) == if c.argv == [] then 3 else 2 + |c.argv|
  {
    hide Quote, ArgLines, Showable, LineBreaks;
    var project, dir := Quote(c.project, false, wide), Quote(c.workingDir, true, NoWide);
    QuotedShowable(c.project, false, wide);
    QuotedShowable(c.workingDir, true, NoWide);
    NoNewline(project, false);
    NoNewline(dir, true);
    if c.argv != [] { ArgLinesCount(c.argv, 0); } else { NoArgs(); NoNewline("", true); }
    FixedParts();
    TwoBreaks();
    NewlinesOfSix(Opening, project, Middle, dir, "\n", ArgLines(c.argv, 0));
  }

  lemma NoArgs()
    ensures ArgLines([], 0) == ""
  {
  }
}
