/**
 A splice of clean text into a clean policy gives a clean policy: the cuts fall between
 characters, and what the editor writes for a faithful value is clean.
 */
module CleanText {
  import opened Basics
  import opened Utf8
  import opened Text
  import opened TomlStrings
  import opened Layout
  import opened Splice
  import opened Removal
  import opened Reading
  import opened Commutes
  import opened ProjectCommutes
  import Config

  // ----- Joining and cutting UTF-8 -----

  lemma DecodePrefix(s: string, t: string)
    requires s != "" && DecodeFirst(s).Scalar?
    ensures DecodeFirst(s + t) == DecodeFirst(s)
  {
    DecodedWidth(s);
    var u := s + t;
    assert forall i :: 0 <= i < |s| ==> u[i] == s[i];
  }

  lemma DecodeTake(s: string, x: nat)
    requires s != "" && DecodeFirst(s).Scalar? && DecodeFirst(s).width <= x <= |s|
    ensures x > 0 && DecodeFirst(s[..x]) == DecodeFirst(s)
  {
    DecodedWidth(s);
    var u := s[..x];
    assert forall i :: 0 <= i < x ==> u[i] == s[i];
  }

  lemma {:induction false} ValidConcat(a: string, b: string)
    requires ValidUtf8(a) && ValidUtf8(b)
    ensures ValidUtf8(a + b)
    decreases |a|
  {
    hide DecodeFirst;
    if a == "" {
      assert a + b == b;
    } else {
      var w := DecodeFirst(a).width;
      DecodePrefix(a, b);
      ValidConcat(a[w..], b);
      assert (a + b)[w..] == a[w..] + b;
    }
  }

  predicate Ascii(c: char) { c as int < 0x80 }

  /** A position next to an ASCII character, or an end of the text. */
  predicate CutAt(s: string, x: nat) {
    x <= |s| && (x == 0 || x == |s| || Ascii(s[x]) || Ascii(s[x - 1]))
  }

  lemma RuneHasNoAscii(s: string, x: nat)
    requires s != "" && DecodeFirst(s).Scalar? && x < DecodeFirst(s).width && DecodeFirst(s).width > 1
    ensures x < |s| && !Ascii(s[x])
  {
    DecodedWidth(s);
  }

  lemma {:induction false} ValidCut(s: string, x: nat)
    requires ValidUtf8(s) && CutAt(s, x)
    ensures ValidUtf8(s[..x]) && ValidUtf8(s[x..])
    decreases |s|
  {
    hide DecodeFirst;
    if x == 0 {
      assert s[..x] == "" && s[x..] == s;
    } else if x == |s| {
      assert s[..x] == s && s[x..] == "";
    } else {
      var w := DecodeFirst(s).width;
      if x < w {
        RuneHasNoAscii(s, x);
        RuneHasNoAscii(s, x - 1);
      }
      ValidCut(s[w..], x - w);
      DecodeTake(s, x);
      assert s[..x][w..] == s[w..][..x - w] && s[w..][x - w..] == s[x..];
    }
  }

  lemma {:induction false} ValidAscii(s: string)
    requires forall i :: 0 <= i < |s| ==> Ascii(s[i])
    ensures ValidUtf8(s)
  {
    if s != "" { ValidAscii(s[1..]); }
  }

  // ----- The same for clean texts -----

  lemma CleanConcat(a: string, b: string)
    requires Clean(a) && Clean(b)
    ensures Clean(a + b)
  {
    hide CleanChar;
    ValidConcat(a, b);
  }

  lemma CleanCut(s: string, x: nat)
    requires Clean(s) && CutAt(s, x)
    ensures Clean(s[..x]) && Clean(s[x..])
  {
    hide CleanChar;
    ValidCut(s, x);
  }

  lemma CleanPiece(s: string, x: nat, y: nat)
    requires Clean(s) && x <= y && CutAt(s, x) && CutAt(s, y)
    ensures Clean(s[x..y])
  {
    hide Clean;
    CleanCut(s, y);
    var t := s[..y];
    if x < y { assert t[x] == s[x] && (x > 0 ==> t[x - 1] == s[x - 1]); }
    CleanCut(t, x);
    assert t[x..] == s[x..y];
  }

  lemma CleanSplice(data: string, x: nat, y: nat, w: string)
    requires Clean(data) && Clean(w) && x <= y && CutAt(data, x) && CutAt(data, y)
    ensures Clean(ReplaceSpan(data, x, y, w))
  {
    hide Clean;
    CleanCut(data, x);
    CleanCut(data, y);
    CleanConcat(data[..x], w);
    CleanConcat(data[..x] + w, data[y..]);
  }

  predicate CleanAscii(s: string) { forall i :: 0 <= i < |s| ==> Ascii(s[i]) && CleanChar(s[i]) }

  lemma AsciiIsClean(s: string)
    requires CleanAscii(s)
    ensures Clean(s)
  {
    ValidAscii(s);
  }

  predicate AllClean(lines: seq<string>) { forall k :: 0 <= k < |lines| ==> Clean(lines[k]) }

  lemma {:induction false} CleanLines(lines: seq<string>)
    requires AllClean(lines)
    ensures Clean(Terminated(lines))
  {
    hide Clean;
    AsciiIsClean("");
    AsciiIsClean("\n");
    if lines != [] {
      CleanLines(lines[1..]);
      CleanConcat(lines[0], "\n");
      CleanConcat(lines[0] + "\n", Terminated(lines[1..]));
    }
  }

  // ----- Where the editor cuts -----

  lemma NewlineCut(s: string, x: nat)
    requires x <= |s| && (x == 0 || x == |s| || s[x] == '\n' || s[x - 1] == '\n')
    ensures CutAt(s, x)
  {
  }

  lemma LineEnd(lines: seq<string>, k: nat)
    requires k < |lines|
    ensures var e := Offset(lines, k) + |lines[k]|;
            && e <= |Join(lines)| && (e == |Join(lines)| || Join(lines)[e] == '\n')
            && (k + 1 < |lines| ==> e < |Join(lines)|)
  {
    hide Join, Offset;
    LineAt(lines, k);
  }

  lemma CharacterAt(lines: seq<string>, k: nat, x: nat)
    requires k < |lines| && x < |lines[k]|
    ensures Offset(lines, k) + x < |Join(lines)| && Join(lines)[Offset(lines, k) + x] == lines[k][x]
  {
    hide Join, Offset;
    LineAt(lines, k);
    SliceAt(Join(lines), Offset(lines, k), lines[k], x);
  }

  lemma SliceAt(text: string, o: nat, line: string, x: nat)
    requires o + |line| <= |text| && text[o..o + |line|] == line && x < |line|
    ensures text[o + x] == line[x]
  {
    assert text[o..o + |line|][x] == text[o + x];
  }

  /** A line starts and ends next to a newline or an end of the text. */
  lemma LineCuts(lines: seq<string>, k: nat)
    requires k < |lines|
    ensures CutAt(Join(lines), LineSpan(lines, k).start) && CutAt(Join(lines), LineSpan(lines, k).end)
  {
    hide Join, Offset, CutAt;
    LineEnd(lines, k);
    NewlineCut(Join(lines), Offset(lines, k) + |lines[k]|);
    if k > 0 {
      LineEnd(lines, k - 1);
      OffsetStep(lines, k - 1);
    } else {
      FirstOffset(lines);
    }
    NewlineCut(Join(lines), Offset(lines, k));
  }

  lemma FirstOffset(lines: seq<string>)
    requires lines != []
    ensures Offset(lines, 0) == 0
  {
    assert lines[..0] == [];
  }

  lemma SpanCuts(p: string -> bool, text: string, i: nat)
    requires i < |FindAll(p, text)|
    ensures CutAt(text, FindAll(p, text)[i].start) && CutAt(text, FindAll(p, text)[i].end)
  {
    hide Join, Offset, Split, CutAt;
    JoinSplit(text);
    HitsMatch(p, Split(text), 0);
    LineCuts(Split(text), Hits(p, Split(text), 0)[i]);
  }

  /** A cut of a piece between two cuts is a cut of the whole. */
  lemma CutInside(text: string, start: nat, end: nat, x: nat)
    requires start <= end <= |text| && CutAt(text, start) && CutAt(text, end) && CutAt(text[start..end], x)
    ensures CutAt(text, start + x)
  {
  }

  lemma BoundsCut(data: string, count: nat, i: int, start: nat, end: nat)
    requires ProjectBounds(data, count, i) == Some((start, end))
    ensures start <= end <= |data| && CutAt(data, start) && CutAt(data, end)
  {
    hide FindAll, CutAt, IsProjectHeader;
    BoundsInText(data, count, i);
    SpanCuts(IsProjectHeader, data, i);
    if i + 1 < |FindAll(IsProjectHeader, data)| { SpanCuts(IsProjectHeader, data, i + 1); }
    assert CutAt(data, |data|) by { EndCut(data); }
  }

  lemma EndCut(text: string)
    ensures CutAt(text, |text|)
  {
  }

  lemma {:induction false} BasicQuote(t: string)
    requires BasicLength(t).Some?
    ensures 0 < BasicLength(t).value <= |t| && t[BasicLength(t).value - 1] == '"'
  {
    if t[0] == '\\' { BasicQuote(t[2..]); } else if t[0] != '"' { BasicQuote(t[1..]); }
  }

  lemma {:induction false} LiteralQuote(t: string)
    requires LiteralLength(t).Some?
    ensures 0 < LiteralLength(t).value <= |t| && t[LiteralLength(t).value - 1] == '\''
  {
    if t[0] != '\'' { LiteralQuote(t[1..]); }
  }

  /** A field's value stands between two quotes. */
  lemma ValueQuoted(key: string, line: string)
    requires IsFieldLine(key, line)
    ensures var (a, b) := FieldValue(key, line).value; a < b <= |line| && Ascii(line[a]) && Ascii(line[b - 1])
  {
    hide Trailer, KeyAt;
    var body := StripCr(line);
    var at := KeyAt(body).value.1;
    var t := body[at..];
    assert forall k :: 0 <= k < |t| ==> t[k] == line[at + k];
    if t[0] == '"' { BasicQuote(t[1..]); } else { LiteralQuote(t[1..]); }
  }

  lemma AsciiCut(s: string, x: nat)
    requires x <= |s| && ((x < |s| && Ascii(s[x])) || (x > 0 && Ascii(s[x - 1])))
    ensures CutAt(s, x)
  {
  }

  lemma ValueCuts(block: string, key: string, k: nat)
    requires k < |Split(block)| && IsFieldLine(key, Split(block)[k])
    ensures var s := ValueSpan(block, 0, key, k); CutAt(block, s.start) && CutAt(block, s.end)
  {
    hide Split, Join, FieldValue, Offset, CutAt, Ascii;
    var lines := Split(block);
    JoinSplit(block);
    ValueQuoted(key, lines[k]);
    var (a, b) := FieldValue(key, lines[k]).value;
    var o := Offset(lines, k);
    CharacterAt(lines, k, a);
    CharacterAt(lines, k, b - 1);
    AsciiCut(block, o + a);
    AsciiCut(block, o + b);
  }

  // ----- What the editor writes -----

  lemma PieceIsClean(s: string)
    requires s != "" && Writable(s)
    ensures Clean(JsonPiece(s).0)
  {
    PieceNoControl(s);
    DecodedWidth(s);
    var w := DecodeFirst(s).width;
    if JsonPiece(s).0 == s[..w] {
      DecodeTake(s, w);
      assert s[..w][w..] == "";
      assert ValidUtf8(s[..w]);
      assert forall i :: 0 <= i < w ==> s[i] in s;
    } else {
      EscapeIsAscii(s);
      AsciiIsClean(JsonPiece(s).0);
    }
  }

  lemma EscapeIsAscii(s: string)
    requires s != "" && DecodeFirst(s).Scalar? && JsonPiece(s).0 != s[..JsonPiece(s).1]
    ensures CleanAscii(JsonPiece(s).0)
  {
    hide DecodeFirst, CleanAscii;
    var code := DecodeFirst(s).code;
    if JsonShort(code).Some? { ShortIsAscii(code); } else { HexIsAscii(Hex4(code)); }
  }

  lemma ShortIsAscii(code: nat)
    requires JsonShort(code).Some?
    ensures CleanAscii("\\" + [JsonShort(code).value])
  {
  }

  lemma HexIsAscii(h: string)
    requires IsHex(h)
    ensures CleanAscii("\\u" + h)
  {
  }

  lemma WritableTail(s: string)
    requires s != "" && Writable(s)
    ensures Writable(s[JsonPiece(s).1..])
  {
    var rest := s[JsonPiece(s).1..];
    assert forall c :: c in rest ==> c in s;
  }

  lemma {:induction false} JsonBodyClean(s: string)
    requires Writable(s)
    ensures Clean(JsonBody(s))
  {
    hide Clean, Writable, JsonPiece;
    if s == "" {
      AsciiIsClean("");
    } else {
      PieceIsClean(s);
      WritableTail(s);
      JsonBodyClean(s[JsonPiece(s).1..]);
      CleanConcat(JsonPiece(s).0, JsonBody(s[JsonPiece(s).1..]));
    }
  }

  lemma JsonStringClean(s: string)
    requires Writable(s)
    ensures Clean(JsonString(s))
  {
    hide Clean, Writable, JsonBody;
    JsonBodyClean(s);
    AsciiIsClean("\"");
    CleanConcat("\"", JsonBody(s));
    CleanConcat("\"" + JsonBody(s), "\"");
  }

  lemma {:induction false} JsonItemsClean(argv: seq<string>)
    requires argv != [] && forall i :: 0 <= i < |argv| ==> Writable(argv[i])
    ensures Clean(JsonItems(argv))
  {
    hide Clean, Writable, JsonString;
    JsonStringClean(argv[0]);
    if |argv| > 1 {
      JsonItemsClean(argv[1..]);
      AsciiIsClean(",");
      CleanConcat(JsonString(argv[0]), ",");
      CleanConcat(JsonString(argv[0]) + ",", JsonItems(argv[1..]));
    }
  }

  lemma JsonArrayClean(argv: seq<string>)
    requires argv != [] && forall i :: 0 <= i < |argv| ==> Writable(argv[i])
    ensures Clean(JsonArray(argv))
  {
    hide Clean, Writable, JsonItems;
    JsonItemsClean(argv);
    AsciiIsClean("[");
    AsciiIsClean("]");
    CleanConcat("[", JsonItems(argv));
    CleanConcat("[" + JsonItems(argv), "]");
  }

  lemma NewlineClean(data: string)
    ensures Clean(Newline(data)) && Clean(Cr(data))
  {
    AsciiIsClean(Cr(data));
    AsciiIsClean(Newline(data));
  }

  lemma ApprovalValueClean(approval: string)
    requires PlainWord(approval)
    ensures Clean("\"" + approval + "\"") && Clean(ApprovalLine(approval))
  {
    AsciiIsClean("\"" + approval + "\"");
    AsciiIsClean(ApprovalLine(approval));
  }

  // ----- The splices -----

  lemma ReplaceValueClean(data: string, start: nat, end: nat, key: string, w: string)
    requires Clean(data) && Clean(w) && start <= end <= |data| && CutAt(data, start) && CutAt(data, end)
    requires |FieldHits(key, data[start..end])| == 1
    ensures Clean(ReplaceValue(data, start, end, key, w))
  {
    hide Clean, CutAt, FieldHits, Split, IsFieldLine, ReplaceSpan, FieldValue, Offset;
    var block := data[start..end];
    var k := FieldHits(key, block)[0];
    ValueCuts(block, key, k);
    var s := ValueSpan(block, 0, key, k);
    CutInside(data, start, end, s.start);
    CutInside(data, start, end, s.end);
    CleanSplice(data, start + s.start, start + s.end, w);
  }

  lemma ReplaceFieldClean(data: string, count: nat, i: int, key: string, v: string, u: string)
    requires Clean(data) && Writable(v) && ReplaceField(data, count, i, key, v) == Some(u)
    ensures Clean(u)
  {
    hide Clean, Writable, JsonString, ProjectBounds, FieldHits, ReplaceValue, CutAt;
    var (start, end) := ProjectBounds(data, count, i).value;
    BoundsCut(data, count, i, start, end);
    JsonStringClean(v);
    ReplaceValueClean(data, start, end, key, JsonString(v));
  }

  lemma InsertLineClean(data: string, at: nat, text: string)
    requires Clean(data) && Clean(text) && CutAt(data, at)
    ensures Clean(InsertLine(data, at, text))
  {
    hide Clean, Newline;
    var lead := if at > 0 && data[at - 1] != '\n' then Newline(data) else "";
    NewlineClean(data);
    AsciiIsClean("");
    CleanConcat(lead, text);
    CleanSplice(data, at, at, lead + text);
  }

  lemma ReplaceApprovalClean(data: string, count: nat, i: int, approval: string, u: string)
    requires Clean(data) && PlainWord(approval) && ReplaceApproval(data, count, i, approval) == Some(u)
    ensures Clean(u)
  {
    hide Clean, PlainWord, ProjectBounds, FieldHits, ReplaceValue, CutAt, InsertLine, ApprovalInsertAt, Newline,
         ApprovalLine;
    var (start, end) := ProjectBounds(data, count, i).value;
    BoundsCut(data, count, i, start, end);
    ApprovalValueClean(approval);
    if |FieldHits("approval", data[start..end])| == 1 {
      ReplaceValueClean(data, start, end, "approval", "\"" + approval + "\"");
    } else {
      NewlineClean(data);
      CleanConcat(ApprovalLine(approval), Newline(data));
      InsertAtCut(data, start, end);
      InsertLineClean(data, ApprovalInsertAt(data[start..end], start), ApprovalLine(approval) + Newline(data));
    }
  }

  lemma InsertAtCut(data: string, start: nat, end: nat)
    requires start <= end <= |data| && CutAt(data, start) && CutAt(data, end)
    ensures CutAt(data, ApprovalInsertAt(data[start..end], start))
  {
    hide CutAt, FindAll, IsAllowHeader;
    var block := data[start..end];
    if FindAll(IsAllowHeader, block) != [] {
      SpanCuts(IsAllowHeader, block, 0);
      CutInside(data, start, end, FindAll(IsAllowHeader, block)[0].start);
    }
  }

  lemma EntryTextClean(argv: seq<string>, newline: string)
    requires AllWritable(argv) && Clean(newline)
    ensures Clean(AllowEntryText(argv, newline))
  {
    hide Clean, Writable, JsonArray;
    JsonArrayClean(argv);
    AsciiIsClean("  [[projects.allow]]");
    AsciiIsClean("  argv = ");
    CleanConcat("  [[projects.allow]]", newline);
    CleanConcat("  [[projects.allow]]" + newline, "  argv = ");
    CleanConcat("  [[projects.allow]]" + newline + "  argv = ", JsonArray(argv));
    CleanConcat("  [[projects.allow]]" + newline + "  argv = " + JsonArray(argv), newline);
  }

  lemma InsertAllowClean(data: string, count: nat, i: int, allowCount: nat, argv: seq<string>, u: string)
    requires Clean(data) && AllWritable(argv) && InsertAllow(data, count, i, allowCount, argv) == Some(u)
    ensures Clean(u)
  {
    hide Clean, Writable, ProjectBounds, FindAll, CutAt, InsertLine, AllowEntryText, Newline;
    var (start, end) := ProjectBounds(data, count, i).value;
    BoundsCut(data, count, i, start, end);
    NewlineClean(data);
    EntryTextClean(argv, Newline(data));
    InsertLineClean(data, end, AllowEntryText(argv, Newline(data)));
  }

  lemma PairClean(key: string, v: string, cr: string)
    requires CleanAscii(key) && Writable(v) && Clean(cr)
    ensures Clean(key + JsonString(v) + cr)
  {
    hide Clean, Writable, JsonString;
    AsciiIsClean(key);
    JsonStringClean(v);
    CleanConcat(key, JsonString(v));
    CleanConcat(key + JsonString(v), cr);
  }

  lemma ProjectLinesClean(p: Config.Project, cr: string)
    requires WritableProject(p) && Clean(cr)
    ensures AllClean(NewProjectLines(p, cr))
  {
    hide Clean, Writable, JsonString, PlainWord, ApprovalLine;
    PairClean("alias = ", p.alias, cr);
    PairClean("bws_project_id = ", p.bwsProjectId, cr);
    PairClean("token_entry = ", p.tokenEntry, cr);
    PairClean("working_dir = ", p.workingDir, cr);
    AsciiIsClean("[[projects]]");
    CleanConcat("[[projects]]", cr);
    DefaultApprovalClean();
    CleanConcat(ApprovalLine(Config.ApprovalAllowlistedPrompt), cr);
  }

  lemma DefaultApprovalClean()
    ensures Clean(ApprovalLine(Config.ApprovalAllowlistedPrompt))
  {
    ApprovalValueClean(Config.ApprovalAllowlistedPrompt);
  }

  lemma AppendProjectClean(data: string, p: Config.Project)
    requires Clean(data) && WritableProject(p)
    ensures Clean(AppendProject(data, p))
  {
    hide Clean, WritableProject, Newline, Cr, NewProjectLines, Terminated, EndsWith, AllClean;
    var newline := Newline(data);
    NewlineClean(data);
    ProjectLinesClean(p, Cr(data));
    CleanLines(NewProjectLines(p, Cr(data)));
    var ended := if data != "" && !EndsWith(data, newline) then data + newline else data;
    var spaced := if ended != "" && !EndsWith(ended, newline + newline) then ended + newline else ended;
    CleanConcat(data, newline);
    CleanConcat(ended, newline);
    CleanConcat(spaced, Terminated(NewProjectLines(p, Cr(data))));
  }

  lemma RemoveProjectClean(data: string, count: nat, i: int, u: string)
    requires Clean(data) && RemoveProject(data, count, i) == Some(u)
    ensures Clean(u)
  {
    hide Clean, FindAll, CutAt, IsProjectHeader;
    var headers := FindAll(IsProjectHeader, data);
    SpansInText(IsProjectHeader, data);
    var end := if i + 1 < |headers| then headers[i + 1].start else |data|;
    SpanCuts(IsProjectHeader, data, i);
    if i + 1 < |headers| { SpanCuts(IsProjectHeader, data, i + 1); }
    EndCut(data);
    CutBounds(data, headers[i].start);
    CleanCut(data, headers[i].start);
    CleanCut(data, end);
    CleanConcat(data[..headers[i].start], data[end..]);
  }

  lemma CutBounds(data: string, x: nat)
    requires CutAt(data, x)
    ensures x <= |data|
  {
  }

  // ----- Removing entries -----

  predicate SpansCut(data: string, spans: seq<Span>) {
    forall i :: 0 <= i < |spans| ==> CutAt(data, spans[i].start) && CutAt(data, spans[i].end)
  }

  lemma {:induction false} CutClean(data: string, cursor: nat, spans: seq<Span>, u: string)
    requires Clean(data) && CutAt(data, cursor) && SpansCut(data, spans) && Cut(data, cursor, spans) == Some(u)
    ensures Clean(u)
    decreases |spans|
  {
    hide Clean, CutAt;
    CutBounds(data, cursor);
    if spans == [] {
      CleanCut(data, cursor);
    } else {
      CutBounds(data, spans[0].start);
      CutClean(data, spans[0].end, spans[1..], Cut(data, spans[0].end, spans[1..]).value);
      CleanPiece(data, cursor, spans[0].start);
      CleanConcat(data[cursor..spans[0].start], Cut(data, spans[0].end, spans[1..]).value);
    }
  }

  lemma ConsumedCut(data: string, x: nat)
    requires CutAt(data, x)
    ensures CutAt(data, ConsumeNewline(data, x))
  {
  }

  /** The section of an allow table starts and ends at cuts of the block. */
  lemma SectionCut(block: string, index: nat)
    requires index < |FindAll(IsAllowHeader, block)|
    ensures var (from, upto) := SectionBounds(block, FindAll(IsAllowHeader, block), index);
            from <= upto <= |block| && CutAt(block, from) && CutAt(block, upto)
  {
    hide FindAll, CutAt, IsAllowHeader;
    SectionInBlock(block, index);
    SpanCuts(IsAllowHeader, block, index);
    if index + 1 < |FindAll(IsAllowHeader, block)| { SpanCuts(IsAllowHeader, block, index + 1); }
    EndCut(block);
  }

  lemma ArgvCut(block: string, from: nat, upto: nat)
    requires from <= upto <= |block| && CutAt(block, from) && CutAt(block, upto)
    requires |FindAll(IsArgvLine, block[from..upto])| == 1
    ensures var hit := FindAll(IsArgvLine, block[from..upto])[0];
            CutAt(block, from + hit.start) && CutAt(block, from + hit.end)
  {
    hide FindAll, CutAt, IsArgvLine;
    var hit := FindAll(IsArgvLine, block[from..upto])[0];
    SpanCuts(IsArgvLine, block[from..upto], 0);
    CutInside(block, from, upto, hit.start);
    CutInside(block, from, upto, hit.end);
  }

  lemma EntryCut(data: string, start: nat, end: nat, index: int, two: seq<Span>)
    requires start <= end <= |data| && CutAt(data, start) && CutAt(data, end)
    requires EntrySpans(data, start, data[start..end], index) == Some(two)
    ensures SpansCut(data, two)
  {
    hide FindAll, CutAt, IsAllowHeader, IsArgvLine, ConsumeNewline, SectionBounds;
    var block := data[start..end];
    var header := FindAll(IsAllowHeader, block)[index];
    SectionCut(block, index);
    var (from, upto) := SectionBounds(block, FindAll(IsAllowHeader, block), index);
    SpanCuts(IsAllowHeader, block, index);
    ArgvCut(block, from, upto);
    var hit := FindAll(IsArgvLine, block[from..upto])[0];
    CutInside(data, start, end, from + hit.start);
    CutInside(data, start, end, from + hit.end);
    CutInside(data, start, end, header.start);
    CutInside(data, start, end, header.end);
    ConsumedCut(data, start + header.end);
    ConsumedCut(data, start + from + hit.end);
  }

  lemma {:induction false} EntriesCut(data: string, start: nat, end: nat, remove: seq<int>, spans: seq<Span>)
    requires start <= end <= |data| && CutAt(data, start) && CutAt(data, end)
    requires AllSpans(data, start, data[start..end], remove) == Some(spans)
    ensures SpansCut(data, spans)
  {
    hide CutAt, EntrySpans;
    if remove != [] {
      var front := remove[..|remove| - 1];
      EntriesCut(data, start, end, front, AllSpans(data, start, data[start..end], front).value);
      EntryCut(data, start, end, remove[|remove| - 1],
               EntrySpans(data, start, data[start..end], remove[|remove| - 1]).value);
    }
  }

  lemma RemoveAllowClean(data: string, count: nat, i: int, allowCount: nat, remove: seq<int>, u: string)
    requires Clean(data) && RemoveAllow(data, count, i, allowCount, remove) == Some(u)
    ensures Clean(u)
  {
    hide Clean, ProjectBounds, FindAll, AllSpans, Cut, SpansCut;
    var (start, end) := ProjectBounds(data, count, i).value;
    BoundsCut(data, count, i, start, end);
    var spans := AllSpans(data, start, data[start..end], remove).value;
    EntriesCut(data, start, end, remove, spans);
    CutClean(data, 0, spans, u);
  }
}
