/**
 The byte splices of internal/admin/policy.go, and where they land.

 Every splice locates lines with `FindAll`, the positions a multi-line regular expression
 reports for a pattern that matches whole lines, and then copies bytes around them. `None`
 is the error return of the Go function.
 */
module Splice {
  import opened Basics
  import opened Text
  import opened TomlStrings
  import opened Layout
  import Config

  datatype Span = Span(start: nat, end: nat)

  /** The numbers of the matching lines, counted from `base`. */
  function Hits(p: string -> bool, lines: seq<string>, base: nat): seq<nat> {
    if lines == [] then []
    else (if p(lines[0]) then [base] else []) + Hits(p, lines[1..], base + 1)
  }

  lemma {:induction false} HitsMatch(p: string -> bool, lines: seq<string>, base: nat)
    ensures forall i :: 0 <= i < |Hits(p, lines, base)| ==>
              base <= Hits(p, lines, base)[i] < base + |lines| && p(lines[Hits(p, lines, base)[i] - base])
  {
    if lines != [] {
      HitsMatch(p, lines[1..], base + 1);
      var rest, all := Hits(p, lines[1..], base + 1), Hits(p, lines, base);
      forall i | 0 <= i < |all| ensures base <= all[i] < base + |lines| && p(lines[all[i] - base]) {
        var j := if p(lines[0]) then i - 1 else i;
        if j >= 0 { assert all[i] == rest[j] && lines[1..][rest[j] - base - 1] == lines[all[i] - base]; }
      }
    }
  }

  lemma {:induction false} HitsSorted(p: string -> bool, lines: seq<string>, base: nat)
    ensures forall i, j :: 0 <= i < j < |Hits(p, lines, base)| ==> Hits(p, lines, base)[i] < Hits(p, lines, base)[j]
  {
    if lines != [] {
      HitsSorted(p, lines[1..], base + 1);
      HitsMatch(p, lines[1..], base + 1);
    }
  }

  lemma {:induction false} HitsComplete(p: string -> bool, lines: seq<string>, base: nat, k: nat)
    requires k < |lines| && p(lines[k])
    ensures base + k in Hits(p, lines, base)
  {
    if k > 0 { HitsComplete(p, lines[1..], base + 1, k - 1); }
  }

  function LineSpan(lines: seq<string>, k: nat): Span
    requires k < |lines|
  {
    Span(Offset(lines, k), Offset(lines, k) + |lines[k]|)
  }

  /** regexp.FindAllIndex for a pattern that matches whole lines. */
  function FindAll(p: string -> bool, text: string): (spans: seq<Span>)
    ensures |spans| == |Hits(p, Split(text), 0)|
  {
    var lines := Split(text);
    var hits := Hits(p, lines, 0);
    HitsMatch(p, lines, 0);
    seq(|hits|, i requires 0 <= i < |hits| => LineSpan(lines, hits[i]))
  }

  // ----- projectBlockBounds and removeProjectSpan -----

  /** From the end of the selected header line to the next header or the end of the file. */
  function ProjectBounds(data: string, count: nat, index: int): Option<(nat, nat)> {
    var headers := FindAll(IsProjectHeader, data);
    if |headers| != count || index < 0 || index >= |headers| then None
    else Some((headers[index].end, if index + 1 < |headers| then headers[index + 1].start else |data|))
  }

  predicate InText(data: string, r: Option<(nat, nat)>) {
    r.Some? ==> r.value.0 <= r.value.1 <= |data|
  }

  function RemoveProject(data: string, count: nat, index: int): Option<string> {
    var headers := FindAll(IsProjectHeader, data);
    if |headers| != count || index < 0 || index >= |headers| then None
    else
      var end := if index + 1 < |headers| then headers[index + 1].start else |data|;
      SpansInText(IsProjectHeader, data);
      Some(data[..headers[index].start] + data[end..])
  }

  lemma SpansInText(p: string -> bool, text: string)
    ensures forall i :: 0 <= i < |FindAll(p, text)| ==>
              FindAll(p, text)[i].start <= FindAll(p, text)[i].end <= |text|
    ensures forall i, j :: 0 <= i < j < |FindAll(p, text)| ==>
              FindAll(p, text)[i].end < FindAll(p, text)[j].start
  {
    var lines := Split(text);
    var hits := Hits(p, lines, 0);
    HitsMatch(p, lines, 0);
    HitsSorted(p, lines, 0);
    JoinSplit(text);
    hide Split, Join, Offset, Hits;
    forall i | 0 <= i < |hits|
      ensures LineSpan(lines, hits[i]).end <= |text|
    {
      LineAt(lines, hits[i]);
    }
    forall i, j | 0 <= i < j < |hits|
      ensures LineSpan(lines, hits[i]).end < LineSpan(lines, hits[j]).start
    {
      OffsetMonotone(lines, hits[i], hits[j]);
    }
  }

  lemma BoundsInText(data: string, count: nat, index: int)
    ensures InText(data, ProjectBounds(data, count, index))
  {
    SpansInText(IsProjectHeader, data);
  }

  // ----- Line endings -----

  predicate HasCrLf(data: string) {
    exists i :: 0 <= i < |data| - 1 && data[i] == '\r' && data[i + 1] == '\n'
  }

  /** The carriage return, if any, the file puts before its newlines. */
  function Cr(data: string): string { if HasCrLf(data) then "\r" else "" }

  function Newline(data: string): string { Cr(data) + "\n" }

  // ----- replaceProjectField and replaceApproval -----

  function FieldPattern(key: string): string -> bool { line => IsFieldLine(key, line) }

  function ReplaceSpan(data: string, start: nat, end: nat, w: string): string
    requires start <= end <= |data|
  {
    data[..start] + w + data[end..]
  }

  /** The span of the value of field `key` in line k of the block that starts at `start`. */
  function ValueSpan(block: string, start: nat, key: string, k: nat): (s: Span)
    requires k < |Split(block)| && IsFieldLine(key, Split(block)[k])
    ensures start <= s.start <= s.end <= start + |block|
  {
    var lines := Split(block);
    var (a, b) := FieldValue(key, lines[k]).value;
    JoinSplit(block);
    LineAt(lines, k);
    Span(start + Offset(lines, k) + a, start + Offset(lines, k) + b)
  }

  /** The lines of the block that are single-line fields of this name. */
  function FieldHits(key: string, block: string): (hits: seq<nat>)
    ensures forall i :: 0 <= i < |hits| ==> hits[i] < |Split(block)| && IsFieldLine(key, Split(block)[hits[i]])
  {
    HitsMatch(FieldPattern(key), Split(block), 0);
    Hits(FieldPattern(key), Split(block), 0)
  }

  /** The block with the value of its only field of this name at `start` replaced. */
  function ReplaceValue(data: string, start: nat, end: nat, key: string, w: string): string
    requires start <= end <= |data| && |FieldHits(key, data[start..end])| == 1
  {
    var block := data[start..end];
    var s := ValueSpan(block, start, key, FieldHits(key, block)[0]);
    ReplaceSpan(data, s.start, s.end, w)
  }

  function ReplaceField(data: string, count: nat, index: int, key: string, value: string): Option<string> {
    BoundsInText(data, count, index);
    match ProjectBounds(data, count, index)
    case None => None
    case Some((start, end)) =>
      if |FieldHits(key, data[start..end])| != 1 then None
      else Some(ReplaceValue(data, start, end, key, JsonString(value)))
  }

  function ApprovalLine(approval: string): string { "approval = \"" + approval + "\"" }

  /** Where a missing approval line goes: before the first allow table of the block, or at its end. */
  function ApprovalInsertAt(block: string, start: nat): (at: nat)
    ensures start <= at <= start + |block|
  {
    var spans := FindAll(IsAllowHeader, block);
    SpansInText(IsAllowHeader, block);
    if spans != [] then start + spans[0].start else start + |block|
  }

  /** Inserts text at a line start, or after completing an unfinished last line. */
  function InsertLine(data: string, at: nat, text: string): string
    requires at <= |data|
  {
    var lead := if at > 0 && data[at - 1] != '\n' then Newline(data) else "";
    ReplaceSpan(data, at, at, lead + text)
  }

  function ReplaceApproval(data: string, count: nat, index: int, approval: string): Option<string> {
    BoundsInText(data, count, index);
    match ProjectBounds(data, count, index)
    case None => None
    case Some((start, end)) =>
      var hits := FieldHits("approval", data[start..end]);
      if |hits| > 1 then None
      else if |hits| == 1 then Some(ReplaceValue(data, start, end, "approval", "\"" + approval + "\""))
      else
        var at := ApprovalInsertAt(data[start..end], start);
        Some(InsertLine(data, at, ApprovalLine(approval) + Newline(data)))
  }

  // ----- insertAllowEntry -----

  function AllowEntryText(argv: seq<string>, newline: string): string
    requires argv != []
  {
    "  [[projects.allow]]" + newline + "  argv = " + JsonArray(argv) + newline
  }

  function InsertAllow(data: string, count: nat, index: int, allowCount: nat, argv: seq<string>): Option<string>
    requires argv != []
  {
    BoundsInText(data, count, index);
    match ProjectBounds(data, count, index)
    case None => None
    case Some((start, end)) =>
      if |FindAll(IsAllowHeader, data[start..end])| != allowCount then None
      else Some(InsertLine(data, end, AllowEntryText(argv, Newline(data))))
  }

  // ----- appendProject -----

  predicate EndsWith(s: string, t: string) { |t| <= |s| && s[|s| - |t|..] == t }

  function NewProjectLines(p: Config.Project, cr: string): seq<string> {
    ["[[projects]]" + cr,
     "alias = " + JsonString(p.alias) + cr,
     "bws_project_id = " + JsonString(p.bwsProjectId) + cr,
     "token_entry = " + JsonString(p.tokenEntry) + cr,
     "working_dir = " + JsonString(p.workingDir) + cr,
     ApprovalLine(Config.ApprovalAllowlistedPrompt) + cr]
  }

  function AppendProject(data: string, p: Config.Project): string {
    var newline := Newline(data);
    var ended := if data != "" && !EndsWith(data, newline) then data + newline else data;
    var spaced := if ended != "" && !EndsWith(ended, newline + newline) then ended + newline else ended;
    spaced + Terminated(NewProjectLines(p, Cr(data)))
  }

  // ----- The place of a block in the text -----

  function LinesBefore(d: Doc, i: nat): seq<string>
    requires i <= |d.blocks|
  {
    d.pre + Flat(d.blocks[..i])
  }

  /** The text between a header line and the next header, or the end of the file. */
  function BlockBody(body: seq<string>, last: bool): string {
    if !last then "\n" + Terminated(body) else if body == [] then "" else "\n" + Join(body)
  }

  function TextAfter(d: Doc, i: nat): string
    requires i < |d.blocks|
  {
    if i + 1 == |d.blocks| then "" else Join(Flat(d.blocks[i + 1..]))
  }

  lemma UngroupAround(d: Doc, i: nat)
    requires i < |d.blocks|
    ensures Ungroup(d) == LinesBefore(d, i) + ([d.blocks[i].header] + d.blocks[i].body + Flat(d.blocks[i + 1..]))
  {
    var b := d.blocks[i];
    assert d.blocks == d.blocks[..i] + ([b] + d.blocks[i + 1..]);
    FlatConcat(d.blocks[..i], [b] + d.blocks[i + 1..]);
    assert ([b] + d.blocks[i + 1..])[1..] == d.blocks[i + 1..];
  }

  lemma JoinBlock(header: string, body: seq<string>, after: seq<string>, last: bool)
    requires last <==> after == []
    ensures Join([header] + body + after)
            == header + (BlockBody(body, last) + (if last then "" else Join(after)))
  {
    if last {
      assert [header] + body + after == [header] + body;
      assert ([header] + body)[1..] == body;
      if body == [] {
        assert header + "" == header;
      } else {
        Regroup(header, "\n", Join(body));
        assert BlockBody(body, true) + "" == BlockBody(body, true);
      }
    } else {
      JoinConcat([header] + body, after);
      assert ([header] + body)[1..] == body;
      assert (header + "\n" + Terminated(body)) + Join(after) == header + (("\n" + Terminated(body)) + Join(after));
    }
  }

  /** The text splits around block i into what precedes its header, header, block and the rest. */
  lemma Geometry(d: Doc, i: nat)
    requires i < |d.blocks|
    ensures TextOf(d) == Terminated(LinesBefore(d, i))
                         + (d.blocks[i].header + (BlockBody(d.blocks[i].body, i + 1 == |d.blocks|) + TextAfter(d, i)))
  {
    var b := d.blocks[i];
    var after := Flat(d.blocks[i + 1..]);
    UngroupAround(d, i);
    JoinConcat(LinesBefore(d, i), [b.header] + b.body + after);
    assert i + 1 == |d.blocks| <==> after == [];
    JoinBlock(b.header, b.body, after, i + 1 == |d.blocks|);
  }

  lemma {:induction false} HitsConcat(p: string -> bool, a: seq<string>, b: seq<string>, base: nat)
    ensures Hits(p, a + b, base) == Hits(p, a, base) + Hits(p, b, base + |a|)
  {
    if a == [] {
      assert a + b == b;
    } else {
      assert (a + b)[1..] == a[1..] + b;
      HitsConcat(p, a[1..], b, base + 1);
      var first := if p(a[0]) then [base] else [];
      var left, right := Hits(p, a[1..], base + 1), Hits(p, b, base + |a|);
      assert first + (left + right) == (first + left) + right;
    }
  }

  lemma {:induction false} NoHits(p: string -> bool, lines: seq<string>, base: nat)
    requires forall k :: 0 <= k < |lines| ==> !p(lines[k])
    ensures Hits(p, lines, base) == []
  {
    if lines != [] { NoHits(p, lines[1..], base + 1); }
  }

  lemma FirstHeader(b: Block, rest: seq<string>, base: nat)
    requires GoodBlock(b)
    ensures Hits(IsProjectHeader, [b.header] + b.body + rest, base)
            == [base] + Hits(IsProjectHeader, rest, base + 1 + |b.body|)
  {
    hide IsProjectHeader;
    HitsConcat(IsProjectHeader, [b.header] + b.body, rest, base);
    HitsConcat(IsProjectHeader, [b.header], b.body, base);
    NoHits(IsProjectHeader, b.body, base + 1);
    assert Hits(IsProjectHeader, [b.header], base) == [base];
  }

  lemma {:induction false} HeaderHits(blocks: seq<Block>, base: nat)
    requires forall i :: 0 <= i < |blocks| ==> GoodBlock(blocks[i])
    ensures |Hits(IsProjectHeader, Flat(blocks), base)| == |blocks|
    ensures forall i :: 0 <= i < |blocks| ==>
              Hits(IsProjectHeader, Flat(blocks), base)[i] == base + |Flat(blocks[..i])|
  {
    if blocks != [] {
      var b, more := blocks[0], blocks[1..];
      assert GoodBlock(b);
      FirstHeader(b, Flat(more), base);
      hide Hits, GoodBlock;
      HeaderHits(more, base + 1 + |b.body|);
      var hits := Hits(IsProjectHeader, Flat(blocks), base);
      forall i | 0 <= i < |blocks| ensures hits[i] == base + |Flat(blocks[..i])| {
        if i > 0 { assert blocks[..i][1..] == more[..i - 1]; }
      }
    }
  }

  /** The header matches of a text are the headers of its blocks, in order. */
  lemma HeadersFound(d: Doc, i: nat)
    requires Grouped(d) && i < |d.blocks|
    ensures |FindAll(IsProjectHeader, TextOf(d))| == |d.blocks|
    ensures FindAll(IsProjectHeader, TextOf(d))[i]
            == Span(|Terminated(LinesBefore(d, i))|, |Terminated(LinesBefore(d, i))| + |d.blocks[i].header|)
  {
    hide IsProjectHeader, Flat, Hits, Split, Terminated;
    FlatNewlineless(d.blocks);
    UngroupAround(d, i);
    SplitJoin(Ungroup(d));
    HitsConcat(IsProjectHeader, d.pre, Flat(d.blocks), 0);
    NoHits(IsProjectHeader, d.pre, 0);
    HeaderHits(d.blocks, |d.pre|);
    var lines := Ungroup(d);
    assert Hits(IsProjectHeader, lines, 0)[i] == |LinesBefore(d, i)|;
    assert lines[..|LinesBefore(d, i)|] == LinesBefore(d, i);
    assert lines[|LinesBefore(d, i)|] == d.blocks[i].header;
  }

  lemma NextHeaderAt(d: Doc, i: nat)
    requires i + 1 < |d.blocks|
    ensures |Terminated(LinesBefore(d, i + 1))|
            == |Terminated(LinesBefore(d, i))| + |d.blocks[i].header| + |BlockBody(d.blocks[i].body, false)|
  {
    var b := d.blocks[i];
    assert d.blocks[..i + 1] == d.blocks[..i] + [b];
    FlatConcat(d.blocks[..i], [b]);
    assert Flat([b]) == [b.header] + b.body;
    assert LinesBefore(d, i + 1) == LinesBefore(d, i) + ([b.header] + b.body);
    TerminatedConcat(LinesBefore(d, i), [b.header] + b.body);
    assert ([b.header] + b.body)[1..] == b.body;
  }

  lemma TextAfterLast(d: Doc, i: nat)
    requires i < |d.blocks|
    ensures i + 1 == |d.blocks| ==> TextAfter(d, i) == ""
  {
  }

  /** projectBlockBounds selects exactly the text of the block. */
  lemma BoundsFound(d: Doc, i: nat)
    requires Grouped(d) && i < |d.blocks|
    ensures var start := |Terminated(LinesBefore(d, i))| + |d.blocks[i].header|;
            ProjectBounds(TextOf(d), |d.blocks|, i)
            == Some((start, start + |BlockBody(d.blocks[i].body, i + 1 == |d.blocks|)|))
  {
    hide IsProjectHeader, Flat, Hits, Split, Terminated, FindAll, BlockBody, TextAfter, LinesBefore, TextOf;
    HeadersFound(d, i);
    Geometry(d, i);
    TextAfterLast(d, i);
    if i + 1 < |d.blocks| {
      HeadersFound(d, i + 1);
      NextHeaderAt(d, i);
    }
  }
}
