/**
 replaceApproval of internal/admin/policy.go.

 The function looks for approval lines in the whole block, other tables included, and puts a
 missing line before the first allow table or at the end of the block. It therefore sets the
 project's approval mode exactly when the line it rewrites is the project's own, or no other
 table stands before the place where it inserts one; `ReplaceApprovalExact` proves both
 directions. In the remaining cases no project changes, so the caller's comparison with the
 intended configuration refuses the edit, as long as the table that got the line can be read.
 */
module ApprovalCommutes {
  import opened Basics
  import opened Text
  import opened TomlStrings
  import opened Layout
  import opened Splice
  import opened Reading
  import opened BlockReading
  import opened EntryReading
  import opened DocReading
  import opened Commutes

  // ----- Where a missing approval line goes -----

  /** The number of lines before the first allow table. */
  function FirstAllow(body: seq<string>): (k: nat)
    ensures k <= |body|
    ensures k < |body| ==> IsAllowHeader(body[k])
    ensures forall j :: 0 <= j < k ==> !IsAllowHeader(body[j])
  {
    if body == [] || IsAllowHeader(body[0]) then 0
    else
      var k := FirstAllow(body[1..]);
      assert forall j :: 1 <= j < k + 1 ==> body[j] == body[1..][j - 1];
      k + 1
  }

  lemma FirstHit(lines: seq<string>, k: nat, base: nat)
    requires k < |lines| && IsAllowHeader(lines[k]) && forall j :: 0 <= j < k ==> !IsAllowHeader(lines[j])
    ensures Hits(IsAllowHeader, lines, base) != [] && Hits(IsAllowHeader, lines, base)[0] == base + k
  {
    hide IsAllowHeader;
    assert lines == lines[..k] + lines[k..];
    HitsConcat(IsAllowHeader, lines[..k], lines[k..], base);
    NoHits(IsAllowHeader, lines[..k], base);
    assert lines[k..][0] == lines[k];
  }

  lemma NotAllowHeader()
    ensures !IsAllowHeader("")
  {
  }

  /** The insertion point inside a block, in terms of its lines. */
  lemma InsertPoint(body: seq<string>, last: bool, start: nat)
    requires AllNewlineless(body)
    ensures var k := FirstAllow(body);
            ApprovalInsertAt(BlockBody(body, last), start)
            == (if k < |body| then start + Offset(Inner(body, last), k + 1) else start + |BlockBody(body, last)|)
  {
    hide IsAllowHeader, BlockBody, Split, Offset, Hits;
    var k, lines := FirstAllow(body), Inner(body, last);
    InnerSplit(body, last);
    NotAllowHeader();
    if k < |body| {
      assert lines[k + 1] == body[k];
      assert forall j :: 1 <= j < k + 1 ==> lines[j] == body[j - 1];
      FirstHit(lines, k + 1, 0);
    } else {
      assert forall j :: 1 <= j < |body| + 1 ==> lines[j] == body[j - 1];
      NoHits(IsAllowHeader, lines, 0);
    }
  }

  lemma InsertInBody(body: seq<string>, last: bool, k: nat, line: string, o: nat)
    requires k < |body| && o == Offset(Inner(body, last), k + 1)
    ensures 0 < o <= |BlockBody(body, last)| && BlockBody(body, last)[o - 1] == '\n'
    ensures BlockBody(body, last)[..o] + (line + "\n") + BlockBody(body, last)[o..]
            == BlockBody(body[..k] + [line] + body[k..], last)
  {
    hide BlockBody, Join, Terminated, Offset, Inner;
    var lines := Inner(body, last);
    InnerAt(body, last, k);
    InnerText(body, last);
    InsertLines(lines, k + 1, [line]);
    TerminatedOne(line);
    InnerInserted(body, last, k, line);
    InnerText(body[..k] + [line] + body[k..], last);
    LineAt(lines, k);
    OffsetStep(lines, k);
  }

  /** Inserting a line before line k of the body. */
  lemma InsertBeforeLine(data: string, before: string, body: seq<string>, last: bool, after: string, k: nat,
                         line: string)
    requires data == before + (BlockBody(body, last) + after) && k < |body|
    ensures |before| + Offset(Inner(body, last), k + 1) <= |data|
    ensures InsertLine(data, |before| + Offset(Inner(body, last), k + 1), line + "\n")
            == before + (BlockBody(body[..k] + [line] + body[k..], last) + after)
  {
    hide BlockBody, Offset, Inner;
    InnerAt(body, last, k);
    var o, text := Offset(Inner(body, last), k + 1), BlockBody(body, last);
    InsertInBody(body, last, k, line, o);
    MidCharacter(before, text, after, o - 1);
    ReplaceInMiddle(before, text, after, o, o, line + "\n");
    assert "" + (line + "\n") == line + "\n";
  }

  lemma MidCharacter(before: string, text: string, after: string, j: nat)
    requires j < |text|
    ensures (before + (text + after))[|before| + j] == text[j]
  {
  }

  lemma InnerInserted(body: seq<string>, last: bool, k: nat, line: string)
    requires k < |body|
    ensures Inner(body, last)[..k + 1] + [line] + Inner(body, last)[k + 1..]
            == Inner(body[..k] + [line] + body[k..], last)
  {
    var tail := if last then [] else [""];
    assert Inner(body, last)[..k + 1] == [""] + body[..k];
    assert Inner(body, last)[k + 1..] == body[k..] + tail;
  }

  // ----- The line itself -----

  function ApprovalLines(approval: string, cr: string): seq<string> { [ApprovalLine(approval) + cr] }

  lemma ApprovalJson(approval: string)
    requires PlainWord(approval)
    ensures "\"" + approval + "\"" == JsonString(approval) && Writable(approval)
  {
    PlainJson(approval);
  }

  lemma ApprovalSpelled(approval: string, json: string)
    requires json == "\"" + approval + "\""
    ensures "approval" + " = " + json == ApprovalLine(approval)
  {
  }

  lemma ApprovalMeans(approval: string, cr: string)
    requires PlainWord(approval) && CrOrNothing(cr)
    ensures Classify(ApprovalLine(approval) + cr) == Field(Approval, approval)
    ensures GoodLines(ApprovalLines(approval, cr))
  {
    hide Classify, IsProjectHeader, JsonString, Writable, Newlineless, ApprovalLine, PlainWord;
    ApprovalJson(approval);
    ApprovalSpelled(approval, JsonString(approval));
    WrittenFieldLine(Approval, approval, cr);
  }

  /** Where the line goes: before the first allow table, or at the end. */
  function ApprovalBlock(b: Block, last: bool, cr: string, approval: string): Block {
    var k := FirstAllow(b.body);
    if k < |b.body| then Block(b.header, b.body[..k] + ApprovalLines(approval, cr) + b.body[k..])
    else EndInsert(b, last, cr, ApprovalLines(approval, cr))
  }

  lemma ApprovalBlockText(data: string, before: string, b: Block, last: bool, after: string, approval: string)
    requires data == (before + b.header) + (BlockBody(b.body, last) + after)
    requires Newlineless(b.header) && b.header != "" && AllNewlineless(b.body) && (last ==> after == "")
    ensures var at := ApprovalInsertAt(BlockBody(b.body, last), |before + b.header|);
            var b' := ApprovalBlock(b, last, Cr(data), approval);
            at <= |data| &&
            InsertLine(data, at, ApprovalLine(approval) + Newline(data))
            == (before + b'.header) + (BlockBody(b'.body, last) + after)
  {
    hide BlockBody, ApprovalInsertAt, Terminated, InsertLine, HasCrLf, Cr, FirstAllow, Offset, ApprovalLine;
    var k, line := FirstAllow(b.body), ApprovalLine(approval) + Cr(data);
    Regroup(ApprovalLine(approval), Cr(data), "\n");
    InsertPoint(b.body, last, |before + b.header|);
    TerminatedOne(line);
    if k < |b.body| {
      InsertBeforeLine(data, before + b.header, b.body, last, after, k, line);
    } else {
      EndInsertText(data, before, b, last, after, [line]);
    }
  }

  /** Reading the block with the line added is reading the parts with the line between them. */
  lemma ApprovalBlockRead(b: Block, last: bool, cr: string, approval: string)
    requires CrOrNothing(cr) && (last && b.body != [] ==> !EndsBare(b.body[|b.body| - 1]))
    ensures var k := FirstAllow(b.body);
            ReadBlock(ApprovalBlock(b, last, cr, approval))
            == ReadBody(b.body[..k] + ApprovalLines(approval, cr) + b.body[k..], EmptyBody)
  {
    hide ReadBody, EndInsert, ApprovalLines, FirstAllow;
    var k := FirstAllow(b.body);
    if k == |b.body| {
      EndInsertRead(b, last, cr, ApprovalLines(approval, cr), EmptyBody);
      assert b.body[..k] == b.body && b.body[k..] == [];
      assert b.body + ApprovalLines(approval, cr) + [] == b.body + ApprovalLines(approval, cr);
    }
  }

  lemma ApprovalBlockGood(b: Block, last: bool, cr: string, approval: string)
    requires GoodBlock(b) && CrOrNothing(cr) && PlainWord(approval)
    requires last ==> !EndsBare(if b.body == [] then b.header else b.body[|b.body| - 1])
    ensures GoodBlock(ApprovalBlock(b, last, cr, approval))
  {
    hide IsProjectHeader, EndInsert, FirstAllow, ApprovalLines, GoodLines, PlainWord;
    var added, k := ApprovalLines(approval, cr), FirstAllow(b.body);
    ApprovalMeans(approval, cr);
    if k < |b.body| {
      GoodBlockLines(b);
      LinesBetween(b.body, k, added);
      BlockOfLines(b.header, b.body[..k] + added + b.body[k..]);
    } else {
      EndInsertGood(b, last, cr, added);
    }
  }

  lemma GoodBlockLines(b: Block)
    requires GoodBlock(b)
    ensures GoodLines(b.body) && IsProjectHeader(b.header) && Newlineless(b.header)
  {
  }

  lemma BlockOfLines(header: string, body: seq<string>)
    requires GoodLines(body) && IsProjectHeader(header) && Newlineless(header)
    ensures GoodBlock(Block(header, body))
  {
  }

  lemma LinesBetween(body: seq<string>, k: nat, added: seq<string>)
    requires GoodLines(body) && GoodLines(added) && k <= |body|
    ensures GoodLines(body[..k] + added + body[k..])
  {
    hide IsProjectHeader, Newlineless;
  }

  // ----- When the inserted line is the project's -----

  predicate NoTables(lines: seq<string>) {
    forall i :: 0 <= i < |lines| ==> Classify(lines[i]) != Table
  }

  lemma UntabledPrefix(body: seq<string>)
    requires NoTables(body[..FirstAllow(body)])
    ensures Untabled(body[..FirstAllow(body)])
  {
    hide Classify, IsAllowHeader;
    forall j | 0 <= j < FirstAllow(body) ensures Classify(body[j]) != AllowHeader {
      AllowHeaderKind(body[j]);
    }
  }

  lemma InsertedIsOwn(body: seq<string>, line: string, v: string)
    requires ReadBody(body, EmptyBody).Some? && !Has(ReadBody(body, EmptyBody).value, Approval)
    requires Classify(line) == Field(Approval, v) && NoTables(body[..FirstAllow(body)])
    ensures var k := FirstAllow(body);
            ReadBody(body[..k] + [line] + body[k..], EmptyBody)
            == Some(Put(ReadBody(body, EmptyBody).value, Approval, v))
  {
    hide Classify, FirstAllow, Step, Has, NoTables, Untabled;
    var k := FirstAllow(body);
    UntabledPrefix(body);
    ReadPrefix(body, k, EmptyBody);
    StaysInProject(body[..k], EmptyBody);
    assert body[..k] + body[k..] == body;
    ReadInserted(body[..k], body[k..], EmptyBody, line, Approval, v);
  }

  // ----- When it is not -----

  lemma StepTable(st: Body, line: string)
    requires Step(st, line).Some? && Classify(line) != AllowHeader
    ensures st.section == InTable || Classify(line) == Table ==> Step(st, line).value.section == InTable
  {
    hide Classify, StripCr;
  }

  /** After another table's header, and before any allow table, the reading is in that table. */
  lemma {:induction false} EndsInTable(lines: seq<string>, st: Body)
    requires ReadBody(lines, st).Some? && (st.section == InTable || !NoTables(lines))
    requires forall i :: 0 <= i < |lines| ==> Classify(lines[i]) != AllowHeader
    ensures ReadBody(lines, st).value.section == InTable
  {
    hide Step, Classify;
    if lines != [] {
      StepTable(st, lines[0]);
      assert NoTables(lines[1..]) && Classify(lines[0]) != Table ==> NoTables(lines) by {
        if NoTables(lines[1..]) && Classify(lines[0]) != Table {
          forall i | 0 <= i < |lines| ensures Classify(lines[i]) != Table {
            if i > 0 { assert lines[i] == lines[1..][i - 1]; }
          }
        }
      }
      EndsInTable(lines[1..], Step(st, lines[0]).value);
    }
  }

  lemma StepRest(st: Body, rest: seq<string>, line: string)
    ensures Step(st.(rest := rest), line).Some? <==> Step(st, line).Some?
    ensures Step(st, line).Some? ==>
              var a, b := Step(st.(rest := rest), line).value, Step(st, line).value;
              a.project == b.project && a.section == b.section
  {
    hide Classify, StripCr;
  }

  /** What other tables have collected does not influence the project. */
  lemma {:induction false} ReadRest(lines: seq<string>, st: Body, st': Body)
    requires st'.project == st.project && st'.section == st.section
    ensures ReadBody(lines, st').Some? <==> ReadBody(lines, st).Some?
    ensures ReadBody(lines, st).Some? ==> ReadBody(lines, st').value.project == ReadBody(lines, st).value.project
  {
    hide Step;
    if lines != [] {
      StepRest(st, st'.rest, lines[0]);
      assert st.(rest := st'.rest) == st';
      if Step(st, lines[0]).Some? { ReadRest(lines[1..], Step(st, lines[0]).value, Step(st', lines[0]).value); }
    }
  }

  lemma StepInTable(st: Body, line: string)
    requires st.section == InTable && Classify(line) != AllowHeader
    ensures Step(st, line).Some? && Step(st, line).value.project == st.project
    ensures Step(st, line).value.section == InTable
  {
    hide Classify, StripCr;
  }

  /** A line added inside another table leaves the project as it was. */
  lemma AddedInTable(a: seq<string>, line: string, b: seq<string>, st: Body)
    requires ReadBody(a + b, st).Some? && ReadBody(a, st).Some? && ReadBody(a, st).value.section == InTable
    requires Classify(line) != AllowHeader
    ensures ReadBody(a + [line] + b, st).Some?
    ensures ReadBody(a + [line] + b, st).value.project == ReadBody(a + b, st).value.project
  {
    hide Classify, Step;
    ReadBodyConcat(a, b, st);
    ReadBodyConcat(a + [line], b, st);
    ReadBodyConcat(a, [line], st);
    var mid := ReadBody(a, st).value;
    StepInTable(mid, line);
    ReadOne(mid, line);
    ReadRest(b, mid, Step(mid, line).value);
  }

  lemma InsertedIsNotOwn(body: seq<string>, line: string, v: string)
    requires ReadBody(body, EmptyBody).Some? && Classify(line) == Field(Approval, v)
    requires !NoTables(body[..FirstAllow(body)])
    ensures var k := FirstAllow(body);
            ReadBody(body[..k] + [line] + body[k..], EmptyBody).Some?
            && ReadBody(body[..k] + [line] + body[k..], EmptyBody).value.project
               == ReadBody(body, EmptyBody).value.project
  {
    hide Classify, IsAllowHeader, Step, NoTables;
    var k := FirstAllow(body);
    ReadPrefix(body, k, EmptyBody);
    forall j | 0 <= j < k ensures Classify(body[j]) != AllowHeader { AllowHeaderKind(body[j]); }
    EndsInTable(body[..k], EmptyBody);
    assert body[..k] + body[k..] == body;
    AddedInTable(body[..k], line, body[k..], EmptyBody);
  }

  // ----- Rewriting an approval line of another table -----

  lemma KeyStart(line: string)
    requires KeyAt(line).Some?
    ensures SkipBlanks(line) != "" && KeyChar(SkipBlanks(line)[0])
  {
    var x, k, y, z, rest := PairOfKeyAt(line);
    KeyAtPair(x, k, y, z, rest);
    FirstKey(k);
    hide SkipBlanks, KeyAt, AllKey, AllBlank;
    assert (k + (y + ("=" + (z + rest))))[0] == k[0];
  }

  lemma KeyStartNotHeader(line: string)
    requires SkipBlanks(StripCr(line)) != "" && KeyChar(SkipBlanks(StripCr(line))[0])
    ensures Classify(line) != AllowHeader && Classify(line) != Blank && Classify(line) != Table
  {
    hide SkipBlanks, StripCr, ClassifyPair;
    if '\r' !in StripCr(line) {
      PairIsClassified(line);
      NotTableKind(line);
    }
  }

  lemma NotTableKind(line: string)
    ensures ClassifyPair(line) != AllowHeader && ClassifyPair(line) != Blank && ClassifyPair(line) != Table
  {
    hide KeyAt, FieldValue, ReadString, ReadArray, StripCr, Trailer;
  }

  /** A line matching the approval pattern is a field line of that key, or unreadable. */
  lemma ApprovalLineKind(line: string)
    requires IsFieldLine("approval", line)
    ensures Classify(line) == Other || (Classify(line).Field? && Classify(line).key == Approval)
  {
    var body := StripCr(line);
    KeyStart(body);
    KeyStartNotHeader(line);
    if '\r' !in body {
      PairIsClassified(line);
      hide KeyAt, SkipBlanks, StripCr, ReadString, ReadArray, QuotedLength, Trailer, Classify;
    }
  }

  lemma RewrittenKind(line: string, v: string)
    requires IsFieldLine("approval", line)
    ensures Classify(WithValue(line, "approval", v)) != AllowHeader
  {
    JsonQuotes(v);
    var body, json := StripCr(line), JsonString(v);
    var (a, b) := FieldValue("approval", line).value;
    assert KeyAt(body).Some? && KeyAt(body).value.1 == a by { hide KeyAt, SkipBlanks, StripCr, QuotedLength, Trailer; }
    hide KeyAt, SkipBlanks, StripCr, FieldValue, JsonString, Classify;
    StripReplaced(line, a, b, json);
    KeyAtSamePrefix(body, json + body[b..]);
    Regroup(body[..a], json, body[b..]);
    KeyStartNotHeader(WithValue(line, "approval", v));
  }

  /** If reading the line did not give the project an approval, the line stands in another table. */
  lemma NotOwnInTable(st: Body, line: string)
    requires Step(st, line).Some? && IsFieldLine("approval", line) && !Has(Step(st, line).value, Approval)
    ensures st.section == InTable
  {
    ApprovalLineKind(line);
    hide Classify, StripCr, IsFieldLine;
  }

  lemma SplitAtLineNumber(lines: seq<string>, k: nat, line: string)
    requires k < |lines|
    ensures lines == lines[..k] + [lines[k]] + lines[k + 1..]
    ensures lines[k := line] == lines[..k] + [line] + lines[k + 1..]
  {
  }

  lemma ReadThree(a: seq<string>, line: string, b: seq<string>, st: Body)
    requires ReadBody(a + [line] + b, st).Some?
    ensures ReadBody(a, st).Some? && Step(ReadBody(a, st).value, line).Some?
    ensures ReadBody(b, Step(ReadBody(a, st).value, line).value) == ReadBody(a + [line] + b, st)
  {
    hide Step;
    ReadBodyConcat(a + [line], b, st);
    ReadBodyConcat(a, [line], st);
    if ReadBody(a, st).Some? { ReadOne(ReadBody(a, st).value, line); }
  }

  lemma ReadThreeFrom(a: seq<string>, line: string, b: seq<string>, st: Body)
    requires ReadBody(a, st).Some? && Step(ReadBody(a, st).value, line).Some?
    ensures ReadBody(a + [line] + b, st) == ReadBody(b, Step(ReadBody(a, st).value, line).value)
  {
    hide Step;
    ReadBodyConcat(a + [line], b, st);
    ReadBodyConcat(a, [line], st);
    ReadOne(ReadBody(a, st).value, line);
  }

  lemma RewrittenIsNotOwn(lines: seq<string>, k: nat, v: string)
    requires ReadBody(lines, EmptyBody).Some? && !Has(ReadBody(lines, EmptyBody).value, Approval)
    requires k < |lines| && IsFieldLine("approval", lines[k])
    ensures var lines' := lines[k := WithValue(lines[k], "approval", v)];
            ReadBody(lines', EmptyBody).Some?
            && ReadBody(lines', EmptyBody).value.project == ReadBody(lines, EmptyBody).value.project
  {
    hide Classify, Step, IsFieldLine, Has, ReadBody, WithValue;
    var a, l, b, line' := lines[..k], lines[k], lines[k + 1..], WithValue(lines[k], "approval", v);
    SplitAtLineNumber(lines, k, line');
    ReadThree(a, l, b, EmptyBody);
    var mid := ReadBody(a, EmptyBody).value;
    if Has(Step(mid, l).value, Approval) { ReadKeeps(b, Step(mid, l).value, Approval); }
    NotOwnInTable(mid, l);
    ApprovalLineKind(l);
    RewrittenKind(l, v);
    StepInTable(mid, l);
    StepInTable(mid, line');
    ReadThreeFrom(a, line', b, EmptyBody);
    ReadRest(b, Step(mid, l).value, Step(mid, line').value);
  }

  // ----- The result -----

  /** The line rewritten is the project's own, or a new one would land in the project's own table. */
  predicate OwnApproval(data: string, i: nat)
    requires ReadText(data).Some? && i < |ReadText(data).value.projects|
  {
    var r, blocks := ReadText(data).value, DocOf(data).blocks;
    i < |blocks| &&
    (Approval in r.projects[i].fields
     || (NoTables(blocks[i].body[..FirstAllow(blocks[i].body)])
         && FieldHits("approval", BodyText(DocOf(data), i)) == []))
  }

  lemma HitsNone(body: seq<string>, last: bool, j: nat)
    requires AllNewlineless(body) && FieldHits("approval", BlockBody(body, last)) == [] && j < |body|
    ensures !IsFieldLine("approval", body[j])
  {
    hide IsFieldLine, BlockBody, Split, Hits;
    InnerSplit(body, last);
    if IsFieldLine("approval", body[j]) {
      assert Inner(body, last)[j + 1] == body[j];
      HitsComplete(FieldPattern("approval"), Inner(body, last), 0, j + 1);
      assert false;
    }
  }

  lemma NoHitsNoApproval(b: Block, last: bool)
    requires ReadBlock(b).Some? && AllNewlineless(b.body) && FieldHits("approval", BlockBody(b.body, last)) == []
    ensures !Has(ReadBlock(b).value, Approval)
  {
    hide IsFieldLine, BlockBody, FieldHits, Step;
    if Has(ReadBlock(b).value, Approval) {
      SomeLineSets(b.body, EmptyBody, Approval);
      var j :| 0 <= j < |b.body| && IsFieldLine("approval", b.body[j]);
      HitsNone(b.body, last, j);
    }
  }

  /** An edit of a block that leaves its project as it was leaves all projects as they were. */
  lemma ProjectsKept(data: string, i: nat, b: Block, u: string)
    requires ReadText(data).Some? && i < |DocOf(data).blocks|
    requires DocOf(u) == WithBlock(DocOf(data), i, b) && !EndsBare(u)
    requires ReadBlock(DocOf(data).blocks[i]).Some? && ReadBlock(b).Some?
    requires ReadBlock(b).value.project == ReadBlock(DocOf(data).blocks[i]).value.project
    ensures SameProjects(data, u)
  {
    hide DocOf, ReadDoc, ReadBlock;
    ReadWithProject(DocOf(data), i, b);
  }

  predicate SameProjects(data: string, u: string)
    requires ReadText(data).Some?
  {
    ReadText(u).Some? && ReadText(u).value.projects == ReadText(data).value.projects
  }

  lemma Unset(data: string, i: nat, u: string, approval: string)
    requires ReadText(data).Some? && i < |ReadText(data).value.projects| && SameProjects(data, u)
    requires Approval !in ReadText(data).value.projects[i].fields
    ensures ReadText(u) != Some(WithField(ReadText(data).value, i, Approval, approval))
  {
    hide ReadText;
    var r := ReadText(data).value;
    assert WithField(r, i, Approval, approval).projects[i].fields[Approval] == approval;
  }

  lemma KeyStartNoProject(line: string)
    requires SkipBlanks(StripCr(line)) != "" && KeyChar(SkipBlanks(StripCr(line))[0])
    ensures !IsProjectHeader(line)
  {
    hide SkipBlanks, StripCr;
    var t := SkipBlanks(StripCr(line));
    KeyCharKind(t[0]);
    SameStart(t, "[[projects]]");
  }

  lemma SameStart(t: string, h: string)
    ensures StartsWith(t, h) && h != "" ==> t[0] == h[0]
  {
    if StartsWith(t, h) && h != "" { assert t[..|h|][0] == t[0]; }
  }

  lemma RewrittenGoodLine(line: string, v: string)
    requires IsFieldLine("approval", line) && Newlineless(line)
    ensures !IsProjectHeader(WithValue(line, "approval", v)) && Newlineless(WithValue(line, "approval", v))
  {
    JsonQuotes(v);
    JsonNoControl(v);
    NoControlNoCr(JsonString(v));
    var body, json := StripCr(line), JsonString(v);
    var (a, b) := FieldValue("approval", line).value;
    assert KeyAt(body).Some? && KeyAt(body).value.1 == a by { hide KeyAt, SkipBlanks, StripCr, QuotedLength, Trailer; }
    hide KeyAt, SkipBlanks, StripCr, FieldValue, JsonString, IsProjectHeader;
    StripReplaced(line, a, b, json);
    KeyAtSamePrefix(body, json + body[b..]);
    Regroup(body[..a], json, body[b..]);
    KeyStartNoProject(WithValue(line, "approval", v));
  }

  lemma RewrittenGood(b: Block, k: nat, v: string)
    requires GoodBlock(b) && k < |b.body| && IsFieldLine("approval", b.body[k])
    ensures GoodBlock(Block(b.header, b.body[k := WithValue(b.body[k], "approval", v)]))
  {
    hide IsProjectHeader, IsFieldLine, WithValue;
    assert Newlineless(b.body[k]);
    RewrittenGoodLine(b.body[k], v);
  }

  /** One approval line in the block, but not the project's: the edit goes to another table. */
  lemma RewriteElsewhere(data: string, i: nat, approval: string, start: nat, end: nat)
    requires ReadText(data).Some? && i < |ReadText(data).value.projects| && PlainWord(approval)
    requires ProjectBounds(data, |ReadText(data).value.projects|, i) == Some((start, end)) && start <= end <= |data|
    requires |FieldHits("approval", data[start..end])| == 1 && Approval !in ReadText(data).value.projects[i].fields
    ensures SameProjects(data, ReplaceValue(data, start, end, "approval", JsonString(approval)))
  {
    hide DocOf, JsonString, ReadDoc, TextAfter, BlockBody, FieldHits, ReplaceValue, ProjectBounds, GoodBlock,
         OnlyFieldLine, BodyWith, Terminated, LinesBefore, Step, IsFieldLine, WithValue;
    var d := DocOf(data);
    ReadDocCount(d);
    var from, upto := Selected(data, i);
    var b, last := d.blocks[i], i + 1 == |d.blocks|;
    GoodIsNewlineless(b);
    var u := ReplaceValue(data, start, end, "approval", JsonString(approval));
    var k := ReplaceValueText(data, start, end, b.body, last, TextAfter(d, i), "approval", JsonString(approval));
    OnlyIsField(b.body, "approval", k);
    BodyWithIsWithValue(b.body, "approval", k, approval);
    RewrittenIsNotOwn(b.body, k, approval);
    RewrittenGood(b, k, approval);
    var b' := Block(b.header, b.body[k := WithValue(b.body[k], "approval", approval)]);
    DocOfEdited(data, i, b', u);
    ReplaceValueNotBare(data, start, end, "approval", approval);
    ProjectsKept(data, i, b', u);
  }

  /** No approval line in the block: a new one, read as the project's exactly if no other table stands before it. */
  lemma InsertApproval(data: string, i: nat, approval: string, start: nat, end: nat, u: string)
    requires ReadText(data).Some? && i < |ReadText(data).value.projects| && PlainWord(approval)
    requires ProjectBounds(data, |ReadText(data).value.projects|, i) == Some((start, end)) && start <= end <= |data|
    requires FieldHits("approval", data[start..end]) == []
    requires u == InsertLine(data, ApprovalInsertAt(data[start..end], start), ApprovalLine(approval) + Newline(data))
    ensures Approval !in ReadText(data).value.projects[i].fields
    ensures OwnApproval(data, i) ==> ReadText(u) == Some(WithField(ReadText(data).value, i, Approval, approval))
    ensures !OwnApproval(data, i) ==> SameProjects(data, u)
  {
    hide DocOf, ReadDoc, TextAfter, BlockBody, FieldHits, ProjectBounds, GoodBlock, Terminated, LinesBefore, ReadBody,
         Cr, FirstAllow, ApprovalBlock, InsertLine, ApprovalInsertAt, ApprovalLine, NoTables, PlainWord;
    var d := DocOf(data);
    ReadDocCount(d);
    var from, upto := Selected(data, i);
    var b, last, cr := d.blocks[i], i + 1 == |d.blocks|, Cr(data);
    CrIs(data);
    HeaderNonempty(b);
    if last { LastLineBare(data, i); }
    TextAfterLast(d, i);
    NoHitsNoApproval(b, last);
    ApprovalMeans(approval, cr);
    ApprovalBlockText(data, Terminated(LinesBefore(d, i)), b, last, TextAfter(d, i), approval);
    ApprovalBlockRead(b, last, cr, approval);
    ApprovalBlockGood(b, last, cr, approval);
    var b' := ApprovalBlock(b, last, cr, approval);
    ApprovalNotBare(data, start, end, approval);
    if NoTables(b.body[..FirstAllow(b.body)]) {
      InsertedIsOwn(b.body, ApprovalLine(approval) + cr, approval);
      ReadEdited(data, i, b', u);
    } else {
      InsertedIsNotOwn(b.body, ApprovalLine(approval) + cr, approval);
      DocOfEdited(data, i, b', u);
      ProjectsKept(data, i, b', u);
    }
  }

  lemma ApprovalNotBare(data: string, start: nat, end: nat, approval: string)
    requires start <= end <= |data| && !EndsBare(data)
    ensures !EndsBare(InsertLine(data, ApprovalInsertAt(data[start..end], start),
                                 ApprovalLine(approval) + Newline(data)))
  {
    hide ApprovalInsertAt, InsertLine, Cr, ApprovalLine;
    var line := ApprovalLine(approval) + Cr(data);
    Regroup(ApprovalLine(approval), Cr(data), "\n");
    TerminatedOne(line);
    InsertNotBare(data, ApprovalInsertAt(data[start..end], start), [line]);
  }

  /**
   replaceApproval, when it succeeds, sets the approval mode of the selected project if and
   only if the line it rewrites or inserts belongs to the project's own table; otherwise no
   project changes.
   */
  lemma ReplaceApprovalExact(data: string, i: nat, approval: string, u: string)
    requires ReadText(data).Some? && i < |ReadText(data).value.projects| && PlainWord(approval)
    requires ReplaceApproval(data, |ReadText(data).value.projects|, i, approval) == Some(u)
    ensures ReadText(u) == Some(WithField(ReadText(data).value, i, Approval, approval)) <==> OwnApproval(data, i)
    ensures !OwnApproval(data, i) ==> SameProjects(data, u)
  {
    hide ReadText, JsonString, FieldHits, ReplaceValue, ProjectBounds, Writable, InsertLine, ApprovalInsertAt, DocOf,
         PlainWord, SameProjects;
    var count := |ReadText(data).value.projects|;
    BoundsInText(data, count, i);
    var (start, end) := ProjectBounds(data, count, i).value;
    SameBody(data, i, start, end);
    ApprovalJson(approval);
    if |FieldHits("approval", data[start..end])| == 1 {
      if Approval in ReadText(data).value.projects[i].fields {
        assert SelectedField(data, i, Approval);
        ReplaceValueCommutes(data, i, Approval, approval, start, end);
      } else {
        RewriteElsewhere(data, i, approval, start, end);
        Unset(data, i, u, approval);
      }
    } else {
      InsertApproval(data, i, approval, start, end, u);
      if !OwnApproval(data, i) { Unset(data, i, u, approval); }
    }
  }

  /** replaceApproval fails only on a block that holds several approval lines. */
  lemma ReplaceApprovalSucceeds(data: string, i: nat, approval: string)
    requires ReadText(data).Some? && i < |ReadText(data).value.projects|
    ensures i < |DocOf(data).blocks|
    ensures ReplaceApproval(data, |ReadText(data).value.projects|, i, approval).Some?
            <==> |FieldHits("approval", BodyText(DocOf(data), i))| <= 1
  {
    hide DocOf, ReadDoc, ReadBlock, FieldHits, ReplaceValue, ProjectBounds, BodyText, InsertLine, ApprovalInsertAt,
         GoodBlock;
    ReadDocCount(DocOf(data));
    var from, upto := Selected(data, i);
  }

  lemma SameBody(data: string, i: nat, start: nat, end: nat)
    requires ReadText(data).Some? && i < |ReadText(data).value.projects|
    requires ProjectBounds(data, |ReadText(data).value.projects|, i) == Some((start, end))
    ensures i < |DocOf(data).blocks| && start <= end <= |data| && data[start..end] == BodyText(DocOf(data), i)
  {
    hide DocOf, ReadDoc, ProjectBounds, BodyText;
    ReadDocCount(DocOf(data));
    var from, upto := Selected(data, i);
  }
}
