/**
 Whole projects: removeProjectSpan and appendProject of internal/admin/policy.go.
 */
module ProjectCommutes {
  import opened Basics
  import opened Text
  import opened TomlStrings
  import opened Layout
  import opened Splice
  import opened Reading
  import opened BlockReading
  import opened DocReading
  import opened Commutes
  import opened ApprovalCommutes
  import Config

  // ----- One more line at the end of a document -----

  function AppendLine(d: Doc, l: string): Doc {
    if d.blocks == [] then Doc(d.pre + [l], [])
    else
      var b := d.blocks[|d.blocks| - 1];
      d.(blocks := d.blocks[|d.blocks| - 1 := Block(b.header, b.body + [l])])
  }

  lemma {:induction false} GroupAppendLine(lines: seq<string>, l: string)
    requires !IsProjectHeader(l)
    ensures Group(lines + [l]) == AppendLine(Group(lines), l)
  {
    hide IsProjectHeader;
    if lines == [] {
      assert lines + [l] == [l] && [l][1..] == [];
    } else {
      assert (lines + [l])[1..] == lines[1..] + [l];
      GroupAppendLine(lines[1..], l);
    }
  }

  lemma {:induction false} GroupAppendHeader(lines: seq<string>, h: string)
    requires IsProjectHeader(h)
    ensures Group(lines + [h]) == Doc(Group(lines).pre, Group(lines).blocks + [Block(h, [])])
  {
    hide IsProjectHeader;
    if lines == [] {
      assert lines + [h] == [h] && [h][1..] == [];
    } else {
      assert (lines + [h])[1..] == lines[1..] + [h];
      GroupAppendHeader(lines[1..], h);
    }
  }

  lemma {:induction false} GroupAppendBlock(lines: seq<string>, h: string, body: seq<string>)
    requires IsProjectHeader(h) && Headerless(body)
    ensures Group(lines + [h] + body) == Doc(Group(lines).pre, Group(lines).blocks + [Block(h, body)])
    decreases |body|
  {
    hide IsProjectHeader;
    if body == [] {
      assert lines + [h] + body == lines + [h];
      GroupAppendHeader(lines, h);
    } else {
      var front, l := body[..|body| - 1], body[|body| - 1];
      assert body == front + [l];
      assert lines + [h] + body == (lines + [h] + front) + [l];
      GroupAppendBlock(lines, h, front);
      GroupAppendLine(lines + [h] + front, l);
    }
  }

  // ----- Reading lists of blocks -----

  lemma {:induction false} ReadBlocksConcat(a: seq<Block>, b: seq<Block>)
    ensures ReadBlocks(a + b) ==
            if ReadBlocks(a).Some? && ReadBlocks(b).Some? then
              Some(Read(ReadBlocks(a).value.rest + ReadBlocks(b).value.rest,
                        ReadBlocks(a).value.projects + ReadBlocks(b).value.projects))
            else None
  {
    hide ReadBlock;
    if a == [] {
      assert a + b == b;
      if ReadBlocks(b).Some? {
        assert [] + ReadBlocks(b).value.rest == ReadBlocks(b).value.rest;
        assert [] + ReadBlocks(b).value.projects == ReadBlocks(b).value.projects;
      }
    } else {
      assert (a + b)[1..] == a[1..] + b;
      ReadBlocksConcat(a[1..], b);
      ConcatHead(a[0], a[1..], b);
    }
  }

  lemma ConcatHead(x: Block, a: seq<Block>, b: seq<Block>)
    ensures ReadBlock(x).Some? && ReadBlocks(a).Some? && ReadBlocks(b).Some? ==>
              var f, ra, rb := ReadBlock(x).value, ReadBlocks(a).value, ReadBlocks(b).value;
              f.rest + (ra.rest + rb.rest) == (f.rest + ra.rest) + rb.rest
              && [f.project] + (ra.projects + rb.projects) == ([f.project] + ra.projects) + rb.projects
  {
  }

  function ReadLines(lines: seq<string>): Option<Read> { ReadDoc(Group(lines)) }

  lemma {:induction false} PreambleAppend(pre: seq<string>, l: string)
    ensures Classify(l) == Blank ==> ReadPreamble(pre + [l]) == ReadPreamble(pre)
  {
    hide Classify, StripCr;
    if pre == [] {
      assert pre + [l] == [l] && [l][1..] == [];
    } else {
      assert (pre + [l])[1..] == pre[1..] + [l];
      PreambleAppend(pre[1..], l);
    }
  }

  lemma {:induction false} PreambleSame(pre: seq<string>, l: string, l': string)
    requires StripCr(l) == StripCr(l') && Classify(l) == Classify(l')
    ensures ReadPreamble(pre + [l]) == ReadPreamble(pre + [l'])
  {
    hide Classify, StripCr;
    if pre == [] {
      assert pre + [l] == [l] && [l][1..] == [] && pre + [l'] == [l'] && [l'][1..] == [];
    } else {
      assert (pre + [l])[1..] == pre[1..] + [l] && (pre + [l'])[1..] == pre[1..] + [l'];
      PreambleSame(pre[1..], l, l');
    }
  }

  lemma ReadLastBlock(blocks: seq<Block>, b: Block, b': Block)
    requires ReadBlock(b) == ReadBlock(b')
    ensures ReadBlocks(blocks + [b]) == ReadBlocks(blocks + [b'])
  {
    hide ReadBlock;
    ReadBlocksConcat(blocks, [b]);
    ReadBlocksConcat(blocks, [b']);
    assert [b][1..] == [] && [b'][1..] == [];
  }

  /** A blank line at the end means nothing. */
  lemma ReadLinesBlank(lines: seq<string>, l: string)
    requires Classify(l) == Blank && !IsProjectHeader(l)
    ensures ReadLines(lines + [l]) == ReadLines(lines)
  {
    hide Classify, IsProjectHeader, ReadBody, Group, ReadPreamble, ReadBlocks;
    GroupAppendLine(lines, l);
    var d := Group(lines);
    if d.blocks == [] {
      PreambleAppend(d.pre, l);
    } else {
      var front, b := d.blocks[..|d.blocks| - 1], d.blocks[|d.blocks| - 1];
      assert d.blocks == front + [b];
      ReadBlankAdded(b.body, l, [], EmptyBody);
      assert b.body + [l] + [] == b.body + [l] && b.body + [] == b.body;
      ReadLastBlock(front, b, Block(b.header, b.body + [l]));
      assert AppendLine(d, l).blocks == front + [Block(b.header, b.body + [l])];
    }
  }

  /** A carriage return added to the last line means nothing. */
  lemma ReadLinesSame(lines: seq<string>, l: string, l': string)
    requires StripCr(l) == StripCr(l')
    ensures ReadLines(lines + [l]) == ReadLines(lines + [l'])
  {
    hide Classify, IsProjectHeader, ReadBody, Group, StripCr, ReadDoc;
    SameBodySameKind(l, l');
    if IsProjectHeader(l) {
      SameHeaderLast(lines, l, l');
    } else {
      SamePlainLast(lines, l, l');
    }
  }

  lemma SameHeaderLast(lines: seq<string>, l: string, l': string)
    requires IsProjectHeader(l) && IsProjectHeader(l')
    ensures ReadLines(lines + [l]) == ReadLines(lines + [l'])
  {
    hide IsProjectHeader, ReadBody, Group, ReadPreamble, ReadBlocks;
    GroupAppendHeader(lines, l);
    GroupAppendHeader(lines, l');
    ReadLastBlock(Group(lines).blocks, Block(l, []), Block(l', []));
  }

  lemma SamePlainLast(lines: seq<string>, l: string, l': string)
    requires StripCr(l) == StripCr(l') && Classify(l) == Classify(l') && !IsProjectHeader(l) && !IsProjectHeader(l')
    ensures ReadLines(lines + [l]) == ReadLines(lines + [l'])
  {
    hide Classify, IsProjectHeader, ReadBody, Group, StripCr, ReadPreamble, ReadBlocks;
    var d := Group(lines);
    GroupAppendLine(lines, l);
    GroupAppendLine(lines, l');
    if d.blocks == [] {
      PreambleSame(d.pre, l, l');
    } else {
      var front, b := d.blocks[..|d.blocks| - 1], d.blocks[|d.blocks| - 1];
      var body := b.body + [l];
      ReadSameBodies(body, |b.body|, l', EmptyBody);
      assert body[|b.body| := l'] == b.body + [l'];
      ReadLastBlock(front, Block(b.header, b.body + [l]), Block(b.header, b.body + [l']));
      assert AppendLine(d, l).blocks == front + [Block(b.header, b.body + [l])];
      assert AppendLine(d, l').blocks == front + [Block(b.header, b.body + [l'])];
    }
  }

  lemma ReadOneBlock(x: Block)
    requires ReadBlock(x).Some?
    ensures ReadBlocks([x]) == Some(Read(ReadBlock(x).value.rest, [ReadBlock(x).value.project]))
  {
    hide ReadBlock;
    var f := ReadBlock(x).value;
    assert [x][1..] == [];
    assert ReadBlocks([]) == Some(Read([], []));
    assert f.rest + [] == f.rest;
    assert [f.project] + [] == [f.project];
  }

  /** A block at the end is one more project. */
  lemma ReadLinesBlock(lines: seq<string>, h: string, body: seq<string>)
    requires IsProjectHeader(h) && Headerless(body) && ReadLines(lines).Some? && ReadBlock(Block(h, body)).Some?
    ensures var r, b := ReadLines(lines).value, ReadBlock(Block(h, body)).value;
            ReadLines(lines + [h] + body) == Some(Read(r.rest + b.rest, r.projects + [b.project]))
  {
    hide IsProjectHeader, ReadBlock, Group, ReadPreamble;
    GroupAppendBlock(lines, h, body);
    var d, x := Group(lines), Block(h, body);
    ReadBlocksConcat(d.blocks, [x]);
    ReadOneBlock(x);
    var f := ReadBlock(x).value;
    var pre, rb := ReadPreamble(d.pre).value, ReadBlocks(d.blocks).value;
    assert pre + (rb.rest + f.rest) == (pre + rb.rest) + f.rest;
  }

  lemma ReadOfText(lines: seq<string>)
    requires lines != [] && AllNewlineless(lines)
    ensures DocOf(Join(lines)) == Group(lines)
  {
    SplitJoin(lines);
  }

  // ----- removeProjectSpan -----

  function DropAt<T>(s: seq<T>, i: nat): seq<T>
    requires i < |s|
  {
    s[..i] + s[i + 1..]
  }

  /** The bytes removed are exactly those of the block, header included. */
  lemma RemoveProjectText(data: string, i: nat)
    requires i < |DocOf(data).blocks|
    ensures var d := DocOf(data);
            RemoveProject(data, |d.blocks|, i) == Some(Terminated(LinesBefore(d, i)) + TextAfter(d, i))
    ensures |RemoveProject(data, |DocOf(data).blocks|, i).value| < |data|
  {
    hide DocOf, TextOf, BlockBody, Terminated, LinesBefore, TextAfter, FindAll, GoodBlock, IsProjectHeader;
    var d := DocOf(data);
    TextOfDoc(data);
    HeadersFound(d, i);
    Geometry(d, i);
    TextAfterLast(d, i);
    var b, last := d.blocks[i], i + 1 == |d.blocks|;
    assert GoodBlock(b);
    HeaderNonempty(b);
    var before, body, after := Terminated(LinesBefore(d, i)), BlockBody(b.body, last), TextAfter(d, i);
    if !last {
      HeadersFound(d, i + 1);
      NextHeaderAt(d, i);
    }
    CutBlock(before, b.header, body, after);
    SpansInText(IsProjectHeader, data);
  }

  lemma CutBlock(before: string, header: string, body: string, after: string)
    ensures var data := before + (header + (body + after));
            var end := |before| + |header| + |body|;
            && |data| == end + |after| && data[..|before|] == before && data[end..] == after
  {
  }

  /** The document without block i. */
  function WithoutBlock(d: Doc, i: nat): Doc
    requires i < |d.blocks|
  {
    d.(blocks := DropAt(d.blocks, i))
  }

  lemma WithoutBlockText(d: Doc, i: nat)
    requires Grouped(d) && i < |d.blocks|
    ensures Grouped(WithoutBlock(d, i)) && Group(Ungroup(WithoutBlock(d, i))) == WithoutBlock(d, i)
    ensures Ungroup(WithoutBlock(d, i)) == LinesBefore(d, i) + Flat(d.blocks[i + 1..])
  {
    hide GoodBlock, Headerless, Flat, Group;
    var d' := WithoutBlock(d, i);
    assert Grouped(d') by {
      forall j | 0 <= j < |d'.blocks| ensures GoodBlock(d'.blocks[j]) {
        assert d'.blocks[j] == if j < i then d.blocks[j] else d.blocks[j + 1];
      }
    }
    GroupUngroup(d');
    FlatConcat(d.blocks[..i], d.blocks[i + 1..]);
    assert d.pre + (Flat(d.blocks[..i]) + Flat(d.blocks[i + 1..]))
           == (d.pre + Flat(d.blocks[..i])) + Flat(d.blocks[i + 1..]);
  }

  /** The lines left after a removal: those outside the block, plus an empty last line if it was the last block. */
  lemma RemovedLines(d: Doc, i: nat)
    requires Grouped(d) && i < |d.blocks|
    ensures var kept := LinesBefore(d, i) + Flat(d.blocks[i + 1..]);
            var lines := if i + 1 == |d.blocks| then kept + [""] else kept;
            && lines != [] && AllNewlineless(lines)
            && Terminated(LinesBefore(d, i)) + TextAfter(d, i) == Join(lines)
            && ReadLines(lines) == ReadDoc(WithoutBlock(d, i))
  {
    hide Classify, IsProjectHeader, ReadDoc, Terminated, LinesBefore, Group, Join, Newlineless, Flat;
    var kept := LinesBefore(d, i) + Flat(d.blocks[i + 1..]);
    WithoutBlockText(d, i);
    FlatNewlineless(WithoutBlock(d, i).blocks);
    Blankless();
    FlatEmpty(d.blocks[i + 1..]);
    if i + 1 == |d.blocks| {
      assert kept == LinesBefore(d, i);
      JoinEmptyLast(kept);
      AppendNothing(Terminated(kept));
      ReadLinesBlank(kept, "");
    } else {
      JoinConcat(LinesBefore(d, i), Flat(d.blocks[i + 1..]));
    }
  }

  lemma FlatEmpty(blocks: seq<Block>)
    ensures Flat(blocks) == [] <==> blocks == []
  {
  }

  lemma RemovedNotBare(d: Doc, i: nat, u: string)
    requires Grouped(d) && i < |d.blocks| && !EndsBare(TextOf(d))
    requires u == Terminated(LinesBefore(d, i)) + TextAfter(d, i)
    ensures !EndsBare(u)
  {
    hide BlockBody, LinesBefore, TextOf;
    Geometry(d, i);
    if TextAfter(d, i) != "" {
      EndsBareOf(Terminated(LinesBefore(d, i)), TextAfter(d, i));
      var x := d.blocks[i].header + (BlockBody(d.blocks[i].body, i + 1 == |d.blocks|) + TextAfter(d, i));
      EndsBareOf(BlockBody(d.blocks[i].body, i + 1 == |d.blocks|), TextAfter(d, i));
      EndsBareOf(d.blocks[i].header, BlockBody(d.blocks[i].body, i + 1 == |d.blocks|) + TextAfter(d, i));
      EndsBareOf(Terminated(LinesBefore(d, i)), x);
    } else {
      AppendNothing(Terminated(LinesBefore(d, i)));
      TerminatedEnd(LinesBefore(d, i));
    }
  }

  /** Reading without block i: its project and the other tables inside its span are gone. */
  lemma ReadWithout(d: Doc, i: nat)
    requires ReadDoc(d).Some? && i < |d.blocks|
    ensures |ReadDoc(d).value.projects| == |d.blocks| && ReadBlock(d.blocks[i]).Some?
    ensures ReadDoc(WithoutBlock(d, i)).Some?
    ensures ReadDoc(WithoutBlock(d, i)).value.projects == DropAt(ReadDoc(d).value.projects, i)
    ensures |ReadDoc(d).value.rest| == |ReadDoc(WithoutBlock(d, i)).value.rest| + |ReadBlock(d.blocks[i]).value.rest|
    ensures ReadBlock(d.blocks[i]).value.rest == [] ==> ReadDoc(WithoutBlock(d, i)).value.rest == ReadDoc(d).value.rest
  {
    hide ReadBlock, ReadPreamble, ReadBlocks;
    var a, x, c := d.blocks[..i], d.blocks[i], d.blocks[i + 1..];
    ReadDocAt(d, i);
    assert d.blocks == a + ([x] + c);
    ReadBlocksConcat(a, [x] + c);
    ReadBlocksConcat([x], c);
    ReadBlocksConcat(a, c);
    ReadOneBlock(x);
    var pre, ra, rc, f := ReadPreamble(d.pre).value, ReadBlocks(a).value, ReadBlocks(c).value, ReadBlock(x).value;
    BlocksCount(a);
    assert ra.projects + ([f.project] + rc.projects) == ReadDoc(d).value.projects;
    assert DropAt(ReadDoc(d).value.projects, i) == ra.projects + rc.projects;
    if f.rest == [] {
      assert [] + rc.rest == rc.rest;
    }
  }

  lemma BlocksCount(blocks: seq<Block>)
    requires ReadBlocks(blocks).Some?
    ensures |ReadBlocks(blocks).value.projects| == |blocks|
  {
    if blocks != [] { ReadBlocksAt(blocks, 0); }
  }

  /** The lines of other tables that stand outside the span of project i. */
  function RestOutside(data: string, i: nat): seq<string>
    requires ReadText(data).Some? && i < |ReadText(data).value.projects|
  {
    ReadDocCount(DocOf(data));
    ReadWithout(DocOf(data), i);
    ReadDoc(WithoutBlock(DocOf(data), i)).value.rest
  }

  /** No line of another table stands inside the project's span. */
  predicate NoTableInside(data: string, i: nat)
    requires i < |DocOf(data).blocks| && ReadBlock(DocOf(data).blocks[i]).Some?
  {
    ReadBlock(DocOf(data).blocks[i]).value.rest == []
  }

  /**
   removeProjectSpan always succeeds on a canonical text. The result is read as the policy
   without that project and without the lines of other tables inside the removed span; so
   exactly the project is gone if and only if there are no such lines.
   */
  lemma RemoveProjectExact(data: string, i: nat)
    requires ReadText(data).Some? && i < |ReadText(data).value.projects|
    ensures i < |DocOf(data).blocks| && ReadBlock(DocOf(data).blocks[i]).Some?
    ensures RemoveProject(data, |ReadText(data).value.projects|, i).Some?
    ensures var r, u := ReadText(data).value, RemoveProject(data, |ReadText(data).value.projects|, i).value;
            && ReadText(u) == Some(Read(RestOutside(data, i), DropAt(r.projects, i)))
            && (RestOutside(data, i) == r.rest <==> NoTableInside(data, i))
  {
    hide DocOf, ReadDoc, ReadBlock, Terminated, LinesBefore, TextAfter, RemoveProject, TextOf, Flat, Grouped, Split;
    var d := DocOf(data);
    ReadDocCount(d);
    TextOfDoc(data);
    RemoveProjectText(data, i);
    var u := RemoveProject(data, |d.blocks|, i).value;
    RemovedLines(d, i);
    RemovedNotBare(d, i, u);
    ReadWithout(d, i);
    var kept := LinesBefore(d, i) + Flat(d.blocks[i + 1..]);
    ReadOfText(if i + 1 == |d.blocks| then kept + [""] else kept);
  }

  // ----- appendProject -----

  /** The text as whole lines: everything before the last line, and the last line. */
  lemma LastPart(data: string) returns (front: seq<string>, l: string)
    ensures Split(data) == front + [l] && Newlineless(l) && AllNewlineless(front)
    ensures data == Terminated(front) + l
  {
    hide Join, Terminated;
    var lines := Split(data);
    JoinSplit(data);
    hide Split;
    front, l := lines[..|lines| - 1], lines[|lines| - 1];
    assert lines == front + [l];
    JoinConcat(front, [l]);
    JoinOne(l);
    assert Newlineless(lines[|lines| - 1]);
    assert forall k :: 0 <= k < |front| ==> front[k] == lines[k];
  }

  lemma TerminatedWith(front: seq<string>, l: string, cr: string)
    ensures (Terminated(front) + l) + (cr + "\n") == Terminated(front + [l + cr])
  {
    TerminatedConcat(front, [l + cr]);
    TerminatedOne(l + cr);
    RegroupFour(Terminated(front), l, cr, "\n");
  }

  lemma RegroupFour(a: string, b: string, c: string, d: string)
    ensures (a + b) + (c + d) == a + ((b + c) + d)
  {
  }

  lemma EndsInNewline(data: string, newline: string)
    requires newline != "" && newline[|newline| - 1] == '\n' && EndsWith(data, newline)
    ensures data != "" && data[|data| - 1] == '\n'
  {
    assert data[|data| - |newline|..][|newline| - 1] == data[|data| - 1];
  }

  lemma EndsInLine(front: seq<string>, l: string)
    requires Newlineless(l) && (Terminated(front) + l) != ""
    requires (Terminated(front) + l)[|Terminated(front) + l| - 1] == '\n'
    ensures l == ""
  {
  }

  /** The lines an appended project follows: the old ones, finished and followed by a blank line. */
  lemma SpacedLines(data: string, p: Config.Project) returns (kept: seq<string>)
    requires !EndsBare(data)
    ensures AllNewlineless(kept) && ReadLines(kept) == ReadLines(Split(data))
    ensures AppendProject(data, p) == Terminated(kept) + Terminated(NewProjectLines(p, Cr(data)))
  {
    hide Terminated, NewProjectLines, ReadDoc, Group, Classify, IsProjectHeader, Split, HasCrLf, EndsWith, Cr;
    var cr := Cr(data);
    CrIs(data);
    var front, l := LastPart(data);
    var finished := !(data != "" && !EndsWith(data, cr + "\n"));
    var ended := FinishLine(data, front, l, cr, finished);
    var text := Terminated(ended);
    kept := ended;
    if text != "" && !EndsWith(text, (cr + "\n") + (cr + "\n")) {
      kept := ended + [cr];
      BlankCr(cr);
      ReadLinesBlank(ended, cr);
      TerminatedWith(ended, "", cr);
      AppendNothing(text);
      assert "" + cr == cr;
    }
  }

  lemma BlankCr(cr: string)
    requires CrOrNothing(cr)
    ensures Classify(cr) == Blank && !IsProjectHeader(cr) && Newlineless(cr)
  {
    BlankLines();
  }

  lemma FinishLine(data: string, front: seq<string>, l: string, cr: string, finished: bool) returns (ended: seq<string>)
    requires Split(data) == front + [l] && Newlineless(l) && AllNewlineless(front) && data == Terminated(front) + l
    requires CrOrNothing(cr) && !EndsBare(data) && (finished <==> data == "" || EndsWith(data, cr + "\n"))
    ensures AllNewlineless(ended) && ReadLines(ended) == ReadLines(front + [l])
    ensures Terminated(ended) == if finished then data else data + (cr + "\n")
  {
    hide Terminated, ReadDoc, Group, Classify, IsProjectHeader, Split;
    if finished {
      ended := front;
      if data != "" {
        EndsInNewline(data, cr + "\n");
        EndsInLine(front, l);
      }
      Blankless();
      ReadLinesBlank(front, "");
      AppendNothing(Terminated(front));
    } else {
      ended := front + [l + cr];
      TerminatedWith(front, l, cr);
      if l != "" { EndsBareOf(Terminated(front), l); }
      StripAdded(l, cr);
      ReadLinesSame(front, l, l + cr);
    }
  }

  /** The project as it is written. */
  function NewRaw(p: Config.Project): RawProject {
    RawProject(map[Alias := p.alias, ProjectId := p.bwsProjectId, TokenEntry := p.tokenEntry,
                   WorkingDir := p.workingDir, Approval := Config.ApprovalAllowlistedPrompt], [])
  }

  predicate WritableProject(p: Config.Project) {
    Writable(p.alias) && Writable(p.bwsProjectId) && Writable(p.tokenEntry) && Writable(p.workingDir)
  }

  lemma NewHeader(cr: string)
    requires CrOrNothing(cr)
    ensures IsProjectHeader("[[projects]]" + cr) && Newlineless("[[projects]]" + cr)
  {
    var h := "[[projects]]";
    hide StripCr, Trailer, SkipBlanks;
    StripWritten(h, cr);
    BlanksOf("", h);
    assert "" + h == h;
    assert h[..12] == h && h[12..] == "";
    EmptyTrailer();
  }

  lemma NewNames()
    ensures KeyName(Alias) + " = " == "alias = " && KeyName(ProjectId) + " = " == "bws_project_id = "
    ensures KeyName(TokenEntry) + " = " == "token_entry = " && KeyName(WorkingDir) + " = " == "working_dir = "
  {
  }

  /** The meaning of the lines of a new project, one by one. */
  lemma NewLineKinds(p: Config.Project, cr: string)
    requires WritableProject(p) && CrOrNothing(cr)
    ensures var lines := NewProjectLines(p, cr);
            && GoodLines(lines[1..]) && IsProjectHeader(lines[0]) && Newlineless(lines[0])
            && Classify(lines[1]) == Field(Alias, p.alias)
            && Classify(lines[2]) == Field(ProjectId, p.bwsProjectId)
            && Classify(lines[3]) == Field(TokenEntry, p.tokenEntry)
            && Classify(lines[4]) == Field(WorkingDir, p.workingDir)
            && Classify(lines[5]) == Field(Approval, Config.ApprovalAllowlistedPrompt)
  {
    hide Classify, IsProjectHeader, JsonString, Writable, ApprovalLine, Newlineless;
    NewHeader(cr);
    NewNames();
    WrittenFieldLine(Alias, p.alias, cr);
    WrittenFieldLine(ProjectId, p.bwsProjectId, cr);
    WrittenFieldLine(TokenEntry, p.tokenEntry, cr);
    WrittenFieldLine(WorkingDir, p.workingDir, cr);
    ApprovalMeans(Config.ApprovalAllowlistedPrompt, cr);
    assert GoodLines(ApprovalLines(Config.ApprovalAllowlistedPrompt, cr));
    assert ApprovalLines(Config.ApprovalAllowlistedPrompt, cr)[0] == NewProjectLines(p, cr)[5];
  }

  lemma {:induction false} ReadFields(lines: seq<string>, keys: seq<Key>, values: seq<string>, st: Body)
    requires |lines| == |keys| == |values| && st.section == InProject
    requires forall j :: 0 <= j < |lines| ==> Classify(lines[j]) == Field(keys[j], values[j])
    requires forall j :: 0 <= j < |keys| ==> !Has(st, keys[j])
    requires forall j, k :: 0 <= j < k < |keys| ==> keys[j] != keys[k]
    ensures ReadBody(lines, st) == Some(PutAll(st, keys, values))
  {
    hide Classify, Step;
    if lines != [] {
      StepField(st, lines[0], keys[0], values[0]);
      ReadFields(lines[1..], keys[1..], values[1..], Put(st, keys[0], values[0]));
    }
  }

  function PutAll(st: Body, keys: seq<Key>, values: seq<string>): Body
    requires |keys| == |values|
    decreases |keys|
  {
    if keys == [] then st else PutAll(Put(st, keys[0], values[0]), keys[1..], values[1..])
  }

  const NewKeys := [Alias, ProjectId, TokenEntry, WorkingDir, Approval]

  lemma NewBlockRead(p: Config.Project, cr: string)
    requires WritableProject(p) && CrOrNothing(cr)
    ensures var lines := NewProjectLines(p, cr);
            ReadBlock(Block(lines[0], lines[1..] + [""])) == Some(Body(InProject, NewRaw(p), []))
  {
    hide Classify, Step, WritableProject, NewProjectLines;
    NewCount(p, cr);
    NewLineKinds(p, cr);
    var body := NewProjectLines(p, cr)[1..];
    var values := [p.alias, p.bwsProjectId, p.tokenEntry, p.workingDir, Config.ApprovalAllowlistedPrompt];
    ReadFields(body, NewKeys, values, EmptyBody);
    ReadBlankLast(body, EmptyBody);
    PutFive(values);
  }

  lemma NewCount(p: Config.Project, cr: string)
    ensures |NewProjectLines(p, cr)| == 6
  {
  }

  lemma PutFive(v: seq<string>)
    requires |v| == 5
    ensures PutAll(EmptyBody, NewKeys, v)
            == Body(InProject,
                    RawProject(map[Alias := v[0], ProjectId := v[1], TokenEntry := v[2], WorkingDir := v[3],
                                   Approval := v[4]], []), [])
  {
    var s1 := Put(EmptyBody, Alias, v[0]);
    var s2 := Put(s1, ProjectId, v[1]);
    var s3 := Put(s2, TokenEntry, v[2]);
    var s4 := Put(s3, WorkingDir, v[3]);
    var s5 := Put(s4, Approval, v[4]);
    assert PutAll(s4, NewKeys[4..], v[4..]) == s5 by { assert NewKeys[4..] == [Approval] && v[4..] == [v[4]]; }
    assert PutAll(s3, NewKeys[3..], v[3..]) == s5 by {
      assert NewKeys[3..][1..] == NewKeys[4..] && v[3..][1..] == v[4..];
    }
    assert PutAll(s2, NewKeys[2..], v[2..]) == s5 by {
      assert NewKeys[2..][1..] == NewKeys[3..] && v[2..][1..] == v[3..];
    }
    assert PutAll(s1, NewKeys[1..], v[1..]) == s5 by {
      assert NewKeys[1..][1..] == NewKeys[2..] && v[1..][1..] == v[2..];
    }
    assert PutAll(EmptyBody, NewKeys, v) == s5;
    assert s5.project.fields
           == map[Alias := v[0], ProjectId := v[1], TokenEntry := v[2], WorkingDir := v[3], Approval := v[4]];
  }

  /** appendProject: the result is read as the policy with exactly that project added at the end. */
  lemma AppendProjectCommutes(data: string, p: Config.Project)
    requires ReadText(data).Some? && WritableProject(p)
    ensures var r := ReadText(data).value;
            ReadText(AppendProject(data, p)) == Some(Read(r.rest, r.projects + [NewRaw(p)]))
  {
    hide ReadDoc, Terminated, NewProjectLines, AppendProject, Classify, ReadBlock, Group, Cr, Split, WritableProject,
         Join, IsProjectHeader;
    var cr := Cr(data);
    CrIs(data);
    var kept := SpacedLines(data, p);
    var lines := NewProjectLines(p, cr);
    NewCount(p, cr);
    NewLineKinds(p, cr);
    NewBlockRead(p, cr);
    var h, body := lines[0], lines[1..] + [""];
    Blankless();
    ReadLinesBlock(kept, h, body);
    var r := ReadText(data).value;
    assert r.rest + [] == r.rest;
    TerminatedConcat(kept, lines);
    JoinEmptyLast(kept + lines);
    var all := kept + [h] + body;
    assert all == kept + lines + [""] by { assert lines == [h] + lines[1..]; }
    ReadOfText(all);
    LastLine(all);
    assert all[|all| - 1] == "";
  }
}
