/**
 How a whole policy text is read after one block, or the end of the file, is edited.
 */
module DocReading {
  import opened Basics
  import opened Text
  import opened Layout
  import opened Splice
  import opened Reading

  // ----- One block replaced -----

  function WithBlock(d: Doc, i: nat, b: Block): Doc
    requires i < |d.blocks|
  {
    d.(blocks := d.blocks[i := b])
  }

  /** The text with block i replaced differs only in that block. */
  lemma TextWithBlock(d: Doc, i: nat, b: Block)
    requires Grouped(d) && i < |d.blocks| && GoodBlock(b)
    ensures Grouped(WithBlock(d, i, b))
    ensures TextOf(WithBlock(d, i, b)) == Terminated(LinesBefore(d, i))
              + (b.header + (BlockBody(b.body, i + 1 == |d.blocks|) + TextAfter(d, i)))
    ensures DocOf(TextOf(WithBlock(d, i, b))) == WithBlock(d, i, b)
  {
    hide GoodBlock, BlockBody, Terminated, Join, Flat, Headerless;
    var d' := WithBlock(d, i, b);
    assert d'.blocks[..i] == d.blocks[..i] && d'.blocks[i + 1..] == d.blocks[i + 1..];
    Geometry(d', i);
    UngroupAround(d', i);
    DocOfText(d');
  }

  lemma {:induction false} ReadBlocksAt(blocks: seq<Block>, i: nat)
    requires ReadBlocks(blocks).Some? && i < |blocks|
    ensures |ReadBlocks(blocks).value.projects| == |blocks|
    ensures ReadBlock(blocks[i]).Some? && ReadBlocks(blocks).value.projects[i] == ReadBlock(blocks[i]).value.project
  {
    hide ReadBlock;
    if i > 0 {
      ReadBlocksAt(blocks[1..], i - 1);
    } else if |blocks| > 1 {
      ReadBlocksAt(blocks[1..], 0);
    }
  }

  /** Replacing a block replaces its project, and keeps the other tables if the new block has the same ones. */
  lemma {:induction false} ReadBlocksWith(blocks: seq<Block>, i: nat, b: Block)
    requires ReadBlocks(blocks).Some? && i < |blocks|
    requires ReadBlock(blocks[i]).Some? && ReadBlock(b).Some?
    ensures |ReadBlocks(blocks).value.projects| == |blocks| && ReadBlocks(blocks[i := b]).Some?
    ensures ReadBlocks(blocks[i := b]).value.projects
            == ReadBlocks(blocks).value.projects[i := ReadBlock(b).value.project]
    ensures ReadBlock(b).value.rest == ReadBlock(blocks[i]).value.rest ==>
              ReadBlocks(blocks[i := b]).value.rest == ReadBlocks(blocks).value.rest
  {
    hide ReadBlock;
    ReadBlocksAt(blocks, i);
    if i == 0 {
      assert blocks[0 := b][1..] == blocks[1..];
      var more := ReadBlocks(blocks[1..]).value.projects;
      assert ([ReadBlock(blocks[0]).value.project] + more)[0 := ReadBlock(b).value.project]
             == [ReadBlock(b).value.project] + more;
    } else {
      assert blocks[i := b][1..] == blocks[1..][i - 1 := b];
      ReadBlocksWith(blocks[1..], i - 1, b);
      var first, more := ReadBlock(blocks[0]).value.project, ReadBlocks(blocks[1..]).value.projects;
      assert ([first] + more)[i := ReadBlock(b).value.project] == [first] + more[i - 1 := ReadBlock(b).value.project];
    }
  }

  /** A block of the same project leaves all projects as they were, whatever its other tables. */
  lemma ReadWithProject(d: Doc, i: nat, b: Block)
    requires ReadDoc(d).Some? && i < |d.blocks|
    requires ReadBlock(d.blocks[i]).Some? && ReadBlock(b).Some?
    requires ReadBlock(b).value.project == ReadBlock(d.blocks[i]).value.project
    ensures ReadDoc(WithBlock(d, i, b)).Some?
    ensures ReadDoc(WithBlock(d, i, b)).value.projects == ReadDoc(d).value.projects
  {
    hide ReadBlock, ReadPreamble;
    ReadBlocksWith(d.blocks, i, b);
    ReadBlocksAt(d.blocks, i);
  }

  /** Replacing a block by one with the same other tables replaces exactly that project. */
  lemma ReadWithBlock(d: Doc, i: nat, b: Block)
    requires ReadDoc(d).Some? && i < |d.blocks|
    requires ReadBlock(d.blocks[i]).Some? && ReadBlock(b).Some?
    requires ReadBlock(b).value.rest == ReadBlock(d.blocks[i]).value.rest
    ensures |ReadDoc(d).value.projects| == |d.blocks|
    ensures ReadDoc(WithBlock(d, i, b))
            == Some(Read(ReadDoc(d).value.rest, ReadDoc(d).value.projects[i := ReadBlock(b).value.project]))
  {
    hide ReadBlock, ReadPreamble;
    ReadBlocksWith(d.blocks, i, b);
  }

  lemma ReadDocAt(d: Doc, i: nat)
    requires ReadDoc(d).Some? && i < |d.blocks|
    ensures |ReadDoc(d).value.projects| == |d.blocks|
    ensures ReadBlock(d.blocks[i]).Some? && ReadDoc(d).value.projects[i] == ReadBlock(d.blocks[i]).value.project
  {
    hide ReadBlock, ReadPreamble;
    ReadBlocksAt(d.blocks, i);
  }

  lemma ReadDocCount(d: Doc)
    requires ReadDoc(d).Some?
    ensures |ReadDoc(d).value.projects| == |d.blocks|
  {
    if d.blocks != [] { ReadDocAt(d, 0); }
  }

  // ----- A block and the text inside it -----

  /** The lines of a block's text: the empty rest of its header line, the body, and an empty last line. */
  function Inner(body: seq<string>, last: bool): seq<string> {
    [""] + body + (if last then [] else [""])
  }

  lemma InnerText(body: seq<string>, last: bool)
    ensures Join(Inner(body, last)) == BlockBody(body, last)
  {
    if last {
      assert Inner(body, true) == [""] + body;
      if body != [] {
        JoinConcat([""], body);
        assert Terminated([""]) == "\n";
      }
    } else {
      JoinConcat([""] + body, [""]);
      TerminatedConcat([""], body);
      assert Terminated([""]) == "\n";
      AppendNothing(Terminated([""] + body));
    }
  }

  lemma InnerSplit(body: seq<string>, last: bool)
    requires AllNewlineless(body)
    ensures Split(BlockBody(body, last)) == Inner(body, last)
  {
    InnerText(body, last);
    SplitJoin(Inner(body, last));
  }

  /** Everything up to the end of the header line of block i. */
  function BeforeBody(d: Doc, i: nat): string
    requires i < |d.blocks|
  {
    Terminated(LinesBefore(d, i)) + d.blocks[i].header
  }

  function BodyText(d: Doc, i: nat): string
    requires i < |d.blocks|
  {
    BlockBody(d.blocks[i].body, i + 1 == |d.blocks|)
  }

  /** The text around a block: what comes before its body, the body and what comes after. */
  lemma BlockInText(data: string, i: nat)
    requires i < |DocOf(data).blocks|
    ensures var d := DocOf(data);
            && data == BeforeBody(d, i) + (BodyText(d, i) + TextAfter(d, i))
            && ProjectBounds(data, |d.blocks|, i) == Some((|BeforeBody(d, i)|, |BeforeBody(d, i)| + |BodyText(d, i)|))
            && Grouped(d) && GoodBlock(d.blocks[i])
  {
    hide GoodBlock, BlockBody, Terminated, ProjectBounds, LinesBefore, TextAfter, DocOf, TextOf;
    var d := DocOf(data);
    TextOfDoc(data);
    Geometry(d, i);
    BoundsFound(d, i);
    Regroup(Terminated(LinesBefore(d, i)), d.blocks[i].header, BodyText(d, i) + TextAfter(d, i));
  }

  /** Replacing bytes inside the middle part of a text. */
  lemma ReplaceInMiddle(before: string, middle: string, after: string, x: nat, y: nat, w: string)
    requires x <= y <= |middle|
    ensures var data := before + (middle + after);
            && data[|before|..|before| + |middle|] == middle
            && ReplaceSpan(data, |before| + x, |before| + y, w) == before + ((middle[..x] + w + middle[y..]) + after)
  {
    ReplaceMiddle(before, middle, after, x, y, w);
    MiddleOf(before, middle, after);
  }

  // ----- The end of the file -----

  lemma {:induction false} LastLine(lines: seq<string>)
    requires |lines| >= 1
    ensures EndsBare(Join(lines)) <==> EndsBare(lines[|lines| - 1])
  {
    if |lines| > 1 {
      LastLine(lines[1..]);
      assert lines[1..][|lines[1..]| - 1] == lines[|lines| - 1];
    }
  }

  lemma EndsBareOf(a: string, b: string)
    requires b != ""
    ensures EndsBare(a + b) <==> EndsBare(b)
  {
  }
}
