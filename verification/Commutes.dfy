/**
 Editing the bytes of a canonical policy edits what it means.

 For each splice of internal/admin/policy.go: if the text is in the canonical layout and the
 splice succeeds, the spliced text is in the canonical layout too, and it is read as the
 intended edit of what the original was read as. Conditions a splice needs are stated where
 they are needed.
 */
module Commutes {
  import opened Basics
  import opened Text
  import opened TomlStrings
  import opened Layout
  import opened Splice
  import opened Reading
  import opened BlockReading
  import opened DocReading

  function ReadText(data: string): Option<Read> {
    if EndsBare(data) then None else ReadDoc(DocOf(data))
  }

  // ----- Edits inside one block -----

  lemma DocOfEdited(data: string, i: nat, b: Block, u: string)
    requires i < |DocOf(data).blocks| && GoodBlock(b)
    requires var d := DocOf(data);
             u == (Terminated(LinesBefore(d, i)) + b.header)
                  + (BlockBody(b.body, i + 1 == |d.blocks|) + TextAfter(d, i))
    ensures DocOf(u) == WithBlock(DocOf(data), i, b)
  {
    hide GoodBlock, BlockBody, Terminated, LinesBefore, TextAfter, DocOf, TextOf, Grouped;
    var d := DocOf(data);
    TextOfDoc(data);
    TextWithBlock(d, i, b);
    Regroup(Terminated(LinesBefore(d, i)), b.header, BlockBody(b.body, i + 1 == |d.blocks|) + TextAfter(d, i));
  }

  /** Reading after an edit that keeps the header and the other tables of block i. */
  lemma ReadEdited(data: string, i: nat, b: Block, u: string)
    requires ReadDoc(DocOf(data)).Some? && i < |DocOf(data).blocks| && GoodBlock(b)
    requires var d := DocOf(data);
             u == (Terminated(LinesBefore(d, i)) + b.header)
                  + (BlockBody(b.body, i + 1 == |d.blocks|) + TextAfter(d, i))
    requires ReadBlock(DocOf(data).blocks[i]).Some? && ReadBlock(b).Some?
    requires ReadBlock(b).value.rest == ReadBlock(DocOf(data).blocks[i]).value.rest
    ensures |ReadDoc(DocOf(data)).value.projects| == |DocOf(data).blocks|
    ensures ReadDoc(DocOf(u)) == Some(Read(ReadDoc(DocOf(data)).value.rest,
                                           ReadDoc(DocOf(data)).value.projects[i := ReadBlock(b).value.project]))
  {
    hide GoodBlock, BlockBody, Terminated, LinesBefore, TextAfter, DocOf, ReadDoc, ReadBlock;
    DocOfEdited(data, i, b, u);
    ReadWithBlock(DocOf(data), i, b);
  }

  // ----- replaceProjectField -----

  lemma NotFieldLine(name: string)
    ensures !IsFieldLine(name, "")
  {
  }

  /** The single hit of a field pattern in a block is a line of its body, the only field line there. */
  lemma OnlyHit(body: seq<string>, last: bool, name: string) returns (k: nat)
    requires AllNewlineless(body) && |FieldHits(name, BlockBody(body, last))| == 1
    ensures FieldHits(name, BlockBody(body, last))[0] == k + 1
    ensures OnlyFieldLine(body, name, k)
    ensures Split(BlockBody(body, last)) == Inner(body, last)
  {
    hide IsFieldLine, BlockBody, Split;
    InnerSplit(body, last);
    NotFieldLine(name);
    var lines := Inner(body, last);
    var hits := FieldHits(name, BlockBody(body, last));
    assert IsFieldLine(name, lines[hits[0]]);
    k := hits[0] - 1;
    assert lines[k + 1] == body[k];
    forall j | 0 <= j < |body| && j != k ensures !IsFieldLine(name, body[j]) {
      if IsFieldLine(name, body[j]) {
        assert FieldPattern(name)(lines[j + 1]);
        HitsComplete(FieldPattern(name), lines, 0, j + 1);
        assert false;
      }
    }
  }

  /** The body with the value in field line k replaced. */
  function BodyWith(body: seq<string>, name: string, k: nat, w: string): seq<string> {
    if k < |body| && IsFieldLine(name, body[k]) then
      var (a, b) := FieldValue(name, body[k]).value;
      body[k := body[k][..a] + w + body[k][b..]]
    else body
  }

  /** Replacing the value in the bytes of a block replaces it in the line that holds it. */
  lemma ReplaceValueInBody(body: seq<string>, last: bool, name: string, w: string, k: nat, a: nat, b: nat, o: nat)
    requires k < |body| && FieldValue(name, body[k]) == Some((a, b)) && o == Offset(Inner(body, last), k + 1)
    ensures o + b <= |BlockBody(body, last)|
    ensures BlockBody(body, last)[..o + a] + w + BlockBody(body, last)[o + b..]
            == BlockBody(BodyWith(body, name, k, w), last)
  {
    hide FieldValue, BlockBody, Join, Terminated, Offset, Inner;
    var body' := BodyWith(body, name, k, w);
    InnerText(body, last);
    InnerText(body', last);
    InnerAt(body, last, k);
    ReplaceInLine(Inner(body, last), k + 1, a, b, w);
    InnerWith(body, last, k, body[k][..a] + w + body[k][b..]);
  }

  lemma InnerWith(body: seq<string>, last: bool, k: nat, line: string)
    requires k < |body|
    ensures k + 1 < |Inner(body, last)| && Inner(body, last)[k + 1 := line] == Inner(body[k := line], last)
  {
  }

  lemma ReplaceValueText(data: string, start: nat, end: nat, body: seq<string>, last: bool, after: string,
                         name: string, w: string)
    returns (k: nat)
    requires start <= end <= |data| && data[start..end] == BlockBody(body, last)
    requires data == data[..start] + (BlockBody(body, last) + after)
    requires AllNewlineless(body) && |FieldHits(name, data[start..end])| == 1
    ensures OnlyFieldLine(body, name, k)
    ensures ReplaceValue(data, start, end, name, w)
            == data[..start] + (BlockBody(BodyWith(body, name, k, w), last) + after)
  {
    hide IsFieldLine, FieldValue, Split, BlockBody, FieldHits, OnlyFieldLine, Inner, Offset, BodyWith;
    k := OnlyHit(body, last, name);
    OnlyIsField(body, name, k);
    InnerAt(body, last, k);
    FieldLineValue(name, body[k]);
    var (a, b) := FieldValue(name, body[k]).value;
    var o := Offset(Inner(body, last), k + 1);
    ReplaceValueInBody(body, last, name, w, k, a, b, o);
    ReplaceInMiddle(data[..start], BlockBody(body, last), after, o + a, o + b, w);
  }

  lemma FieldLineValue(name: string, line: string)
    requires IsFieldLine(name, line)
    ensures FieldValue(name, line).Some?
  {
  }

  lemma OnlyIsField(body: seq<string>, name: string, k: nat)
    requires OnlyFieldLine(body, name, k)
    ensures k < |body| && IsFieldLine(name, body[k])
  {
  }

  lemma InnerAt(body: seq<string>, last: bool, k: nat)
    requires k < |body|
    ensures k + 1 < |Inner(body, last)| && Inner(body, last)[k + 1] == body[k]
  {
  }

  lemma GoodWith(b: Block, key: Key, k: nat, v: string)
    requires GoodBlock(b) && k < |b.body| && Classify(b.body[k]).Field? && Classify(b.body[k]).key == key && Writable(v)
    ensures GoodBlock(Block(b.header, BodyWith(b.body, KeyName(key), k, JsonString(v))))
  {
    hide Classify, IsProjectHeader, FieldValue, KeyName, JsonString;
    assert Newlineless(b.body[k]);
    ReplacedFieldLine(b.body[k], key, v);
  }

  lemma BodyWithIsWithValue(body: seq<string>, name: string, k: nat, v: string)
    requires k < |body| && IsFieldLine(name, body[k])
    ensures BodyWith(body, name, k, JsonString(v)) == body[k := WithValue(body[k], name, v)]
  {
    hide FieldValue, JsonString;
  }

  predicate SelectedField(data: string, i: nat, key: Key) {
    && ReadText(data).Some? && i < |ReadText(data).value.projects|
    && key in ReadText(data).value.projects[i].fields
  }

  /** The intended edit: one field of one project. */
  function WithField(r: Read, i: nat, key: Key, v: string): Read
    requires i < |r.projects|
  {
    Read(r.rest, r.projects[i := r.projects[i].(fields := r.projects[i].fields[key := v])])
  }

  lemma ReplaceFieldBody(b: Block, key: Key, v: string, k: nat)
    requires GoodBlock(b) && OnlyFieldLine(b.body, KeyName(key), k) && Writable(v)
    requires ReadBlock(b).Some? && Has(ReadBlock(b).value, key)
    ensures var b' := Block(b.header, BodyWith(b.body, KeyName(key), k, JsonString(v)));
            GoodBlock(b') && ReadBlock(b') == Some(Put(ReadBlock(b).value, key, v))
  {
    hide IsFieldLine, FieldValue, JsonString, KeyName, Classify, Step, BodyWith;
    OnlyIsField(b.body, KeyName(key), k);
    BodyWithIsWithValue(b.body, KeyName(key), k, v);
    ReadReplaced(b.body, EmptyBody, key, k, v);
    GoodWith(b, key, k, v);
  }

  /** The bytes of a selected block, and the text around them. */
  lemma Selected(data: string, i: nat) returns (start: nat, end: nat)
    requires ReadDoc(DocOf(data)).Some? && i < |DocOf(data).blocks|
    ensures |ReadDoc(DocOf(data)).value.projects| == |DocOf(data).blocks|
    ensures ProjectBounds(data, |DocOf(data).blocks|, i) == Some((start, end)) && start <= end <= |data|
    ensures data[start..end] == BodyText(DocOf(data), i)
    ensures data[..start] == Terminated(LinesBefore(DocOf(data), i)) + DocOf(data).blocks[i].header
    ensures data == data[..start] + (BodyText(DocOf(data), i) + TextAfter(DocOf(data), i))
    ensures GoodBlock(DocOf(data).blocks[i])
    ensures ReadBlock(DocOf(data).blocks[i]).Some?
    ensures ReadDoc(DocOf(data)).value.projects[i] == ReadBlock(DocOf(data).blocks[i]).value.project
  {
    hide DocOf, BodyText, TextAfter, ProjectBounds, GoodBlock, ReadDoc, ReadBlock, Terminated, LinesBefore;
    var d := DocOf(data);
    ReadDocAt(d, i);
    BlockInText(data, i);
    start := |BeforeBody(d, i)|;
    end := start + |BodyText(d, i)|;
    MiddleOf(BeforeBody(d, i), BodyText(d, i), TextAfter(d, i));
    Dropped(BeforeBody(d, i), BodyText(d, i) + TextAfter(d, i));
  }

  /** Writing a value over the only field line of a key the project has replaces that field. */
  lemma ReplaceValueCommutes(data: string, i: nat, key: Key, v: string, start: nat, end: nat)
    requires SelectedField(data, i, key) && Writable(v)
    requires ProjectBounds(data, |ReadText(data).value.projects|, i) == Some((start, end)) && start <= end <= |data|
    requires |FieldHits(KeyName(key), data[start..end])| == 1
    ensures ReadText(ReplaceValue(data, start, end, KeyName(key), JsonString(v)))
            == Some(WithField(ReadText(data).value, i, key, v))
  {
    hide DocOf, JsonString, KeyName, ReadDoc, ReadBlock, TextAfter, BlockBody, FieldHits, ReplaceValue, ProjectBounds,
         GoodBlock, OnlyFieldLine, BodyWith, Terminated, LinesBefore, Writable;
    var d := DocOf(data);
    ReadDocCount(d);
    var from, upto := Selected(data, i);
    var b, last := d.blocks[i], i + 1 == |d.blocks|;
    GoodIsNewlineless(b);
    var u := ReplaceValue(data, start, end, KeyName(key), JsonString(v));
    var k := ReplaceValueText(data, start, end, b.body, last, TextAfter(d, i), KeyName(key), JsonString(v));
    ReplaceFieldBody(b, key, v, k);
    ReadEdited(data, i, Block(b.header, BodyWith(b.body, KeyName(key), k, JsonString(v))), u);
    ReplaceValueNotBare(data, start, end, KeyName(key), v);
  }

  lemma ReplaceValueNotBare(data: string, start: nat, end: nat, name: string, v: string)
    requires start <= end <= |data| && |FieldHits(name, data[start..end])| == 1 && !EndsBare(data)
    ensures !EndsBare(ReplaceValue(data, start, end, name, JsonString(v)))
  {
    JsonQuotes(v);
    var s := ValueSpan(data[start..end], start, name, FieldHits(name, data[start..end])[0]);
    hide FieldHits, ValueSpan, JsonString;
    SpliceNotBare(data, s.start, s.end, JsonString(v));
  }

  /**
   replaceProjectField: whenever it succeeds (exactly one single-line field of that name in
   the block) on a field the project has, the result is read as that field replaced.
   */
  lemma ReplaceFieldCommutes(data: string, i: nat, key: Key, v: string, u: string)
    requires SelectedField(data, i, key) && Writable(v)
    requires ReplaceField(data, |ReadText(data).value.projects|, i, KeyName(key), v) == Some(u)
    ensures ReadText(u) == Some(WithField(ReadText(data).value, i, key, v))
  {
    hide ReadText, JsonString, KeyName, FieldHits, ReplaceValue, ProjectBounds, Writable;
    var count := |ReadText(data).value.projects|;
    BoundsInText(data, count, i);
    var (start, end) := ProjectBounds(data, count, i).value;
    ReplaceValueCommutes(data, i, key, v, start, end);
  }

  lemma GoodIsNewlineless(b: Block)
    requires GoodBlock(b)
    ensures AllNewlineless(b.body) && Newlineless(b.header)
  {
  }

  // ----- Inserting lines at the end of a block -----

  /** The block with whole lines added at its end; an unfinished last line is finished first. */
  function EndInsert(b: Block, last: bool, cr: string, added: seq<string>): Block {
    var m := |b.body|;
    if !last then Block(b.header, b.body + added)
    else if m == 0 then Block(b.header + cr, added + [""])
    else if b.body[m - 1] == "" then Block(b.header, b.body[..m - 1] + added + [""])
    else Block(b.header, b.body[..m - 1] + [b.body[m - 1] + cr] + added + [""])
  }

  lemma JoinEmptyLast(lines: seq<string>)
    ensures Join(lines + [""]) == Terminated(lines)
  {
    JoinConcat(lines, [""]);
    AppendNothing(Terminated(lines));
  }

  /** Adding after a last block that has no lines yet. */
  lemma EndInsertBare(before: string, header: string, cr: string, added: seq<string>)
    ensures (before + header) + ((cr + "\n") + Terminated(added))
            == (before + (header + cr)) + (BlockBody(added + [""], true) + "")
  {
    JoinEmptyLast(added);
    var t := Terminated(added);
    AppendNothing("\n" + t);
    assert (before + header) + ((cr + "\n") + t) == (before + (header + cr)) + ("\n" + t);
  }

  lemma EndInsertFinished(front: seq<string>, added: seq<string>)
    ensures BlockBody(front + [""], true) + ("" + Terminated(added)) == BlockBody(front + added + [""], true)
  {
    JoinEmptyLast(front);
    JoinEmptyLast(front + added);
    TerminatedConcat(front, added);
    assert "" + Terminated(added) == Terminated(added);
    Regroup("\n", Terminated(front), Terminated(added));
  }

  lemma JoinOne(l: string)
    ensures Join([l]) == l
  {
  }

  lemma TerminatedOne(l: string)
    ensures Terminated([l]) == l + "\n"
  {
    assert [l][1..] == [];
  }

  lemma EndInsertUnfinished(front: seq<string>, l: string, cr: string, added: seq<string>)
    ensures BlockBody(front + [l], true) + ((cr + "\n") + Terminated(added))
            == BlockBody(front + [l + cr] + added + [""], true)
  {
    hide Terminated, Join;
    JoinConcat(front, [l]);
    JoinOne(l);
    JoinEmptyLast(front + [l + cr] + added);
    TerminatedConcat(front + [l + cr], added);
    TerminatedConcat(front, [l + cr]);
    TerminatedOne(l + cr);
    FinishedLine(Terminated(front), l, cr, Terminated(added));
  }

  lemma FinishedLine(f: string, l: string, cr: string, t: string)
    ensures ("\n" + (f + l)) + ((cr + "\n") + t) == "\n" + ((f + ((l + cr) + "\n")) + t)
  {
  }

  lemma EndInsertMiddle(body: seq<string>, added: seq<string>)
    ensures BlockBody(body, false) + ("" + Terminated(added)) == BlockBody(body + added, false)
  {
    TerminatedConcat(body, added);
    assert "" + Terminated(added) == Terminated(added);
    Regroup("\n", Terminated(body), Terminated(added));
  }

  lemma BlockBodyEnd(body: seq<string>, last: bool)
    requires AllNewlineless(body) && BlockBody(body, last) != ""
    ensures !last || body[|body| - 1] == "" ==> BlockBody(body, last)[|BlockBody(body, last)| - 1] == '\n'
    ensures last && body[|body| - 1] != "" ==> BlockBody(body, last)[|BlockBody(body, last)| - 1] != '\n'
  {
    if last {
      LastChar(body);
    } else {
      TerminatedEnd(body);
    }
  }

  lemma {:induction false} LastChar(lines: seq<string>)
    requires lines != [] && AllNewlineless(lines)
    ensures lines[|lines| - 1] == "" && |lines| > 1 ==> Join(lines) != "" && Join(lines)[|Join(lines)| - 1] == '\n'
    ensures lines[|lines| - 1] != "" ==> Join(lines) != "" && Join(lines)[|Join(lines)| - 1] != '\n'
    ensures |lines| == 1 ==> Join(lines) == lines[0]
  {
    if |lines| > 1 {
      LastChar(lines[1..]);
      assert lines[1..][|lines[1..]| - 1] == lines[|lines| - 1];
    } else {
      assert Newlineless(lines[0]);
    }
  }

  lemma {:induction false} TerminatedEnd(lines: seq<string>)
    ensures lines != [] ==> Terminated(lines) != "" && Terminated(lines)[|Terminated(lines)| - 1] == '\n'
  {
    if lines != [] { TerminatedEnd(lines[1..]); }
  }

  lemma InsertAfter(x: string, y: string, text: string)
    requires x != ""
    ensures InsertLine(x + y, |x|, text)
            == x + (((if x[|x| - 1] != '\n' then Newline(x + y) else "") + text) + y)
  {
    Dropped(x, y);
  }

  /** Inserting whole lines where a block ends adds them to the block. */
  lemma EndInsertText(data: string, before: string, b: Block, last: bool, after: string, added: seq<string>)
    requires data == (before + b.header) + (BlockBody(b.body, last) + after)
    requires Newlineless(b.header) && b.header != "" && AllNewlineless(b.body) && (last ==> after == "")
    ensures var b' := EndInsert(b, last, Cr(data), added);
            InsertLine(data, |before + b.header| + |BlockBody(b.body, last)|, Terminated(added))
            == (before + b'.header) + (BlockBody(b'.body, last) + after)
  {
    var cr, x, text := Cr(data), (before + b.header) + BlockBody(b.body, last), Terminated(added);
    hide BlockBody, Terminated, HasCrLf, Cr;
    Regroup(before + b.header, BlockBody(b.body, last), after);
    InsertAfter(x, after, text);
    hide InsertLine;
    EndOfBlock(before, b, last);
    if last && b.body == [] {
      EmptyBodyText();
      AppendNothing(before + b.header);
      AppendNothing((cr + "\n") + text);
      EndInsertBare(before, b.header, cr, added);
    } else {
      var lead := if x[|x| - 1] != '\n' then cr + "\n" else "";
      Regroup(before + b.header, BlockBody(b.body, last), (lead + text) + after);
      Regroup(BlockBody(b.body, last), lead + text, after);
      if !last {
        EndInsertMiddle(b.body, added);
      } else {
        var front, l := b.body[..|b.body| - 1], b.body[|b.body| - 1];
        assert b.body == front + [l];
        if l == "" { EndInsertFinished(front, added); } else { EndInsertUnfinished(front, l, cr, added); }
      }
    }
  }

  lemma EmptyBodyText()
    ensures BlockBody([], true) == ""
  {
  }

  /** The last character up to the end of a block is a newline unless the file stops mid-line. */
  lemma EndOfBlock(before: string, b: Block, last: bool)
    requires Newlineless(b.header) && b.header != "" && AllNewlineless(b.body)
    ensures var x := (before + b.header) + BlockBody(b.body, last);
            && x != ""
            && (x[|x| - 1] == '\n' <==> !last || (b.body != [] && b.body[|b.body| - 1] == ""))
  {
    if BlockBody(b.body, last) != "" {
      BlockBodyEnd(b.body, last);
    } else {
      assert b.header[|b.header| - 1] != '\n';
    }
  }

  // ----- What the added lines mean -----

  lemma Blankless()
    ensures Classify("") == Blank && !IsProjectHeader("") && Newlineless("")
  {
    BlankLines();
  }

  lemma StripAdded(l: string, cr: string)
    requires CrOrNothing(cr) && !EndsBare(l)
    ensures StripCr(l + cr) == StripCr(l)
  {
    if cr == "" {
      assert l + cr == l;
    } else {
      assert (l + cr)[..|l|] == l;
    }
  }

  lemma HeaderWithCr(header: string, cr: string)
    requires CrOrNothing(cr) && !EndsBare(header) && IsProjectHeader(header) && Newlineless(header)
    ensures IsProjectHeader(header + cr) && Newlineless(header + cr)
  {
    StripAdded(header, cr);
    SameBodySameKind(header, header + cr);
  }

  lemma ReadBlankLast(lines: seq<string>, st: Body)
    ensures ReadBody(lines + [""], st) == ReadBody(lines, st)
  {
    hide Classify, Step;
    Blankless();
    ReadBlankAdded(lines, "", [], st);
    assert lines + [""] + [] == lines + [""] && lines + [] == lines;
  }

  /** The edited block reads as the old lines followed by the added ones. */
  lemma EndInsertRead(b: Block, last: bool, cr: string, added: seq<string>, st: Body)
    requires CrOrNothing(cr) && (last && b.body != [] ==> !EndsBare(b.body[|b.body| - 1]))
    ensures ReadBody(EndInsert(b, last, cr, added).body, st) == ReadBody(b.body + added, st)
  {
    hide Classify, Step, StripCr;
    if last {
      if b.body == [] {
        ReadBlankLast(added, st);
        assert b.body + added == added;
      } else {
        var m := |b.body|;
        var front, l := b.body[..m - 1], b.body[m - 1];
        assert b.body == front + [l];
        if l == "" {
          ReadBlankLast(front + added, st);
          Blankless();
          ReadBlankAdded(front, "", added, st);
          assert front + [""] + added == b.body + added;
        } else {
          ReadBlankLast(front + [l + cr] + added, st);
          StripAdded(l, cr);
          ReadSameBodies(b.body + added, m - 1, l + cr, st);
          assert (b.body + added)[m - 1 := l + cr] == front + [l + cr] + added;
        }
      }
    }
  }

  predicate GoodLines(lines: seq<string>) { Headerless(lines) && AllNewlineless(lines) }

  lemma CarriageKeepsLine(l: string, cr: string)
    requires CrOrNothing(cr) && !EndsBare(l) && !IsProjectHeader(l) && Newlineless(l)
    ensures !IsProjectHeader(l + cr) && Newlineless(l + cr)
  {
    StripAdded(l, cr);
    SameBodySameKind(l, l + cr);
  }

  lemma EndInsertGood(b: Block, last: bool, cr: string, added: seq<string>)
    requires GoodBlock(b) && GoodLines(added) && CrOrNothing(cr)
    requires last ==> !EndsBare(if b.body == [] then b.header else b.body[|b.body| - 1])
    ensures GoodBlock(EndInsert(b, last, cr, added))
  {
    hide IsProjectHeader;
    Blankless();
    if last {
      if b.body == [] {
        HeaderWithCr(b.header, cr);
      } else {
        var l := b.body[|b.body| - 1];
        assert !IsProjectHeader(l) && Newlineless(l);
        CarriageKeepsLine(l, cr);
      }
    }
  }

  // ----- The end of the file after an edit -----

  lemma LastOfUngroup(d: Doc, i: nat)
    requires i + 1 == |d.blocks|
    ensures var b := d.blocks[i];
            && Ungroup(d) != []
            && Ungroup(d)[|Ungroup(d)| - 1] == (if b.body == [] then b.header else b.body[|b.body| - 1])
  {
    UngroupAround(d, i);
  }

  /** The last line of the last block is the last line of the file. */
  lemma LastLineBare(data: string, i: nat)
    requires i + 1 == |DocOf(data).blocks| && !EndsBare(data)
    ensures var b := DocOf(data).blocks[i];
            !EndsBare(if b.body == [] then b.header else b.body[|b.body| - 1])
  {
    hide DocOf, Split, Join, Ungroup, EndsBare;
    TextOfDoc(data);
    JoinSplit(data);
    LastOfUngroup(DocOf(data), i);
    LastLine(Split(data));
  }

  /** Replacing bytes by text that does not end in a carriage return cannot leave the file ending in one. */
  lemma SpliceNotBare(data: string, x: nat, y: nat, w: string)
    requires x <= y <= |data| && !EndsBare(data) && w != "" && w[|w| - 1] != '\r'
    ensures !EndsBare(ReplaceSpan(data, x, y, w))
  {
    var u := ReplaceSpan(data, x, y, w);
    if y < |data| {
      assert u[|u| - 1] == data[|data| - 1];
    } else {
      assert u[|u| - 1] == w[|w| - 1];
    }
  }

  // ----- insertAllowEntry -----

  function AllowLines(argv: seq<string>, cr: string): seq<string>
    requires argv != []
  {
    ["  [[projects.allow]]" + cr, "  argv = " + JsonArray(argv) + cr]
  }

  lemma AllowText(argv: seq<string>, cr: string)
    requires argv != []
    ensures AllowEntryText(argv, cr + "\n") == Terminated(AllowLines(argv, cr))
  {
    var h, a := "  [[projects.allow]]", "  argv = " + JsonArray(argv);
    var lines := AllowLines(argv, cr);
    assert lines[1..] == [a + cr];
    TerminatedOne(a + cr);
    AllowGrouping(h, "  argv = ", JsonArray(argv), cr);
  }

  lemma AllowGrouping(h: string, k: string, json: string, cr: string)
    ensures h + (cr + "\n") + k + json + (cr + "\n") == (h + cr) + "\n" + (((k + json) + cr) + "\n")
  {
  }

  predicate AllWritable(argv: seq<string>) {
    argv != [] && forall i :: 0 <= i < |argv| ==> Writable(argv[i])
  }

  lemma CrIs(data: string)
    ensures CrOrNothing(Cr(data))
  {
  }

  lemma AllowLinesGood(argv: seq<string>, cr: string)
    requires AllWritable(argv) && CrOrNothing(cr)
    ensures GoodLines(AllowLines(argv, cr))
    ensures Classify(AllowLines(argv, cr)[0]) == AllowHeader && Classify(AllowLines(argv, cr)[1]) == Argv(argv)
  {
    hide Classify, IsProjectHeader, JsonArray, Writable, Newlineless;
    WrittenAllowHeader(cr);
    WrittenArgvLine(argv, cr);
  }

  /** The intended edit: one more allow entry at the end of project i. */
  function WithAllow(r: Read, i: nat, argv: seq<string>): Read
    requires i < |r.projects|
  {
    Read(r.rest, r.projects[i := r.projects[i].(allow := r.projects[i].allow + [Some(argv)])])
  }

  lemma HeaderNonempty(b: Block)
    requires GoodBlock(b)
    ensures b.header != "" && Newlineless(b.header) && AllNewlineless(b.body)
  {
    Blankless();
  }

  /** The block with the lines of a new entry reads as the block with that entry. */
  lemma AllowBlock(b: Block, last: bool, cr: string, argv: seq<string>)
    requires GoodBlock(b) && ReadBlock(b).Some? && AllWritable(argv) && CrOrNothing(cr)
    requires last ==> !EndsBare(if b.body == [] then b.header else b.body[|b.body| - 1])
    ensures var b' := EndInsert(b, last, cr, AllowLines(argv, cr));
            && GoodBlock(b') && ReadBlock(b').Some?
            && ReadBlock(b').value.rest == ReadBlock(b).value.rest
            && ReadBlock(b').value.project
               == ReadBlock(b).value.project.(allow := ReadBlock(b).value.project.allow + [Some(argv)])
  {
    hide Classify, EndInsert, GoodBlock, Step, JsonArray, AllWritable, GoodLines, ReadBody;
    NotEmptyArgv(argv);
    var added := AllowLines(argv, cr);
    AllowLinesGood(argv, cr);
    EndInsertGood(b, last, cr, added);
    EndInsertRead(b, last, cr, added, EmptyBody);
    ReadAllowAdded(b.body, EmptyBody, added[0], added[1], argv);
  }

  /** insertAllowEntry: the result is read as the project with the argv added at the end. */
  lemma InsertAllowCommutes(data: string, i: nat, argv: seq<string>, u: string)
    requires ReadText(data).Some? && i < |ReadText(data).value.projects| && AllWritable(argv)
    requires InsertAllow(data, |ReadText(data).value.projects|, i, |ReadText(data).value.projects[i].allow|, argv)
             == Some(u)
    ensures ReadText(u) == Some(WithAllow(ReadText(data).value, i, argv))
  {
    hide DocOf, ReadDoc, ReadBlock, TextAfter, BlockBody, ProjectBounds, GoodBlock, Terminated, LinesBefore, Cr,
         EndInsert, FindAll, AllowEntryText, AllWritable;
    var d := DocOf(data);
    ReadDocCount(d);
    var start, end := Selected(data, i);
    var b, last, cr := d.blocks[i], i + 1 == |d.blocks|, Cr(data);
    CrIs(data);
    HeaderNonempty(b);
    if last { LastLineBare(data, i); }
    NotEmptyArgv(argv);
    AllowText(argv, cr);
    TextAfterLast(d, i);
    EndInsertText(data, Terminated(LinesBefore(d, i)), b, last, TextAfter(d, i), AllowLines(argv, cr));
    AllowBlock(b, last, cr, argv);
    ReadEdited(data, i, EndInsert(b, last, cr, AllowLines(argv, cr)), u);
    InsertNotBare(data, end, AllowLines(argv, cr));
  }

  lemma NotEmptyArgv(argv: seq<string>)
    requires AllWritable(argv)
    ensures argv != []
  {
  }

  lemma InsertNotBare(data: string, at: nat, added: seq<string>)
    requires at <= |data| && !EndsBare(data) && added != []
    ensures !EndsBare(InsertLine(data, at, Terminated(added)))
  {
    TerminatedEnd(added);
    var lead := if at > 0 && data[at - 1] != '\n' then Newline(data) else "";
    var w := lead + Terminated(added);
    assert w[|w| - 1] == Terminated(added)[|Terminated(added)| - 1];
    SpliceNotBare(data, at, at, w);
  }
}
