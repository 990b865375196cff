/**
 No splice touches bytes outside the block of the selected project, whatever the text is.
 */
module Outside {
  import opened Basics
  import opened Text
  import opened TomlStrings
  import opened Layout
  import opened Splice
  import opened Removal
  import opened AllowCommutes
  import Config

  /** Everything before `start` and everything from `end` on is the same in both texts. */
  predicate SameOutside(data: string, u: string, start: nat, end: nat) {
    && start <= end <= |data| && start + (|data| - end) <= |u|
    && u[..start] == data[..start] && u[|u| - (|data| - end)..] == data[end..]
  }

  lemma SpanOutside(data: string, start: nat, end: nat, x: nat, y: nat, w: string)
    requires start <= x <= y <= end <= |data|
    ensures SameOutside(data, ReplaceSpan(data, x, y, w), start, end)
  {
  }

  lemma ReplaceFieldOutside(data: string, count: nat, i: int, key: string, v: string, u: string)
    requires ReplaceField(data, count, i, key, v) == Some(u)
    ensures ProjectBounds(data, count, i).Some?
    ensures SameOutside(data, u, ProjectBounds(data, count, i).value.0, ProjectBounds(data, count, i).value.1)
  {
    hide ProjectBounds, FieldHits, ValueSpan, JsonString;
    BoundsInText(data, count, i);
    var (start, end) := ProjectBounds(data, count, i).value;
    var s := ValueSpan(data[start..end], start, key, FieldHits(key, data[start..end])[0]);
    SpanOutside(data, start, end, s.start, s.end, JsonString(v));
  }

  lemma ReplaceApprovalOutside(data: string, count: nat, i: int, approval: string, u: string)
    requires ReplaceApproval(data, count, i, approval) == Some(u)
    ensures ProjectBounds(data, count, i).Some?
    ensures SameOutside(data, u, ProjectBounds(data, count, i).value.0, ProjectBounds(data, count, i).value.1)
  {
    hide ProjectBounds, FieldHits, ValueSpan, ApprovalInsertAt, ApprovalLine, HasCrLf;
    BoundsInText(data, count, i);
    var (start, end) := ProjectBounds(data, count, i).value;
    var hits := FieldHits("approval", data[start..end]);
    if |hits| == 1 {
      var s := ValueSpan(data[start..end], start, "approval", hits[0]);
      SpanOutside(data, start, end, s.start, s.end, "\"" + approval + "\"");
    } else {
      InsertOutside(data, start, end, ApprovalInsertAt(data[start..end], start),
                    ApprovalLine(approval) + Newline(data));
    }
  }

  lemma InsertOutside(data: string, start: nat, end: nat, at: nat, text: string)
    requires start <= at <= end <= |data|
    ensures SameOutside(data, InsertLine(data, at, text), start, end)
  {
    hide SameOutside, HasCrLf;
    var lead := if at > 0 && data[at - 1] != '\n' then Newline(data) else "";
    SpanOutside(data, start, end, at, at, lead + text);
  }

  lemma InsertAllowOutside(data: string, count: nat, i: int, allowCount: nat, argv: seq<string>, u: string)
    requires argv != [] && InsertAllow(data, count, i, allowCount, argv) == Some(u)
    ensures ProjectBounds(data, count, i).Some?
    ensures SameOutside(data, u, ProjectBounds(data, count, i).value.0, ProjectBounds(data, count, i).value.1)
  {
    hide ProjectBounds, FindAll, AllowEntryText, HasCrLf;
    BoundsInText(data, count, i);
    var (start, end) := ProjectBounds(data, count, i).value;
    InsertOutside(data, start, end, end, AllowEntryText(argv, Newline(data)));
  }

  /** A block that is followed by another header ends in a newline. */
  lemma BlockEnds(data: string, count: nat, i: int, start: nat, end: nat)
    requires ProjectBounds(data, count, i) == Some((start, end)) && start <= end <= |data|
    ensures end < |data| ==> end > start && data[end - 1] == '\n'
  {
    var headers := FindAll(IsProjectHeader, data);
    SpansInText(IsProjectHeader, data);
    if i + 1 < |headers| { HitStart(IsProjectHeader, data, i + 1); }
    hide FindAll, IsProjectHeader;
  }

  /** removeAllowEntries cuts only inside the block. */
  lemma RemoveAllowOutside(data: string, count: nat, i: int, allowCount: nat, remove: seq<int>, u: string)
    requires Increasing(remove) && RemoveAllow(data, count, i, allowCount, remove) == Some(u)
    ensures ProjectBounds(data, count, i).Some?
    ensures SameOutside(data, u, ProjectBounds(data, count, i).value.0, ProjectBounds(data, count, i).value.1)
  {
    hide ProjectBounds, FindAll, AllSpans, Cut;
    BoundsInText(data, count, i);
    var (start, end) := ProjectBounds(data, count, i).value;
    BlockEnds(data, count, i, start, end);
    CutOutside(data, start, end, remove, u);
  }

  lemma CutOutside(data: string, start: nat, end: nat, remove: seq<int>, u: string)
    requires start <= end <= |data| && (end < |data| ==> end > start && data[end - 1] == '\n') && Increasing(remove)
    requires AllSpans(data, start, data[start..end], remove).Some?
    requires Cut(data, 0, AllSpans(data, start, data[start..end], remove).value) == Some(u)
    ensures SameOutside(data, u, start, end)
  {
    hide AllSpans, Cut, FullSpans, LinesOf, KeptLines, Join, Split, Rising, IsArgvLine, IsAllowHeader, Headers;
    var before, block, after := data[..start], data[start..end], data[end..];
    var lines := Split(block);
    JoinSplit(block);
    SplitEnds(block);
    assert after != "" ==> block[|block| - 1] == '\n';
    assert data == before + (block + after);
    assert Around(data, before, lines, after);
    var gone := AllEntryLines(data, before, lines, after, remove);
    GoneRising(lines, remove, gone);
    forall k | 0 <= k < |gone| ensures after != "" ==> gone[k] + 1 < |lines| {
      GoneNotLast(lines, after, remove, gone, k);
    }
    CutLines(data, before, lines, after, 0, gone);
    CutFromStart(data, before, lines, after, gone);
    Framed(before, Join(KeptLines(lines, 0, gone)), after);
  }

  lemma GoneNotLast(lines: seq<string>, after: string, remove: seq<int>, gone: seq<nat>, k: nat)
    requires LinesOf(lines, remove, gone) && k < |gone| && lines != [] && (after != "" ==> lines[|lines| - 1] == "")
    ensures gone[k] < |lines| && (gone[k] + 1 < |lines| || after == "")
  {
    hide LinesOf, Headers, IsArgvLine, IsAllowHeader;
    GonePlace(lines, remove, gone, k);
    HitOpened(lines, remove[k / 2]);
    NotLastLine(lines, after, gone[k]);
  }

  lemma Framed(before: string, middle: string, after: string)
    ensures var u := before + (middle + after);
            u[..|before|] == before && u[|u| - |after|..] == after
  {
  }

  /** appendProject only adds at the end. */
  lemma AppendOutside(data: string, p: Config.Project)
    ensures data <= AppendProject(data, p)
  {
    hide NewProjectLines, Terminated, HasCrLf;
  }

  /**
   No splice touches a text whose header lines are not the ones of the parsed policy: as many
   project headers as projects, and as many allow headers in the block as entries.
   */
  lemma HeadersCounted(data: string, count: nat, i: int, allowCount: nat, argv: seq<string>, remove: seq<int>,
                       key: string, value: string)
    requires argv != []
    ensures |FindAll(IsProjectHeader, data)| != count || i < 0 || i >= count ==>
              && RemoveProject(data, count, i) == None && ReplaceField(data, count, i, key, value) == None
              && ReplaceApproval(data, count, i, value) == None
              && InsertAllow(data, count, i, allowCount, argv) == None
              && RemoveAllow(data, count, i, allowCount, remove) == None
    ensures InsertAllow(data, count, i, allowCount, argv).Some? || RemoveAllow(data, count, i, allowCount, remove).Some?
            ==> && ProjectBounds(data, count, i).Some? && InText(data, ProjectBounds(data, count, i))
                && var (start, end) := ProjectBounds(data, count, i).value;
                   |FindAll(IsAllowHeader, data[start..end])| == allowCount
  {
    hide FindAll, AllSpans, Cut, FieldHits, InsertLine;
    BoundsInText(data, count, i);
  }
}
