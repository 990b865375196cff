/**
 removeAllowEntries of internal/admin/policy.go: two byte spans per removed entry, then one
 copying pass with a cursor.
 */
module Removal {
  import opened Basics
  import opened Text
  import opened Layout
  import opened Splice

  // ----- The Go function -----

  function ConsumeNewline(data: string, index: nat): nat {
    if index < |data| && data[index] == '\n' then index + 1 else index
  }

  /** The text of allow table `index`: from the end of its header line to the next one. */
  function SectionBounds(block: string, headers: seq<Span>, index: nat): (nat, nat)
    requires index < |headers|
  {
    (headers[index].end, if index + 1 < |headers| then headers[index + 1].start else |block|)
  }

  lemma SectionInBlock(block: string, index: nat)
    requires index < |FindAll(IsAllowHeader, block)|
    ensures var (from, upto) := SectionBounds(block, FindAll(IsAllowHeader, block), index); from <= upto <= |block|
  {
    SpansInText(IsAllowHeader, block);
  }

  /** The header line and the argv line of entry `index`, newlines included. */
  function EntrySpans(data: string, start: nat, block: string, index: int): (r: Option<seq<Span>>)
    ensures r.Some? ==> |r.value| == 2
  {
    var headers := FindAll(IsAllowHeader, block);
    if index < 0 || index >= |headers| then None
    else
      SectionInBlock(block, index);
      var (from, upto) := SectionBounds(block, headers, index);
      var matches := FindAll(IsArgvLine, block[from..upto]);
      if |matches| != 1 then None
      else Some([Span(start + headers[index].start, ConsumeNewline(data, start + headers[index].end)),
                 Span(start + from + matches[0].start, ConsumeNewline(data, start + from + matches[0].end))])
  }

  function AllSpans(data: string, start: nat, block: string, remove: seq<int>): Option<seq<Span>> {
    if remove == [] then Some([])
    else match AllSpans(data, start, block, remove[..|remove| - 1])
      case None => None
      case Some(spans) =>
        match EntrySpans(data, start, block, remove[|remove| - 1])
        case None => None
        case Some(two) => Some(spans + two)
  }

  /** Copies everything outside the spans; None if a span starts before the cursor. */
  function Cut(data: string, cursor: nat, spans: seq<Span>): Option<string>
    decreases |spans|
  {
    if cursor > |data| then None
    else if spans == [] then Some(data[cursor..])
    else if spans[0].start < cursor || spans[0].start > |data| then None
    else match Cut(data, spans[0].end, spans[1..])
      case None => None
      case Some(rest) => Some(data[cursor..spans[0].start] + rest)
  }

  function RemoveAllow(data: string, count: nat, index: int, allowCount: nat, remove: seq<int>): Option<string> {
    BoundsInText(data, count, index);
    match ProjectBounds(data, count, index)
    case None => None
    case Some((start, end)) =>
      if |FindAll(IsAllowHeader, data[start..end])| != allowCount then None
      else match AllSpans(data, start, data[start..end], remove)
        case None => None
        case Some(spans) => Cut(data, 0, spans)
  }

  predicate InData(data: string, spans: seq<Span>) {
    forall i :: 0 <= i < |spans| ==> spans[i].start <= spans[i].end <= |data|
  }

  predicate Disjoint(spans: seq<Span>) {
    forall i, j :: 0 <= i < j < |spans| ==> spans[i].end <= spans[j].start
  }

  /** The second loop of removeAllowEntries. */
  method CutSpans(data: string, spans: seq<Span>) returns (r: Option<string>)
    requires InData(data, spans)
    ensures r == Cut(data, 0, spans)
  {
    var updated := "";
    var cursor: nat := 0;
    assert spans[0..] == spans;
    ExtendNothing(Cut(data, 0, spans));
    for i := 0 to |spans|
      invariant cursor <= |data|
      invariant Cut(data, 0, spans) == Extend(updated, Cut(data, cursor, spans[i..]))
    {
      var span := spans[i];
      assert spans[i..][0] == span && spans[i..][1..] == spans[i + 1..];
      if span.start < cursor {
        return None;
      }
      ExtendStep(updated, data[cursor..span.start], Cut(data, span.end, spans[i + 1..]));
      updated := updated + data[cursor..span.start];
      cursor := span.end;
    }
    assert spans[|spans|..] == [];
    r := Some(updated + data[cursor..]);
  }

  function Extend(done: string, rest: Option<string>): Option<string> {
    match rest case None => None case Some(r) => Some(done + r)
  }

  lemma ExtendNothing(rest: Option<string>)
    ensures Extend("", rest) == rest
  {
    if rest.Some? { assert "" + rest.value == rest.value; }
  }

  lemma ExtendStep(done: string, piece: string, rest: Option<string>)
    ensures Extend(done, Extend(piece, rest)) == Extend(done + piece, rest)
  {
    if rest.Some? { Regroup(done, piece, rest.value); }
  }

  // ----- What the copying pass does -----

  predicate Covered(spans: seq<Span>, i: nat) {
    exists k :: 0 <= k < |spans| && spans[k].start <= i < spans[k].end
  }

  /** The bytes from position `from` on that lie in no span. */
  function Kept(data: string, spans: seq<Span>, from: nat): string
    requires from <= |data|
    decreases |data| - from
  {
    if from == |data| then ""
    else (if Covered(spans, from) then "" else [data[from]]) + Kept(data, spans, from + 1)
  }

  function TotalLength(spans: seq<Span>): int {
    if spans == [] then 0 else (spans[0].end - spans[0].start) + TotalLength(spans[1..])
  }

  lemma {:induction false} KeptPlain(data: string, spans: seq<Span>, from: nat, upto: nat)
    requires from <= upto <= |data|
    requires forall i :: from <= i < upto ==> !Covered(spans, i)
    ensures Kept(data, spans, from) == data[from..upto] + Kept(data, spans, upto)
    decreases upto - from
  {
    hide Covered;
    if from == upto {
      assert data[from..upto] + Kept(data, spans, upto) == Kept(data, spans, upto);
    } else {
      KeptPlain(data, spans, from + 1, upto);
      assert !Covered(spans, from);
      assert data[from..upto] == [data[from]] + data[from + 1..upto];
      Regroup([data[from]], data[from + 1..upto], Kept(data, spans, upto));
    }
  }

  lemma {:induction false} KeptCovered(data: string, spans: seq<Span>, from: nat, upto: nat)
    requires from <= upto <= |data|
    requires forall i :: from <= i < upto ==> Covered(spans, i)
    ensures Kept(data, spans, from) == Kept(data, spans, upto)
    decreases upto - from
  {
    if from < upto { KeptCovered(data, spans, from + 1, upto); }
  }

  lemma {:induction false} KeptSame(data: string, a: seq<Span>, b: seq<Span>, from: nat)
    requires from <= |data|
    requires forall i :: from <= i < |data| ==> (Covered(a, i) <==> Covered(b, i))
    ensures Kept(data, a, from) == Kept(data, b, from)
    decreases |data| - from
  {
    hide Covered;
    if from < |data| { KeptSame(data, a, b, from + 1); }
  }

  lemma CoveredTail(spans: seq<Span>, i: nat)
    requires spans != [] && spans[0].end <= i
    ensures Covered(spans, i) <==> Covered(spans[1..], i)
  {
    if Covered(spans, i) {
      var k :| 0 <= k < |spans| && spans[k].start <= i < spans[k].end;
      assert spans[1..][k - 1] == spans[k];
    }
    if Covered(spans[1..], i) {
      var k :| 0 <= k < |spans[1..]| && spans[1..][k].start <= i < spans[1..][k].end;
      assert spans[k + 1] == spans[1..][k];
    }
  }

  /** Nothing before the first of the sorted spans is covered; the first span is covered throughout. */
  lemma FirstSpanCoverage(spans: seq<Span>)
    requires spans != [] && Disjoint(spans)
    requires forall i :: 0 <= i < |spans| ==> spans[i].start <= spans[i].end
    ensures forall i: nat :: i < spans[0].start ==> !Covered(spans, i)
    ensures forall i: nat :: spans[0].start <= i < spans[0].end ==> Covered(spans, i)
  {
  }

  /**
   With sorted disjoint spans the overlap error cannot happen: the output is the input without
   exactly the bytes in the spans, and it is shorter by the total length of the spans.
   */
  lemma {:induction false} CutExact(data: string, cursor: nat, spans: seq<Span>)
    requires InData(data, spans) && Disjoint(spans)
    requires cursor <= |data| && (spans != [] ==> cursor <= spans[0].start)
    ensures Cut(data, cursor, spans) == Some(Kept(data, spans, cursor))
    ensures |Kept(data, spans, cursor)| == |data| - cursor - TotalLength(spans)
    decreases |spans|
  {
    if spans == [] {
      KeptPlain(data, spans, cursor, |data|);
      assert data[cursor..|data|] + "" == data[cursor..];
    } else {
      var s, rest := spans[0], spans[1..];
      assert InData(data, rest) && Disjoint(rest);
      if rest != [] { assert spans[0].end <= spans[1].start == rest[0].start; }
      CutExact(data, s.end, rest);
      FirstSpanCoverage(spans);
      KeptPlain(data, spans, cursor, s.start);
      KeptCovered(data, spans, s.start, s.end);
      forall i | s.end <= i < |data| ensures Covered(spans, i) <==> Covered(rest, i) {
        CoveredTail(spans, i);
      }
      KeptSame(data, spans, rest, s.end);
    }
  }

  // ----- The spans of increasing entries are sorted and disjoint -----

  predicate Increasing(remove: seq<int>) {
    forall i, j :: 0 <= i < j < |remove| ==> remove[i] < remove[j]
  }

  lemma {:induction false} SplitEnds(s: string)
    ensures s != "" && s[|s| - 1] == '\n' ==> Split(s)[|Split(s)| - 1] == ""
    ensures s == "" || s[0] == '\n' ==> Split(s)[0] == ""
  {
    if |s| > 1 {
      SplitEnds(s[1..]);
      assert s[1..][|s[1..]| - 1] == s[|s| - 1];
      if s[|s| - 1] == '\n' { SplitAtNewline(s[1..]); }
    }
  }

  lemma {:induction false} SplitAtNewline(s: string)
    requires s != "" && s[|s| - 1] == '\n'
    ensures |Split(s)| >= 2
  {
    if |s| > 1 { SplitAtNewline(s[1..]); }
  }

  lemma NotArgv()
    ensures !IsArgvLine("")
  {
  }

  /** A match strictly inside a text that starts at a line end and stops at a line start. */
  lemma ArgvInside(section: string, bounded: bool)
    requires |FindAll(IsArgvLine, section)| == 1
    requires section == "" || section[0] == '\n'
    requires bounded ==> section != "" && section[|section| - 1] == '\n'
    ensures 1 <= FindAll(IsArgvLine, section)[0].start <= FindAll(IsArgvLine, section)[0].end <= |section|
    ensures bounded ==> FindAll(IsArgvLine, section)[0].end < |section|
  {
    hide Split, Join, IsArgvLine, Terminated, Hits;
    SplitEnds(section);
    NotArgv();
    JoinSplit(section);
    HitsMatch(IsArgvLine, Split(section), 0);
    var lines := Split(section);
    var k := Hits(IsArgvLine, lines, 0)[0];
    assert IsArgvLine(lines[k]);
    LineAt(lines, k);
    OffsetMonotone(lines, 0, k);
  }

  /** A match ends at a newline or at the end of the text. */
  lemma HitEnd(p: string -> bool, text: string, i: nat)
    requires i < |FindAll(p, text)|
    ensures FindAll(p, text)[i].end <= |text|
    ensures FindAll(p, text)[i].end < |text| ==> text[FindAll(p, text)[i].end] == '\n'
  {
    JoinSplit(text);
    HitsMatch(p, Split(text), 0);
    hide Split, Join, Terminated, Hits;
    LineAt(Split(text), Hits(p, Split(text), 0)[i]);
  }

  /** A match after the first starts right after a newline. */
  lemma HitStart(p: string -> bool, text: string, i: nat)
    requires 0 < i < |FindAll(p, text)|
    ensures 0 < FindAll(p, text)[i].start <= |text| && text[FindAll(p, text)[i].start - 1] == '\n'
  {
    JoinSplit(text);
    HitsMatch(p, Split(text), 0);
    HitsSorted(p, Split(text), 0);
    hide Split, Join, Terminated, Hits;
    var lines := Split(text);
    var k := Hits(p, lines, 0)[i];
    assert Hits(p, lines, 0)[0] < k;
    LineAt(lines, k - 1);
    OffsetStep(lines, k - 1);
  }

  /** Both spans of an entry lie between its header and the next one. */
  lemma EntrySpansPlaced(data: string, start: nat, block: string, index: int)
    requires start + |block| <= |data| && block == data[start..start + |block|]
    requires EntrySpans(data, start, block, index).Some?
    ensures 0 <= index < |FindAll(IsAllowHeader, block)|
    ensures var headers := FindAll(IsAllowHeader, block);
            var two := EntrySpans(data, start, block, index).value;
            && two[0].start == start + headers[index].start
            && two[0].start <= two[0].end <= two[1].start <= two[1].end <= |data|
            && (index + 1 < |headers| ==> two[1].end <= start + headers[index + 1].start)
  {
    SpansInText(IsAllowHeader, block);
    SectionInBlock(block, index);
    HitEnd(IsAllowHeader, block, index);
    var headers := FindAll(IsAllowHeader, block);
    var (from, upto) := SectionBounds(block, headers, index);
    if index + 1 < |headers| { HitStart(IsAllowHeader, block, index + 1); }
    var section := block[from..upto];
    hide FindAll, IsAllowHeader, IsArgvLine;
    assert section != "" ==> section[0] == block[from];
    assert index + 1 < |headers| ==> section != "" && section[|section| - 1] == block[upto - 1];
    ArgvInside(section, index + 1 < |headers|);
  }

  lemma SpansOfAll(data: string, start: nat, block: string, remove: seq<int>)
    requires remove != [] && AllSpans(data, start, block, remove).Some?
    ensures AllSpans(data, start, block, remove[..|remove| - 1]).Some?
    ensures EntrySpans(data, start, block, remove[|remove| - 1]).Some?
    ensures AllSpans(data, start, block, remove).value
            == AllSpans(data, start, block, remove[..|remove| - 1]).value
               + EntrySpans(data, start, block, remove[|remove| - 1]).value
  {
  }

  /** Sorted spans inside the file, all ending by `bound`. */
  predicate Placed(data: string, spans: seq<Span>, bound: nat) {
    InData(data, spans) && Disjoint(spans) && forall i :: 0 <= i < |spans| ==> spans[i].end <= bound
  }

  lemma PlacedAppend(data: string, spans: seq<Span>, bound: nat, two: seq<Span>, bound': nat)
    requires Placed(data, spans, bound) && |two| == 2
    requires bound <= two[0].start <= two[0].end <= two[1].start <= two[1].end <= bound' <= |data|
    ensures Placed(data, spans + two, bound')
  {
  }

  /** Where the entries up to and including `index` end. */
  function EntriesEnd(data: string, start: nat, block: string, index: int): nat {
    var headers := FindAll(IsAllowHeader, block);
    if 0 <= index + 1 < |headers| then start + headers[index + 1].start else |data|
  }

  lemma EntriesEndBefore(data: string, start: nat, block: string, i: int, j: int)
    requires start + |block| <= |data|
    requires -1 <= i < j < |FindAll(IsAllowHeader, block)|
    ensures EntriesEnd(data, start, block, i) <= start + FindAll(IsAllowHeader, block)[j].start
  {
    SpansInText(IsAllowHeader, block);
    hide FindAll, IsAllowHeader;
  }

  /**
   Indices in increasing order, as the caller's loop collects them, give sorted, disjoint
   spans inside the file.
   */
  lemma {:induction false} AllSpansSorted(data: string, start: nat, block: string, remove: seq<int>)
    requires start + |block| <= |data| && block == data[start..start + |block|]
    requires Increasing(remove) && AllSpans(data, start, block, remove).Some?
    ensures Placed(data, AllSpans(data, start, block, remove).value,
                   if remove == [] then 0 else EntriesEnd(data, start, block, remove[|remove| - 1]))
  {
    hide FindAll, IsAllowHeader, IsArgvLine, EntrySpans;
    if remove != [] {
      var before, index := remove[..|remove| - 1], remove[|remove| - 1];
      SpansOfAll(data, start, block, remove);
      hide AllSpans, Placed, EntriesEnd, Increasing;
      assert Increasing(before) && (before != [] ==> before[|before| - 1] < index) by { IncreasingPrefix(remove); }
      AllSpansSorted(data, start, block, before);
      EntrySpansPlaced(data, start, block, index);
      PreviousEntriesEnd(data, start, block, before, index);
      EntryEnds(data, start, block, index);
      PlacedAppend(data, AllSpans(data, start, block, before).value,
                   if before == [] then 0 else EntriesEnd(data, start, block, before[|before| - 1]),
                   EntrySpans(data, start, block, index).value, EntriesEnd(data, start, block, index));
    }
  }

  lemma IncreasingPrefix(remove: seq<int>)
    requires remove != [] && Increasing(remove)
    ensures var before := remove[..|remove| - 1];
            Increasing(before) && (before != [] ==> before[|before| - 1] < remove[|remove| - 1])
  {
  }

  lemma PreviousEntriesEnd(data: string, start: nat, block: string, before: seq<int>, index: int)
    requires start + |block| <= |data| && block == data[start..start + |block|]
    requires AllSpans(data, start, block, before).Some?
    requires 0 <= index < |FindAll(IsAllowHeader, block)|
    requires before != [] ==> before[|before| - 1] < index
    ensures before != [] ==>
              EntriesEnd(data, start, block, before[|before| - 1]) <= start + FindAll(IsAllowHeader, block)[index].start
  {
    hide FindAll, IsAllowHeader, EntrySpans, EntriesEnd;
    if before != [] {
      SpansOfAll(data, start, block, before);
      hide AllSpans;
      EntrySpansPlaced(data, start, block, before[|before| - 1]);
      EntriesEndBefore(data, start, block, before[|before| - 1], index);
    }
  }

  lemma EntryEnds(data: string, start: nat, block: string, index: int)
    requires start + |block| <= |data| && block == data[start..start + |block|]
    requires EntrySpans(data, start, block, index).Some?
    ensures EntrySpans(data, start, block, index).value[1].end <= EntriesEnd(data, start, block, index) <= |data|
  {
    EntrySpansPlaced(data, start, block, index);
    SpansInText(IsAllowHeader, block);
    hide FindAll, IsAllowHeader, EntrySpans;
  }

  /**
   removeAllowEntries on increasing indices: the overlap error is unreachable, the output is
   the file without exactly the bytes of the collected spans, and its length says so.
   */
  lemma RemoveAllowExact(data: string, count: nat, index: int, allowCount: nat, remove: seq<int>)
    requires Increasing(remove)
    requires ProjectBounds(data, count, index).Some?
    ensures var (start, end) := ProjectBounds(data, count, index).value;
            start <= end <= |data| &&
            var block := data[start..end];
            var r := RemoveAllow(data, count, index, allowCount, remove);
            if |FindAll(IsAllowHeader, block)| != allowCount || AllSpans(data, start, block, remove).None?
            then r == None
            else
              var spans := AllSpans(data, start, block, remove).value;
              r == Some(Kept(data, spans, 0)) && |r.value| == |data| - TotalLength(spans)
  {
    hide FindAll, ProjectBounds, AllSpans, Cut, Kept;
    BoundsInText(data, count, index);
    var (start, end) := ProjectBounds(data, count, index).value;
    var block := data[start..end];
    if AllSpans(data, start, block, remove).Some? {
      AllSpansSorted(data, start, block, remove);
      CutExact(data, 0, AllSpans(data, start, block, remove).value);
    }
  }

  /** removeAllowEntries: the span-collecting loop, then the copying loop. */
  method RemoveAllowEntries(data: string, count: nat, index: int, allowCount: nat, remove: seq<int>)
    returns (r: Option<string>)
    requires Increasing(remove)
    ensures r == RemoveAllow(data, count, index, allowCount, remove)
  {
    hide FindAll, EntrySpans, ProjectBounds;
    BoundsInText(data, count, index);
    match ProjectBounds(data, count, index) {
      case None => return None;
      case Some((start, end)) =>
        var block := data[start..end];
        if |FindAll(IsAllowHeader, block)| != allowCount { return None; }
        var spans: seq<Span> := [];
        for i := 0 to |remove|
          invariant AllSpans(data, start, block, remove[..i]) == Some(spans)
        {
          assert remove[..i + 1][..i] == remove[..i] && remove[..i + 1][i] == remove[i];
          var two := EntrySpans(data, start, block, remove[i]);
          if two.None? {
            NoneStays(data, start, block, remove, i + 1);
            return None;
          }
          spans := spans + two.value;
        }
        assert remove[..|remove|] == remove;
        AllSpansSorted(data, start, block, remove);
        r := CutSpans(data, spans);
    }
  }

  lemma {:induction false} NoneStays(data: string, start: nat, block: string, remove: seq<int>, i: nat)
    requires i <= |remove| && AllSpans(data, start, block, remove[..i]).None?
    ensures AllSpans(data, start, block, remove).None?
    decreases |remove| - i
  {
    hide EntrySpans;
    if i == |remove| {
      assert remove[..i] == remove;
    } else {
      assert remove[..i + 1][..i] == remove[..i];
      NoneStays(data, start, block, remove, i + 1);
    }
  }

  /** The positions of an argv, in increasing order, as the removal loop collects them. */
  function Positions(allow: seq<seq<string>>, argv: seq<string>): seq<int> {
    if allow == [] then []
    else
      var n := |allow| - 1;
      Positions(allow[..n], argv) + (if allow[n] == argv then [n] else [])
  }

  lemma {:induction false} PositionsExact(allow: seq<seq<string>>, argv: seq<string>)
    ensures Increasing(Positions(allow, argv))
    ensures forall i :: i in Positions(allow, argv) <==> 0 <= i < |allow| && allow[i] == argv
  {
    if allow != [] {
      var n := |allow| - 1;
      PositionsExact(allow[..n], argv);
      var before := Positions(allow[..n], argv);
      forall j | 0 <= j < |before| ensures before[j] < n { assert before[j] in before; }
      IncreasingAppend(before, n);
    }
  }

  /** The caller's loop in RemoveAllowlist: which entries go, and what stays. */
  method CollectRemovals(allow: seq<seq<string>>, argv: seq<string>) returns (remove: seq<int>, want: seq<seq<string>>)
    ensures remove == Positions(allow, argv) && want == Without(allow, argv)
  {
    remove, want := [], [];
    for i := 0 to |allow|
      invariant remove == Positions(allow[..i], argv) && want == Without(allow[..i], argv)
    {
      assert allow[..i + 1][..i] == allow[..i];
      if allow[i] == argv {
        remove := remove + [i];
      } else {
        want := want + [allow[i]];
      }
    }
    assert allow[..|allow|] == allow;
  }

  lemma IncreasingAppend(remove: seq<int>, i: int)
    requires Increasing(remove) && forall j :: 0 <= j < |remove| ==> remove[j] < i
    ensures Increasing(remove + [i])
  {
  }

  function Without(allow: seq<seq<string>>, argv: seq<string>): seq<seq<string>> {
    if allow == [] then []
    else
      var last := allow[|allow| - 1];
      Without(allow[..|allow| - 1], argv) + (if last == argv then [] else [last])
  }
}
