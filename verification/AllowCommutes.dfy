/**
 Allow entries: removeAllowEntries of internal/admin/policy.go removes exactly the selected
 entries from what the policy is read as.
 */
module AllowCommutes {
  import opened Basics
  import opened Text
  import opened Layout
  import opened Splice
  import opened Removal
  import opened Reading
  import opened BlockReading
  import opened EntryReading
  import opened DocReading
  import opened Commutes

  // ----- Header matches and opened tables -----

  function Headers(lines: seq<string>): seq<nat> { Hits(IsAllowHeader, lines, 0) }

  lemma {:induction false} OpenedIsHits(lines: seq<string>, k: nat)
    requires k <= |lines|
    ensures Opened(lines, k) == |Hits(IsAllowHeader, lines[..k], 0)|
  {
    hide IsAllowHeader;
    if k > 0 {
      OpenedIsHits(lines, k - 1);
      assert lines[..k] == lines[..k - 1] + [lines[k - 1]];
      HitsConcat(IsAllowHeader, lines[..k - 1], [lines[k - 1]], 0);
      assert [lines[k - 1]][1..] == [];
    }
  }

  lemma HitAt(lines: seq<string>, k: nat)
    requires k < |lines| && IsAllowHeader(lines[k])
    ensures Opened(lines, k) < |Headers(lines)| && Headers(lines)[Opened(lines, k)] == k
  {
    hide IsAllowHeader, Opened;
    OpenedIsHits(lines, k);
    assert lines == lines[..k] + lines[k..];
    HitsConcat(IsAllowHeader, lines[..k], lines[k..], 0);
    assert lines[k..][0] == lines[k];
  }

  lemma HitOpened(lines: seq<string>, r: nat)
    requires r < |Headers(lines)|
    ensures Headers(lines)[r] < |lines| && IsAllowHeader(lines[Headers(lines)[r]])
    ensures Opened(lines, Headers(lines)[r]) == r && Opened(lines, Headers(lines)[r] + 1) == r + 1
  {
    HitsMatch(IsAllowHeader, lines, 0);
    HitsSorted(IsAllowHeader, lines, 0);
    hide IsAllowHeader, Hits;
    HitAt(lines, Headers(lines)[r]);
  }

  lemma {:induction false} OpenedMonotone(lines: seq<string>, j: nat, k: nat)
    requires j <= k <= |lines|
    ensures Opened(lines, j) <= Opened(lines, k)
    decreases k - j
  {
    hide IsAllowHeader;
    if j < k { OpenedMonotone(lines, j, k - 1); }
  }

  /** Line k lies after the header of entry r and not after the next header. */
  predicate InSection(lines: seq<string>, r: int, k: nat) {
    && 0 <= r < |Headers(lines)| && Headers(lines)[r] < k
    && (r + 1 < |Headers(lines)| ==> k < Headers(lines)[r + 1])
  }

  /** The argv lines of entry r are those between its header and the next one. */
  lemma ArgvInSection(lines: seq<string>, r: nat, k: nat)
    requires k < |lines| && IsArgvLine(lines[k])
    ensures ArgvOf(lines, k, r) <==> InSection(lines, r, k)
  {
    hide IsAllowHeader, IsArgvLine, Opened, Headers;
    AllOpened(lines);
    if r < |Headers(lines)| {
      HitOpened(lines, r);
      var h := Headers(lines)[r];
      if k <= h { OpenedMonotone(lines, k, h); } else { OpenedMonotone(lines, h + 1, k); }
      if r + 1 < |Headers(lines)| {
        HitOpened(lines, r + 1);
        var n := Headers(lines)[r + 1];
        AllowHeaderKind(lines[n]);
        if k <= n { OpenedMonotone(lines, k, n); } else { OpenedMonotone(lines, n + 1, k); }
      }
    }
    OpenedMonotone(lines, k, |lines|);
  }

  lemma AllOpened(lines: seq<string>)
    ensures Opened(lines, |lines|) == |Headers(lines)|
  {
    assert lines[..|lines|] == lines;
    OpenedIsHits(lines, |lines|);
  }

  // ----- The text of one allow table -----

  /** The lines that end where table r ends: all of them, or those before the next header. */
  function UpTo(lines: seq<string>, r: nat): seq<string>
    requires r < |Headers(lines)|
  {
    if r + 1 < |Headers(lines)| && Headers(lines)[r + 1] <= |lines| then lines[..Headers(lines)[r + 1]] + [""]
    else lines
  }

  lemma AfterLine(lines: seq<string>, h: nat)
    requires h < |lines|
    ensures Offset(lines, h) + |lines[h]| <= |Join(lines)|
    ensures Join(lines)[Offset(lines, h) + |lines[h]|..] == Join([""] + lines[h + 1..])
  {
    hide Offset, Terminated;
    LineAt(lines, h);
    SplitAtLine(lines, h);
    var rest := lines[h..];
    assert rest[0] == lines[h] && rest[1..] == lines[h + 1..];
    assert ([""] + lines[h + 1..])[1..] == lines[h + 1..];
    DropTwice(Join(lines), Offset(lines, h), |lines[h]|);
    if |rest| > 1 {
      Dropped(lines[h], "\n" + Join(lines[h + 1..]));
      assert "" + "\n" + Join(lines[h + 1..]) == "\n" + Join(lines[h + 1..]);
      Regroup(lines[h], "\n", Join(lines[h + 1..]));
    }
  }

  lemma DropTwice(s: string, a: nat, b: nat)
    requires a + b <= |s|
    ensures s[a..][b..] == s[a + b..]
  {
  }

  lemma TakeThenDrop(s: string, a: nat, b: nat)
    requires a <= b <= |s|
    ensures s[..b][a..] == s[a..b]
  {
  }

  /** The lines of the text between header line h and the end of table r. */
  function SectionLines(lines: seq<string>, r: nat): seq<string>
    requires r < |Headers(lines)|
  {
    var h := Headers(lines)[r];
    if h < |UpTo(lines, r)| then [""] + UpTo(lines, r)[h + 1..] else [""]
  }

  lemma NextHeader(lines: seq<string>, r: nat)
    requires r < |Headers(lines)|
    ensures Headers(lines)[r] < |lines|
    ensures r + 1 < |Headers(lines)| ==> Headers(lines)[r] < Headers(lines)[r + 1] < |lines|
    ensures Headers(lines)[r] < |UpTo(lines, r)| && UpTo(lines, r)[Headers(lines)[r]] == lines[Headers(lines)[r]]
  {
    hide IsAllowHeader, Headers;
    HitOpened(lines, r);
    if r + 1 < |Headers(lines)| {
      HitOpened(lines, r + 1);
      HeadersSorted(lines, r);
    }
  }

  lemma HeadersSorted(lines: seq<string>, r: nat)
    requires r + 1 < |Headers(lines)|
    ensures Headers(lines)[r] < Headers(lines)[r + 1]
  {
    HitsSorted(IsAllowHeader, lines, 0);
  }

  lemma PrefixText(lines: seq<string>, n: nat)
    requires n < |lines|
    ensures Offset(lines, n) <= |Join(lines)| && Join(lines)[..Offset(lines, n)] == Join(lines[..n] + [""])
  {
    hide Terminated, Join;
    SplitAtLine(lines, n);
    JoinEmptyLast(lines[..n]);
  }

  lemma SameOffset(lines: seq<string>, n: nat, h: nat)
    requires h < n <= |lines|
    ensures Offset(lines[..n] + [""], h) == Offset(lines, h)
  {
    assert (lines[..n] + [""])[..h] == lines[..h];
  }

  /** The section searched for an argv line consists of whole lines. */
  lemma SectionText(lines: seq<string>, r: nat, h: nat)
    requires r < |Headers(lines)| && h == Headers(lines)[r]
    ensures h < |lines| && Offset(lines, h) + |lines[h]| <= |Join(lines)|
    ensures var n := if r + 1 < |Headers(lines)| && Headers(lines)[r + 1] < |lines|
                     then Offset(lines, Headers(lines)[r + 1]) else |Join(lines)|;
            && Offset(lines, h) + |lines[h]| <= n <= |Join(lines)|
            && Join(lines)[Offset(lines, h) + |lines[h]|..n] == Join(SectionLines(lines, r))
  {
    hide IsAllowHeader, Headers, Offset, Join;
    NextHeader(lines, r);
    AfterLine(lines, h);
    var from := Offset(lines, h) + |lines[h]|;
    if r + 1 < |Headers(lines)| {
      var n := Headers(lines)[r + 1];
      PrefixText(lines, n);
      SameOffset(lines, n, h);
      AfterLine(UpTo(lines, r), h);
      TakeThenDrop(Join(lines), from, Offset(lines, n));
    } else {
      TakeThenDrop(Join(lines), from, |Join(lines)|);
    }
  }

  /** Line j of the section is line h + j of the block. */
  lemma SectionLine(lines: seq<string>, r: nat, h: nat, j: nat)
    requires r < |Headers(lines)| && h == Headers(lines)[r]
    requires 0 < j < |SectionLines(lines, r)| && SectionLines(lines, r)[j] != ""
    ensures h + j < |lines| && SectionLines(lines, r)[j] == lines[h + j] && InSection(lines, r, h + j)
    ensures Offset(lines, h + j) == Offset(lines, h) + |lines[h]| + Offset(SectionLines(lines, r), j)
  {
    hide IsAllowHeader, Headers, SectionLines, Terminated;
    SectionPrefix(lines, r, h, j);
    var between := lines[h + 1..h + j];
    assert lines[..h + j] == lines[..h] + ([lines[h]] + between);
    TerminatedConcat(lines[..h], [lines[h]] + between);
    TerminatedConcat([lines[h]], between);
    TerminatedConcat([""], between);
    TerminatedOne(lines[h]);
    TerminatedOne("");
  }

  lemma SectionPrefix(lines: seq<string>, r: nat, h: nat, j: nat)
    requires r < |Headers(lines)| && h == Headers(lines)[r]
    requires 0 < j < |SectionLines(lines, r)| && SectionLines(lines, r)[j] != ""
    ensures h + j < |lines| && SectionLines(lines, r)[j] == lines[h + j] && InSection(lines, r, h + j)
    ensures SectionLines(lines, r)[..j] == [""] + lines[h + 1..h + j]
  {
    hide IsAllowHeader, Headers;
    NextHeader(lines, r);
    var m := UpTo(lines, r);
    assert SectionLines(lines, r)[j] == m[h + j];
    assert h + j < |lines| && m[..h + j] == lines[..h + j];
    assert m[h + 1..h + j] == m[..h + j][h + 1..] == lines[h + 1..h + j];
    assert m[h + 1..][..j - 1] == m[h + 1..h + j];
    assert ([""] + m[h + 1..])[..j] == [""] + m[h + 1..][..j - 1];
  }

  lemma LineInSection(lines: seq<string>, r: nat, k: nat)
    requires r < |Headers(lines)| && k < |lines| && InSection(lines, r, k)
    ensures var j := k - Headers(lines)[r]; 0 < j < |SectionLines(lines, r)| && SectionLines(lines, r)[j] == lines[k]
  {
    hide IsAllowHeader, Headers;
    NextHeader(lines, r);
  }

  // ----- The two lines of an entry -----

  /** The bytes of line k, newline included, in a text that starts with `before` characters. */
  function FullSpan(lines: seq<string>, k: nat, before: nat): Span {
    if k + 1 < |lines| then Span(before + Offset(lines, k), before + Offset(lines, k + 1))
    else if k < |lines| then Span(before + Offset(lines, k), before + |Join(lines)|)
    else Span(0, 0)
  }

  /** Around a block: what comes before it, its lines, what comes after. */
  predicate Around(data: string, before: string, lines: seq<string>, after: string) {
    lines != [] && AllNewlineless(lines) && data == before + (Join(lines) + after)
  }

  lemma EndOfLine(data: string, before: string, lines: seq<string>, after: string, k: nat)
    requires Around(data, before, lines, after) && k < |lines| && (k + 1 < |lines| || after == "")
    ensures Span(|before| + Offset(lines, k), ConsumeNewline(data, |before| + Offset(lines, k) + |lines[k]|))
            == FullSpan(lines, k, |before|)
  {
    hide Terminated, Join, Offset;
    LineAt(lines, k);
    var e := Offset(lines, k) + |lines[k]|;
    if k + 1 < |lines| {
      OffsetStep(lines, k);
      assert data[|before| + e] == Join(lines)[e];
    }
  }

  /** Line a is the one argv line of table r. */
  predicate OnlyArgv(lines: seq<string>, r: nat, a: nat) {
    && a < |lines| && IsArgvLine(lines[a]) && InSection(lines, r, a)
    && forall k :: 0 <= k < |lines| && IsArgvLine(lines[k]) && InSection(lines, r, k) ==> k == a
  }

  /** The single match of a pattern in a text. */
  lemma OneMatch(p: string -> bool, text: string, lines: seq<string>) returns (j: nat)
    requires lines != [] && AllNewlineless(lines) && text == Join(lines) && |FindAll(p, text)| == 1
    ensures j < |lines| && p(lines[j]) && FindAll(p, text)[0] == Span(Offset(lines, j), Offset(lines, j) + |lines[j]|)
    ensures forall k :: 0 <= k < |lines| && p(lines[k]) ==> k == j
  {
    hide Split, Join, Offset;
    SplitJoin(lines);
    HitsMatch(p, lines, 0);
    j := Hits(p, lines, 0)[0];
    forall k | 0 <= k < |lines| && p(lines[k]) ensures k == j {
      HitsComplete(p, lines, 0, k);
    }
  }

  lemma SectionNewlineless(lines: seq<string>, r: nat)
    requires r < |Headers(lines)| && AllNewlineless(lines)
    ensures AllNewlineless(SectionLines(lines, r))
  {
    hide Headers;
  }

  lemma HeadersOf(lines: seq<string>, r: nat, block: string)
    requires lines != [] && AllNewlineless(lines) && block == Join(lines)
    ensures |FindAll(IsAllowHeader, block)| == |Headers(lines)|
    ensures r < |Headers(lines)| ==>
              Headers(lines)[r] < |lines|
              && FindAll(IsAllowHeader, block)[r] == LineSpan(lines, Headers(lines)[r])
  {
    hide Split, Join, Offset, IsAllowHeader;
    SplitJoin(lines);
    HitsMatch(IsAllowHeader, lines, 0);
  }

  /** The section the Go code searches is the text of the section's lines. */
  lemma SectionFound(lines: seq<string>, r: nat, block: string)
    requires lines != [] && AllNewlineless(lines) && block == Join(lines)
    requires r < |Headers(lines)| == |FindAll(IsAllowHeader, block)|
    ensures var (from, upto) := SectionBounds(block, FindAll(IsAllowHeader, block), r);
            from <= upto <= |block| && block[from..upto] == Join(SectionLines(lines, r))
            && Headers(lines)[r] < |lines| && from == Offset(lines, Headers(lines)[r]) + |lines[Headers(lines)[r]]|
  {
    hide Split, Join, Offset, IsAllowHeader, FindAll, Headers, SectionLines;
    HeadersOf(lines, r, block);
    SectionText(lines, r, Headers(lines)[r]);
    if r + 1 < |Headers(lines)| { HeadersOf(lines, r + 1, block); }
  }

  /** An argv line is never empty, so never the empty line that ends a block inside the file. */
  lemma NotLastLine(lines: seq<string>, after: string, k: nat)
    requires lines != [] && (after != "" ==> lines[|lines| - 1] == "")
    requires k < |lines| && (IsArgvLine(lines[k]) || IsAllowHeader(lines[k]))
    ensures k + 1 < |lines| || after == ""
  {
    hide IsArgvLine, IsAllowHeader;
    EmptyMatches();
  }

  lemma EmptyMatches()
    ensures !IsArgvLine("") && !IsAllowHeader("")
  {
  }

  /** The spans of an entry are its header line and its only argv line. */
  lemma EntryLines(data: string, before: string, lines: seq<string>, after: string, r: int) returns (h: nat, a: nat)
    requires Around(data, before, lines, after) && (after != "" ==> lines[|lines| - 1] == "")
    requires EntrySpans(data, |before|, Join(lines), r).Some?
    ensures 0 <= r < |Headers(lines)| && h == Headers(lines)[r] && OnlyArgv(lines, r, a)
    ensures EntrySpans(data, |before|, Join(lines), r).value
            == [FullSpan(lines, h, |before|), FullSpan(lines, a, |before|)]
  {
    hide Join, Offset, IsAllowHeader, IsArgvLine, Headers, FullSpan, ConsumeNewline, EntrySpans, OnlyArgv;
    h, a := EntryFound(data, |before|, lines, Join(lines), r);
    NotLastLine(lines, after, h);
    NotLastLine(lines, after, a);
    EndOfLine(data, before, lines, after, h);
    EndOfLine(data, before, lines, after, a);
  }

  lemma EntryFound(data: string, start: nat, lines: seq<string>, block: string, r: int) returns (h: nat, a: nat)
    requires lines != [] && AllNewlineless(lines) && block == Join(lines)
    requires EntrySpans(data, start, block, r).Some?
    ensures 0 <= r < |Headers(lines)| && h == Headers(lines)[r] && OnlyArgv(lines, r, a)
    ensures h < |lines| && a < |lines| && IsAllowHeader(lines[h]) && IsArgvLine(lines[a])
    ensures EntrySpans(data, start, block, r).value
            == [Span(start + Offset(lines, h), ConsumeNewline(data, start + Offset(lines, h) + |lines[h]|)),
                Span(start + Offset(lines, a), ConsumeNewline(data, start + Offset(lines, a) + |lines[a]|))]
  {
    hide Split, Join, Offset, IsAllowHeader, IsArgvLine, FindAll, Headers, SectionLines, ConsumeNewline, EntrySpans,
         OnlyArgv;
    EntryInRange(data, start, block, r);
    HeadersOf(lines, r, block);
    HitOpened(lines, r);
    SectionFound(lines, r, block);
    h := Headers(lines)[r];
    var (from, upto) := SectionBounds(block, FindAll(IsAllowHeader, block), r);
    EntryParts(data, start, block, r, from, upto);
    SectionStart(lines, r);
    var j := SectionMatch(lines, r, block[from..upto]);
    a := h + j;
  }

  lemma EntryInRange(data: string, start: nat, block: string, r: int)
    requires EntrySpans(data, start, block, r).Some?
    ensures 0 <= r < |FindAll(IsAllowHeader, block)|
  {
    hide FindAll;
  }

  lemma EntryParts(data: string, start: nat, block: string, r: nat, from: nat, upto: nat)
    requires EntrySpans(data, start, block, r).Some? && r < |FindAll(IsAllowHeader, block)|
    requires (from, upto) == SectionBounds(block, FindAll(IsAllowHeader, block), r) && from <= upto <= |block|
    ensures |FindAll(IsArgvLine, block[from..upto])| == 1
    ensures var h, m := FindAll(IsAllowHeader, block)[r], FindAll(IsArgvLine, block[from..upto])[0];
            EntrySpans(data, start, block, r).value == [Span(start + h.start, ConsumeNewline(data, start + h.end)),
                                                        Span(start + from + m.start,
                                                             ConsumeNewline(data, start + from + m.end))]
  {
    hide FindAll, IsAllowHeader, IsArgvLine, ConsumeNewline;
  }

  /** The single argv match in the text of a table is the table's only argv line. */
  lemma SectionMatch(lines: seq<string>, r: nat, section: string) returns (j: nat)
    requires r < |Headers(lines)| && Headers(lines)[r] < |lines| && AllNewlineless(lines)
    requires SectionLines(lines, r) != [] && section == Join(SectionLines(lines, r))
    requires |FindAll(IsArgvLine, section)| == 1
    ensures var h := Headers(lines)[r];
            && OnlyArgv(lines, r, h + j) && h + j < |lines| && IsArgvLine(lines[h + j])
            && Offset(lines, h) + |lines[h]| + FindAll(IsArgvLine, section)[0].start == Offset(lines, h + j)
            && Offset(lines, h) + |lines[h]| + FindAll(IsArgvLine, section)[0].end
               == Offset(lines, h + j) + |lines[h + j]|
  {
    hide Split, Join, Offset, IsAllowHeader, IsArgvLine, FindAll, Headers, SectionLines, InSection, OnlyArgv;
    SectionNewlineless(lines, r);
    j := OneMatch(IsArgvLine, section, SectionLines(lines, r));
    EmptyMatches();
    SectionStart(lines, r);
    SectionLine(lines, r, Headers(lines)[r], j);
    OnlyOne(lines, r, Headers(lines)[r] + j, j);
  }

  lemma SectionStart(lines: seq<string>, r: nat)
    requires r < |Headers(lines)|
    ensures SectionLines(lines, r) != [] && SectionLines(lines, r)[0] == ""
  {
    hide Headers;
  }

  lemma OnlyOne(lines: seq<string>, r: nat, a: nat, j: nat)
    requires r < |Headers(lines)| && a < |lines| && IsArgvLine(lines[a]) && InSection(lines, r, a)
    requires a == Headers(lines)[r] + j
    requires forall k :: 0 <= k < |SectionLines(lines, r)| && IsArgvLine(SectionLines(lines, r)[k]) ==> k == j
    ensures OnlyArgv(lines, r, a)
  {
    hide IsArgvLine, Headers, SectionLines;
    forall k | 0 <= k < |lines| && IsArgvLine(lines[k]) && InSection(lines, r, k) ensures k == a {
      LineInSection(lines, r, k);
    }
  }

  // ----- The lines that go -----

  /** Line numbers `gone` are the header and argv lines of the entries in `remove`, in order. */
  ghost predicate LinesOf(lines: seq<string>, remove: seq<int>, gone: seq<nat>) {
    && |gone| == 2 * |remove|
    && forall i :: 0 <= i < |remove| ==>
         && 0 <= remove[i] < |Headers(lines)|
         && gone[2 * i] == Headers(lines)[remove[i]]
         && OnlyArgv(lines, remove[i], gone[2 * i + 1])
  }

  function FullSpans(lines: seq<string>, gone: seq<nat>, before: nat): seq<Span> {
    if gone == [] then [] else [FullSpan(lines, gone[0], before)] + FullSpans(lines, gone[1..], before)
  }

  lemma {:induction false} FullSpansConcat(lines: seq<string>, a: seq<nat>, b: seq<nat>, before: nat)
    ensures FullSpans(lines, a + b, before) == FullSpans(lines, a, before) + FullSpans(lines, b, before)
  {
    hide FullSpan;
    if a == [] {
      assert a + b == b;
    } else {
      assert (a + b)[1..] == a[1..] + b;
      FullSpansConcat(lines, a[1..], b, before);
    }
  }

  lemma FullSpansTwo(lines: seq<string>, h: nat, a: nat, before: nat)
    ensures FullSpans(lines, [h, a], before) == [FullSpan(lines, h, before), FullSpan(lines, a, before)]
  {
    hide FullSpan;
    assert [h, a][1..] == [a] && [a][1..] == [];
    assert FullSpans(lines, [a], before) == [FullSpan(lines, a, before)];
  }

  lemma LinesOfAppend(lines: seq<string>, remove: seq<int>, gone: seq<nat>, r: nat, h: nat, a: nat)
    requires LinesOf(lines, remove, gone)
    requires r < |Headers(lines)| && h == Headers(lines)[r] && OnlyArgv(lines, r, a)
    ensures LinesOf(lines, remove + [r], gone + [h, a])
  {
    hide OnlyArgv, Headers;
    var remove', gone' := remove + [r], gone + [h, a];
    forall i | 0 <= i < |remove'|
      ensures 0 <= remove'[i] < |Headers(lines)| && gone'[2 * i] == Headers(lines)[remove'[i]]
      ensures OnlyArgv(lines, remove'[i], gone'[2 * i + 1])
    {
      if i < |remove| { assert gone'[2 * i] == gone[2 * i] && gone'[2 * i + 1] == gone[2 * i + 1]; }
    }
  }

  lemma {:induction false} AllEntryLines(data: string, before: string, lines: seq<string>, after: string,
                                         remove: seq<int>)
    returns (gone: seq<nat>)
    requires Around(data, before, lines, after) && (after != "" ==> lines[|lines| - 1] == "")
    requires AllSpans(data, |before|, Join(lines), remove).Some?
    ensures LinesOf(lines, remove, gone)
    ensures AllSpans(data, |before|, Join(lines), remove).value == FullSpans(lines, gone, |before|)
    decreases |remove|
  {
    hide Join, EntrySpans, OnlyArgv, FullSpan, Headers;
    if remove == [] {
      gone := [];
    } else {
      var front, r := remove[..|remove| - 1], remove[|remove| - 1];
      SpansOfAll(data, |before|, Join(lines), remove);
      var some := AllEntryLines(data, before, lines, after, front);
      var h, a := EntryLines(data, before, lines, after, r);
      gone := some + [h, a];
      assert remove == front + [r];
      LinesOfAppend(lines, front, some, r, h, a);
      FullSpansConcat(lines, some, [h, a], |before|);
      FullSpansTwo(lines, h, a, |before|);
    }
  }

  predicate Rising(gone: seq<nat>) { forall i, j :: 0 <= i < j < |gone| ==> gone[i] < gone[j] }

  /** With increasing entries the lines come in increasing order too. */
  lemma GoneRising(lines: seq<string>, remove: seq<int>, gone: seq<nat>)
    requires LinesOf(lines, remove, gone) && Increasing(remove)
    ensures Rising(gone) && forall i :: 0 <= i < |gone| ==> gone[i] < |lines|
  {
    forall i, j | 0 <= i < j < |gone| ensures gone[i] < gone[j] {
      GoneOrder(lines, remove, gone, i, j);
    }
    forall i | 0 <= i < |gone| ensures gone[i] < |lines| {
      GonePlace(lines, remove, gone, i);
    }
  }

  /** Line number i of the list stands in table remove[i / 2]. */
  lemma GonePlace(lines: seq<string>, remove: seq<int>, gone: seq<nat>, i: nat)
    requires LinesOf(lines, remove, gone) && i < |gone|
    ensures i / 2 < |remove|
    ensures var r := remove[i / 2];
            && 0 <= r < |Headers(lines)| && gone[i] < |lines|
            && (if i % 2 == 0 then gone[i] == Headers(lines)[r] else OnlyArgv(lines, r, gone[i]))
  {
    hide OnlyArgv, Headers;
    var q := i / 2;
    assert q < |remove|;
    assert i == 2 * q || i == 2 * q + 1;
    HitOpened(lines, remove[q]);
    OnlyArgvInside(lines, remove[q], gone[2 * q + 1]);
  }

  lemma OnlyArgvInside(lines: seq<string>, r: nat, a: nat)
    requires OnlyArgv(lines, r, a)
    ensures a < |lines| && InSection(lines, r, a)
  {
  }

  lemma HeadersRise(lines: seq<string>, r: nat, q: nat)
    requires r < q < |Headers(lines)|
    ensures Headers(lines)[r] < Headers(lines)[q]
  {
    HitsSorted(IsAllowHeader, lines, 0);
  }

  lemma GoneOrder(lines: seq<string>, remove: seq<int>, gone: seq<nat>, i: nat, j: nat)
    requires LinesOf(lines, remove, gone) && Increasing(remove) && i < j < |gone|
    ensures gone[i] < gone[j]
  {
    hide OnlyArgv, Headers, LinesOf;
    GonePlace(lines, remove, gone, i);
    GonePlace(lines, remove, gone, j);
    var r, q := remove[i / 2], remove[j / 2];
    if i % 2 == 1 { OnlyArgvInside(lines, r, gone[i]); }
    if j % 2 == 1 { OnlyArgvInside(lines, q, gone[j]); }
    if i / 2 < j / 2 {
      if r + 1 < q { HeadersRise(lines, r + 1, q); }
      HeadersRise(lines, r, q);
    }
  }

  // ----- What is left -----

  /** The lines from b on without the lines `gone`; a dropped last line leaves an empty one. */
  function KeptLines(lines: seq<string>, b: nat, gone: seq<nat>): seq<string>
    decreases |gone|
  {
    if gone == [] then (if b <= |lines| then lines[b..] else [])
    else if b <= gone[0] < |lines| then
      lines[b..gone[0]] + (if gone[0] + 1 < |lines| then KeptLines(lines, gone[0] + 1, gone[1..]) else [""])
    else []
  }

  lemma RestText(before: string, lines: seq<string>, after: string, b: nat)
    requires b < |lines|
    ensures Offset(lines, b) <= |Join(lines)|
    ensures (before + (Join(lines) + after))[|before| + Offset(lines, b)..] == Join(lines[b..]) + after
  {
    hide Join, Offset;
    SplitAtLine(lines, b);
    DropBoth(before, Join(lines), after, Offset(lines, b));
  }

  lemma DropBoth(before: string, middle: string, after: string, x: nat)
    requires x <= |middle|
    ensures (before + (middle + after))[|before| + x..] == middle[x..] + after
  {
  }

  lemma TakeBoth(before: string, middle: string, after: string, x: nat, y: nat)
    requires x <= y <= |middle|
    ensures (before + (middle + after))[|before| + x..|before| + y] == middle[x..y]
  {
  }

  /** The text of the lines from b up to g. */
  lemma LinesText(lines: seq<string>, b: nat, g: nat)
    requires b <= g < |lines|
    ensures Offset(lines, b) <= Offset(lines, g) <= |Join(lines)|
    ensures Join(lines)[Offset(lines, b)..Offset(lines, g)] == Terminated(lines[b..g])
  {
    hide Join, Terminated;
    SplitAtLine(lines, g);
    assert lines[..g] == lines[..b] + lines[b..g];
    TerminatedConcat(lines[..b], lines[b..g]);
    TakeThenDrop(Join(lines), Offset(lines, b), Offset(lines, g));
    Dropped(Terminated(lines[..b]), Terminated(lines[b..g]));
  }

  predicate Selects(lines: seq<string>, b: nat, gone: seq<nat>) {
    b < |lines| && Rising(gone) && forall i :: 0 <= i < |gone| ==> b <= gone[i] < |lines|
  }

  lemma SelectsTail(lines: seq<string>, b: nat, gone: seq<nat>)
    requires Selects(lines, b, gone) && gone != []
    ensures gone[0] + 1 < |lines| ==> Selects(lines, gone[0] + 1, gone[1..])
    ensures gone[0] + 1 == |lines| ==> gone[1..] == []
  {
    if |gone| > 1 { assert gone[0] < gone[1]; }
  }

  lemma {:induction false} KeptSome(lines: seq<string>, b: nat, gone: seq<nat>)
    requires Selects(lines, b, gone)
    ensures KeptLines(lines, b, gone) != []
    decreases |gone|
  {
    if gone != [] {
      SelectsTail(lines, b, gone);
      if gone[0] + 1 < |lines| { KeptSome(lines, gone[0] + 1, gone[1..]); }
    }
  }

  /** The copying pass over the spans of whole lines leaves the other lines. */
  lemma {:induction false} CutLines(data: string, before: string, lines: seq<string>, after: string, b: nat,
                                    gone: seq<nat>)
    requires Around(data, before, lines, after) && Selects(lines, b, gone)
    requires after != "" ==> forall i :: 0 <= i < |gone| ==> gone[i] + 1 < |lines|
    ensures KeptLines(lines, b, gone) != []
    ensures Cut(data, |before| + Offset(lines, b), FullSpans(lines, gone, |before|))
            == Some(Join(KeptLines(lines, b, gone)) + after)
    decreases |gone|
  {
    hide Join, Offset, Terminated, Selects, Around, FullSpan, Cut, KeptLines, FullSpans;
    KeptSome(lines, b, gone);
    InRange(lines, b, gone);
    KeptStep(lines, b, gone);
    FullSpansStep(lines, gone, |before|);
    DataFrom(data, before, lines, after, b);
    if gone == [] {
      CutNone(data, |before| + Offset(lines, b));
    } else {
      var g, rest := gone[0], gone[1..];
      SelectsTail(lines, b, gone);
      DataBetween(data, before, lines, after, b, g);
      var text := Terminated(lines[b..g]);
      if g + 1 < |lines| {
        CutLines(data, before, lines, after, g + 1, rest);
        var more := KeptLines(lines, g + 1, rest);
        CutStep(data, |before| + Offset(lines, b), FullSpans(lines, gone, |before|), Join(more) + after);
        JoinConcat(lines[b..g], more);
        Regroup(text, Join(more), after);
      } else {
        CutLast(data, before, lines, after);
        FullSpansStep(lines, rest, |before|);
        CutStep(data, |before| + Offset(lines, b), FullSpans(lines, gone, |before|), "");
        JoinEmptyLast(lines[b..g]);
        AppendNothing(text);
      }
    }
  }

  lemma CutNone(data: string, cursor: nat)
    requires cursor <= |data|
    ensures Cut(data, cursor, []) == Some(data[cursor..])
  {
  }

  lemma CutStep(data: string, cursor: nat, spans: seq<Span>, rest: string)
    requires spans != [] && cursor <= spans[0].start <= |data| && Cut(data, spans[0].end, spans[1..]) == Some(rest)
    ensures Cut(data, cursor, spans) == Some(data[cursor..spans[0].start] + rest)
  {
  }

  lemma KeptStep(lines: seq<string>, b: nat, gone: seq<nat>)
    requires b < |lines| && (gone != [] ==> b <= gone[0] < |lines|)
    ensures gone == [] ==> KeptLines(lines, b, gone) == lines[b..]
    ensures gone != [] ==>
              KeptLines(lines, b, gone)
              == lines[b..gone[0]] + (if gone[0] + 1 < |lines| then KeptLines(lines, gone[0] + 1, gone[1..]) else [""])
  {
  }

  lemma FullSpansStep(lines: seq<string>, gone: seq<nat>, before: nat)
    ensures gone == [] ==> FullSpans(lines, gone, before) == []
    ensures gone != [] ==> FullSpans(lines, gone, before) != []
                           && FullSpans(lines, gone, before)[0] == FullSpan(lines, gone[0], before)
                           && FullSpans(lines, gone, before)[1..] == FullSpans(lines, gone[1..], before)
  {
  }

  lemma DataFrom(data: string, before: string, lines: seq<string>, after: string, b: nat)
    requires Around(data, before, lines, after) && b < |lines|
    ensures |before| + Offset(lines, b) <= |data| && data[|before| + Offset(lines, b)..] == Join(lines[b..]) + after
  {
    RestText(before, lines, after, b);
  }

  /** The bytes between the start of line b and the removed line g. */
  lemma DataBetween(data: string, before: string, lines: seq<string>, after: string, b: nat, g: nat)
    requires Around(data, before, lines, after) && b <= g < |lines|
    ensures |before| + Offset(lines, b) <= |before| + Offset(lines, g) <= |data|
    ensures data[|before| + Offset(lines, b)..|before| + Offset(lines, g)] == Terminated(lines[b..g])
    ensures FullSpan(lines, g, |before|).start == |before| + Offset(lines, g)
    ensures FullSpan(lines, g, |before|).end
            == |before| + (if g + 1 < |lines| then Offset(lines, g + 1) else |Join(lines)|)
  {
    hide Join, Offset, Terminated;
    LinesText(lines, b, g);
    TakeBoth(before, Join(lines), after, Offset(lines, b), Offset(lines, g));
  }

  lemma InRange(lines: seq<string>, b: nat, gone: seq<nat>)
    requires Selects(lines, b, gone)
    ensures b < |lines| && (gone != [] ==> b <= gone[0] < |lines|)
  {
  }

  lemma CutLast(data: string, before: string, lines: seq<string>, after: string)
    requires Around(data, before, lines, after) && after == ""
    ensures Cut(data, |before| + |Join(lines)|, []) == Some("")
  {
    assert |data| == |before| + |Join(lines)| && data[|data|..] == "";
  }

  lemma {:induction false} DropPrefix(lines: seq<string>, b: nat, g: nat, drop: set<nat>)
    requires b <= g <= |lines| && forall k :: b <= k < g ==> k !in drop
    ensures Drop(lines[b..], b, drop) == lines[b..g] + Drop(lines[g..], g, drop)
    decreases g - b
  {
    if b < g {
      DropPrefix(lines, b + 1, g, drop);
      assert lines[b..][1..] == lines[b + 1..];
      assert lines[b..g] == [lines[b]] + lines[b + 1..g];
    } else {
      assert lines[b..g] == [];
    }
  }

  /** A last line that was dropped. */
  function LastGone(lines: seq<string>, gone: seq<nat>): seq<string> {
    if gone != [] && gone[|gone| - 1] + 1 == |lines| then [""] else []
  }

  lemma {:induction false} KeptIsDrop(lines: seq<string>, b: nat, gone: seq<nat>, drop: set<nat>)
    requires Selects(lines, b, gone) && forall k :: b <= k < |lines| ==> (k in drop <==> k in gone)
    ensures KeptLines(lines, b, gone) == Drop(lines[b..], b, drop) + LastGone(lines, gone)
    decreases |gone|
  {
    hide Drop, Selects, Rising, LastGone, KeptLines;
    InRange(lines, b, gone);
    KeptStep(lines, b, gone);
    if gone == [] {
      DropPrefix(lines, b, |lines|, drop);
      DropEnd(lines, drop);
      assert lines[b..|lines|] + [] + [] == lines[b..];
      assert LastGone(lines, gone) == [] by { LastGoneIs(lines, gone); }
    } else {
      var g, rest := gone[0], gone[1..];
      SelectsTail(lines, b, gone);
      FirstGone(lines, b, gone, drop);
      DropPrefix(lines, b, g, drop);
      DropStep(lines, g, drop);
      if g + 1 < |lines| {
        TailSame(lines, b, gone, drop);
        KeptIsDrop(lines, g + 1, rest, drop);
        LastGoneTail(lines, gone);
        Regrouped(lines[b..g], Drop(lines[g + 1..], g + 1, drop), LastGone(lines, gone));
      } else {
        DropEnd(lines, drop);
        LastGoneIs(lines, gone);
        assert gone == [g];
        assert lines[b..g] + [] == lines[b..g];
      }
    }
  }

  lemma Regrouped(a: seq<string>, b: seq<string>, c: seq<string>)
    ensures a + (b + c) == (a + b) + c
  {
  }

  lemma LastGoneIs(lines: seq<string>, gone: seq<nat>)
    ensures LastGone(lines, gone) == if gone != [] && gone[|gone| - 1] + 1 == |lines| then [""] else []
  {
  }

  lemma DropEnd(lines: seq<string>, drop: set<nat>)
    ensures Drop(lines[|lines|..], |lines|, drop) == []
  {
  }

  lemma DropStep(lines: seq<string>, g: nat, drop: set<nat>)
    requires g < |lines| && g in drop
    ensures Drop(lines[g..], g, drop) == Drop(lines[g + 1..], g + 1, drop)
  {
    assert lines[g..][1..] == lines[g + 1..];
  }

  lemma FirstGone(lines: seq<string>, b: nat, gone: seq<nat>, drop: set<nat>)
    requires Selects(lines, b, gone) && gone != [] && forall k :: b <= k < |lines| ==> (k in drop <==> k in gone)
    ensures gone[0] in drop && forall k :: b <= k < gone[0] ==> k !in drop
  {
  }

  lemma TailSame(lines: seq<string>, b: nat, gone: seq<nat>, drop: set<nat>)
    requires gone != [] && Selects(lines, b, gone) && forall k :: b <= k < |lines| ==> (k in drop <==> k in gone)
    ensures forall k :: gone[0] + 1 <= k < |lines| ==> (k in drop <==> k in gone[1..])
  {
    assert gone == [gone[0]] + gone[1..];
  }

  lemma LastGoneTail(lines: seq<string>, gone: seq<nat>)
    requires gone != [] && gone[0] + 1 < |lines|
    ensures LastGone(lines, gone) == LastGone(lines, gone[1..])
  {
  }

  // ----- The dropped lines are the selected entries -----

  function Numbers(gone: seq<nat>): set<nat> { set k | k in gone }

  function Chosen(remove: seq<int>): set<int> { set r | r in remove }

  lemma GoneBelongs(lines: seq<string>, remove: seq<int>, gone: seq<nat>, i: nat)
    requires LinesOf(lines, remove, gone) && i < |gone|
    ensures i / 2 < |remove| && (HeaderOf(lines, gone[i], remove[i / 2]) || ArgvOf(lines, gone[i], remove[i / 2]))
  {
    hide LinesOf, Headers, Opened, IsAllowHeader, IsArgvLine, InSection;
    GonePlace(lines, remove, gone, i);
    var r := remove[i / 2];
    HitOpened(lines, r);
    if i % 2 == 1 { ArgvInSection(lines, r, gone[i]); }
  }

  lemma BelongsGone(lines: seq<string>, remove: seq<int>, gone: seq<nat>, k: nat, i: nat)
    requires LinesOf(lines, remove, gone) && i < |remove|
    requires k < |lines| && (HeaderOf(lines, k, remove[i]) || ArgvOf(lines, k, remove[i]))
    ensures k in gone
  {
    hide Headers, Opened, IsAllowHeader, IsArgvLine, InSection;
    assert gone[2 * i] == Headers(lines)[remove[i]];
    if HeaderOf(lines, k, remove[i]) {
      HitAt(lines, k);
    } else {
      ArgvInSection(lines, remove[i], k);
      assert k == gone[2 * i + 1];
    }
  }

  lemma GoneDrops(lines: seq<string>, remove: seq<int>, gone: seq<nat>)
    requires LinesOf(lines, remove, gone)
    ensures DropsEntries(lines, Numbers(gone), Chosen(remove)) && UniqueArgv(lines, Chosen(remove))
  {
    hide LinesOf, HeaderOf, ArgvOf;
    forall k | 0 <= k < |lines|
      ensures k in Numbers(gone)
              <==> exists entry :: entry in Chosen(remove) && (HeaderOf(lines, k, entry) || ArgvOf(lines, k, entry))
    {
      if k in gone {
        var i :| 0 <= i < |gone| && gone[i] == k;
        GoneBelongs(lines, remove, gone, i);
        assert remove[i / 2] in Chosen(remove);
      }
      if entry :| entry in Chosen(remove) && (HeaderOf(lines, k, entry) || ArgvOf(lines, k, entry)) {
        var i :| 0 <= i < |remove| && remove[i] == entry;
        BelongsGone(lines, remove, gone, k, i);
      }
    }
    forall j, k, entry | entry in Chosen(remove) && ArgvOf(lines, j, entry) && ArgvOf(lines, k, entry) ensures j == k {
      var i :| 0 <= i < |remove| && remove[i] == entry;
      OneArgvEach(lines, remove, gone, i, j);
      OneArgvEach(lines, remove, gone, i, k);
    }
  }

  lemma OneArgvEach(lines: seq<string>, remove: seq<int>, gone: seq<nat>, i: nat, k: nat)
    requires LinesOf(lines, remove, gone) && i < |remove| && ArgvOf(lines, k, remove[i])
    ensures 2 * i + 1 < |gone| && k == gone[2 * i + 1]
  {
    hide Headers, Opened, IsAllowHeader, IsArgvLine, InSection;
    ArgvInSection(lines, remove[i], k);
  }

  // ----- The block without the entries -----

  lemma InnerRead(body: seq<string>, last: bool)
    ensures ReadBody(Inner(body, last), EmptyBody) == ReadBody(body, EmptyBody)
  {
    hide Classify, Step;
    Blankless();
    assert [] + [""] + body == [""] + body && [] + body == body;
    ReadBlankAdded([], "", body, EmptyBody);
    if last {
      assert Inner(body, last) == [""] + body;
    } else {
      ReadBlankLast([""] + body, EmptyBody);
    }
  }

  /** Neither the rest of the header line nor the empty line before the next header goes. */
  lemma EndsStay(body: seq<string>, last: bool, remove: seq<int>, gone: seq<nat>, i: nat)
    requires LinesOf(Inner(body, last), remove, gone) && i < |gone|
    ensures 0 < gone[i] && gone[i] < |Inner(body, last)| && (!last ==> gone[i] + 1 < |Inner(body, last)|)
  {
    hide LinesOf, Headers, IsAllowHeader, IsArgvLine;
    var lines := Inner(body, last);
    GonePlace(lines, remove, gone, i);
    HitOpened(lines, remove[i / 2]);
    EmptyMatches();
    assert lines[0] == "" && (!last ==> lines[|lines| - 1] == "");
  }

  lemma {:induction false} KeptFrom(lines: seq<string>, b: nat, gone: seq<nat>)
    requires Selects(lines, b, gone)
    ensures KeptLines(lines, b, gone) != []
    ensures forall x :: x in KeptLines(lines, b, gone) ==> x in lines || x == ""
    ensures var kept := KeptLines(lines, b, gone); kept[|kept| - 1] == "" || kept[|kept| - 1] == lines[|lines| - 1]
    decreases |gone|
  {
    hide Selects;
    InRange(lines, b, gone);
    KeptSome(lines, b, gone);
    if gone != [] {
      SelectsTail(lines, b, gone);
      if gone[0] + 1 < |lines| { KeptFrom(lines, gone[0] + 1, gone[1..]); }
    }
  }

  function Stripped(kept: seq<string>, last: bool): seq<string>
    requires kept != [] && (last || |kept| >= 2)
  {
    if last then kept[1..] else kept[1..|kept| - 1]
  }

  /** What is left is again the inside of a block. */
  lemma KeptInner(body: seq<string>, last: bool, gone: seq<nat>)
    requires Selects(Inner(body, last), 0, gone)
    requires forall i :: 0 <= i < |gone| ==> 0 < gone[i] && (!last ==> gone[i] + 1 < |Inner(body, last)|)
    ensures var kept := KeptLines(Inner(body, last), 0, gone);
            kept != [] && (last || |kept| >= 2) && kept == Inner(Stripped(kept, last), last)
  {
    hide KeptLines, Selects;
    var lines := Inner(body, last);
    var kept := KeptLines(lines, 0, gone);
    KeptFrom(lines, 0, gone);
    KeptStart(lines, gone);
    if !last { assert lines[|lines| - 1] == ""; }
  }

  /** The first line stays; and if lines go from a text of two or more, two or more are left. */
  lemma KeptStart(lines: seq<string>, gone: seq<nat>)
    requires Selects(lines, 0, gone) && forall i :: 0 <= i < |gone| ==> 0 < gone[i]
    ensures var kept := KeptLines(lines, 0, gone);
            kept != [] && kept[0] == lines[0] && (gone == [] ==> kept == lines) && (gone != [] ==> |kept| >= 2)
  {
    if gone == [] {
      assert lines[0..] == lines;
    } else {
      var g := gone[0];
      assert 0 < g < |lines| && lines[0..g][0] == lines[0];
      SelectsTail(lines, 0, gone);
      if g + 1 < |lines| { KeptSome(lines, g + 1, gone[1..]); }
    }
  }

  lemma StrippedGood(kept: seq<string>, last: bool, lines: seq<string>)
    requires kept != [] && (last || |kept| >= 2) && GoodLines(lines)
    requires forall x :: x in kept ==> x in lines || x == ""
    ensures GoodLines(Stripped(kept, last))
  {
    hide IsProjectHeader, Newlineless;
    Blankless();
    var s := Stripped(kept, last);
    forall k | 0 <= k < |s| ensures !IsProjectHeader(s[k]) && Newlineless(s[k]) {
      assert s[k] == kept[k + 1] && kept[k + 1] in kept;
    }
  }

  lemma InnerGood(body: seq<string>, last: bool)
    requires GoodLines(body)
    ensures GoodLines(Inner(body, last))
  {
    hide IsProjectHeader, Newlineless;
    Blankless();
  }

  /** Reading what is left: the block without exactly the selected entries. */
  lemma KeptRead(lines: seq<string>, remove: seq<int>, gone: seq<nat>)
    requires ReadBody(lines, EmptyBody).Some? && AllSet(ReadBody(lines, EmptyBody).value, Chosen(remove))
    requires LinesOf(lines, remove, gone) && Selects(lines, 0, gone)
    ensures var kept := KeptLines(lines, 0, gone);
            && ReadBody(kept, EmptyBody).Some?
            && ReadBody(kept, EmptyBody).value.rest == ReadBody(lines, EmptyBody).value.rest
            && var p := ReadBody(lines, EmptyBody).value.project;
            ReadBody(kept, EmptyBody).value.project == p.(allow := Keep(p.allow, Chosen(remove)))
  {
    hide Step, LinesOf, Selects, KeptLines, AllSet, DropsEntries, UniqueArgv, Drop, Keep, ReadBody;
    GoneDrops(lines, remove, gone);
    ReadWithoutEntries(lines, Numbers(gone), Chosen(remove));
    KeptIsDrop(lines, 0, gone, Numbers(gone));
    assert lines[0..] == lines;
    var left := Drop(lines, 0, Numbers(gone));
    LastGoneIs(lines, gone);
    ReadBlankLast(left, EmptyBody);
    assert left + [] == left;
  }

  /** The block whose body is what is left. */
  function BlockWithout(b: Block, last: bool, gone: seq<nat>): Block {
    var kept := KeptLines(Inner(b.body, last), 0, gone);
    Block(b.header, if kept != [] && (last || |kept| >= 2) then Stripped(kept, last) else [])
  }

  lemma GoneSelects(body: seq<string>, last: bool, remove: seq<int>, gone: seq<nat>)
    requires LinesOf(Inner(body, last), remove, gone) && Increasing(remove)
    ensures Selects(Inner(body, last), 0, gone)
    ensures forall i :: 0 <= i < |gone| ==> 0 < gone[i] && (!last ==> gone[i] + 1 < |Inner(body, last)|)
  {
    hide LinesOf, Rising;
    GoneRising(Inner(body, last), remove, gone);
    forall i | 0 <= i < |gone| ensures 0 < gone[i] && (!last ==> gone[i] + 1 < |Inner(body, last)|) {
      EndsStay(body, last, remove, gone, i);
    }
  }

  lemma WithoutRead(b: Block, last: bool, remove: seq<int>, gone: seq<nat>)
    requires GoodBlock(b) && ReadBlock(b).Some? && AllSet(ReadBlock(b).value, Chosen(remove))
    requires LinesOf(Inner(b.body, last), remove, gone) && Increasing(remove)
    ensures var b' := BlockWithout(b, last, gone);
            && b'.header == b.header && GoodBlock(b') && KeptLines(Inner(b.body, last), 0, gone) == Inner(b'.body, last)
            && ReadBlock(b').Some? && ReadBlock(b').value.rest == ReadBlock(b).value.rest
            && ReadBlock(b').value.project
               == ReadBlock(b).value.project.(allow := Keep(ReadBlock(b).value.project.allow, Chosen(remove)))
  {
    hide LinesOf, Selects, KeptLines, AllSet, Keep, ReadBody, IsProjectHeader, Inner, Stripped;
    var lines := Inner(b.body, last);
    GoneSelects(b.body, last, remove, gone);
    KeptInner(b.body, last, gone);
    KeptFrom(lines, 0, gone);
    assert GoodLines(b.body);
    InnerGood(b.body, last);
    StrippedGood(KeptLines(lines, 0, gone), last, lines);
    InnerRead(b.body, last);
    KeptRead(lines, remove, gone);
    InnerRead(BlockWithout(b, last, gone).body, last);
  }

  // ----- The whole file -----

  /** The text ends as before, or in a newline. */
  lemma WithoutNotBare(before: string, b: Block, last: bool, after: string, remove: seq<int>, gone: seq<nat>)
    requires LinesOf(Inner(b.body, last), remove, gone) && Increasing(remove)
    requires KeptLines(Inner(b.body, last), 0, gone) == Inner(BlockWithout(b, last, gone).body, last)
    requires !EndsBare(before + (BlockBody(b.body, last) + after))
    ensures !EndsBare(before + (BlockBody(BlockWithout(b, last, gone).body, last) + after))
  {
    hide LinesOf, KeptLines, BlockBody, Join, Inner, BlockWithout;
    var b' := BlockWithout(b, last, gone);
    var lines, kept := Inner(b.body, last), Inner(b'.body, last);
    GoneSelects(b.body, last, remove, gone);
    KeptFrom(lines, 0, gone);
    InnerText(b.body, last);
    InnerText(b'.body, last);
    LastLine(lines);
    LastLine(kept);
    EndsBareTail(before, BlockBody(b.body, last), after);
    EndsBareTail(before, BlockBody(b'.body, last), after);
    if after == "" && BlockBody(b'.body, last) == "" {
      NothingLeft(b, last, gone);
    }
  }

  lemma NothingLeft(b: Block, last: bool, gone: seq<nat>)
    requires Selects(Inner(b.body, last), 0, gone) && forall i :: 0 <= i < |gone| ==> 0 < gone[i]
    requires KeptLines(Inner(b.body, last), 0, gone) == Inner(BlockWithout(b, last, gone).body, last)
    requires BlockBody(BlockWithout(b, last, gone).body, last) == ""
    ensures BlockBody(b.body, last) == ""
  {
    var lines := Inner(b.body, last);
    var b' := BlockWithout(b, last, gone);
    assert last && b'.body == [] && Inner(b'.body, last) == [""];
    hide BlockWithout, KeptLines, Selects;
    KeptStart(lines, gone);
  }

  lemma EndsBareTail(before: string, middle: string, after: string)
    ensures after != "" ==> (EndsBare(before + (middle + after)) <==> EndsBare(after))
    ensures after == "" && middle != "" ==> (EndsBare(before + (middle + after)) <==> EndsBare(middle))
  {
  }

  /** The intended edit: project i without the allow entries at the given positions. */
  function WithoutAllow(r: Read, i: nat, remove: seq<int>): Read
    requires i < |r.projects|
  {
    Read(r.rest, r.projects[i := r.projects[i].(allow := Keep(r.projects[i].allow, Chosen(remove)))])
  }

  /** The positions name entries that have an argv. */
  predicate HasEntries(p: RawProject, remove: seq<int>) {
    forall j :: 0 <= j < |remove| ==> 0 <= remove[j] < |p.allow| && p.allow[remove[j]].Some?
  }

  lemma EntriesSet(p: RawProject, remove: seq<int>, st: Body)
    requires HasEntries(p, remove) && st.project == p
    ensures AllSet(st, Chosen(remove))
  {
    forall e: int | e in Chosen(remove) ensures 0 <= e && SetEntry(st, e) {
      var j :| 0 <= j < |remove| && remove[j] == e;
    }
  }

  /** removeAllowEntries cuts whole lines out of the block. */
  lemma RemovedText(data: string, before: string, b: Block, last: bool, after: string, remove: seq<int>)
    returns (gone: seq<nat>)
    requires data == before + (BlockBody(b.body, last) + after)
    requires GoodBlock(b) && (last ==> after == "") && Increasing(remove)
    requires AllSpans(data, |before|, BlockBody(b.body, last), remove).Some?
    ensures LinesOf(Inner(b.body, last), remove, gone)
    ensures KeptLines(Inner(b.body, last), 0, gone) != []
    ensures Cut(data, 0, AllSpans(data, |before|, BlockBody(b.body, last), remove).value)
            == Some(before + (Join(KeptLines(Inner(b.body, last), 0, gone)) + after))
  {
    hide BlockBody, Join, Inner, AllSpans, LinesOf, FullSpans, Cut, KeptLines, IsProjectHeader;
    var lines := Inner(b.body, last);
    InnerText(b.body, last);
    InnerEnds(b.body, last);
    assert Around(data, before, lines, after);
    gone := AllEntryLines(data, before, lines, after, remove);
    GoneSelects(b.body, last, remove, gone);
    CutLines(data, before, lines, after, 0, gone);
    CutFromStart(data, before, lines, after, gone);
  }

  lemma InnerEnds(body: seq<string>, last: bool)
    requires AllNewlineless(body)
    ensures Inner(body, last) != [] && AllNewlineless(Inner(body, last))
    ensures !last ==> Inner(body, last)[|Inner(body, last)| - 1] == ""
  {
  }

  /** Starting the copy at the beginning of the file instead of the block only adds what comes before. */
  lemma CutFromStart(data: string, before: string, lines: seq<string>, after: string, gone: seq<nat>)
    requires Around(data, before, lines, after) && Selects(lines, 0, gone)
    requires Cut(data, |before| + Offset(lines, 0), FullSpans(lines, gone, |before|)).Some?
    ensures Cut(data, 0, FullSpans(lines, gone, |before|))
            == Some(before + Cut(data, |before| + Offset(lines, 0), FullSpans(lines, gone, |before|)).value)
  {
    hide Join, Selects;
    assert lines[..0] == [];
    assert Offset(lines, 0) == 0;
    var spans := FullSpans(lines, gone, |before|);
    assert data[..|before|] == before;
    InRange(lines, 0, gone);
    if gone == [] {
      assert data == before + data[|before|..];
    } else {
      FullSpanStart(lines, gone[0], |before|, data);
      var s := spans[0].start;
      assert data[0..s] == before + data[|before|..s];
      var rest := Cut(data, spans[0].end, spans[1..]).value;
      Regroup(before, data[|before|..s], rest);
    }
  }

  lemma FullSpanStart(lines: seq<string>, k: nat, before: nat, data: string)
    requires k < |lines| && before + |Join(lines)| <= |data|
    ensures before <= FullSpan(lines, k, before).start <= |data|
  {
    hide Join, Offset;
    LineAt(lines, k);
  }

  /** removeAllowEntries, when it succeeds, removes exactly the selected entries. */
  lemma RemoveAllowCommutes(data: string, i: nat, remove: seq<int>, u: string)
    requires ReadText(data).Some? && i < |ReadText(data).value.projects|
    requires Increasing(remove) && HasEntries(ReadText(data).value.projects[i], remove)
    requires RemoveAllow(data, |ReadText(data).value.projects|, i, |ReadText(data).value.projects[i].allow|, remove)
             == Some(u)
    ensures ReadText(u) == Some(WithoutAllow(ReadText(data).value, i, remove))
  {
    hide DocOf, ReadDoc, ReadBlock, TextAfter, BlockBody, ProjectBounds, GoodBlock, Terminated, LinesBefore, FindAll,
         HasEntries, AllSpans, Cut, KeptLines, Inner, Join, BlockWithout, EndsBare, Increasing, Keep;
    var d := DocOf(data);
    ReadDocCount(d);
    var start, end := Selected(data, i);
    var b, last := d.blocks[i], i + 1 == |d.blocks|;
    TextAfterLast(d, i);
    var before, after := data[..start], TextAfter(d, i);
    var gone := RemovedText(data, before, b, last, after, remove);
    EntriesSet(ReadText(data).value.projects[i], remove, ReadBlock(b).value);
    WithoutRead(b, last, remove, gone);
    var b' := BlockWithout(b, last, gone);
    InnerText(b'.body, last);
    ReadEdited(data, i, b', u);
    WithoutNotBare(before, b, last, after, remove, gone);
  }

  // ----- insertAllowEntry finds its entries -----

  /** On a canonical text the number of allow headers in a block is the number of entries. */
  lemma HeadersAreEntries(b: Block, last: bool)
    requires GoodBlock(b) && ReadBlock(b).Some?
    ensures |FindAll(IsAllowHeader, BlockBody(b.body, last))| == |ReadBlock(b).value.project.allow|
  {
    hide BlockBody, Join, FindAll, Headers, IsAllowHeader, IsProjectHeader, Opened, ReadBody, Inner;
    var lines := Inner(b.body, last);
    InnerText(b.body, last);
    InnerEnds(b.body, last);
    HeadersOf(lines, 0, BlockBody(b.body, last));
    AllOpened(lines);
    InnerRead(b.body, last);
    assert lines[..|lines|] == lines;
    OpenedCounts(lines, |lines|);
  }

  /** insertAllowEntry never refuses a canonical text. */
  lemma InsertAllowSucceeds(data: string, i: nat, argv: seq<string>)
    requires ReadText(data).Some? && i < |ReadText(data).value.projects| && argv != []
    ensures InsertAllow(data, |ReadText(data).value.projects|, i, |ReadText(data).value.projects[i].allow|, argv).Some?
  {
    hide DocOf, ReadDoc, ReadBlock, TextAfter, BlockBody, ProjectBounds, GoodBlock, Terminated, LinesBefore, FindAll,
         AllowEntryText, InsertLine;
    ReadDocCount(DocOf(data));
    var start, end := Selected(data, i);
    HeadersAreEntries(DocOf(data).blocks[i], i + 1 == |DocOf(data).blocks|);
  }
}
