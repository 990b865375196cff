/**
 When replaceProjectField and removeAllowEntries of internal/admin/policy.go refuse.

 Both look for one matching line in a stretch of the block, other tables included. On a
 canonical text the project itself supplies exactly one, so they fail exactly if a line of
 another table inside the stretch matches too.
 */
module Repeats {
  import opened Basics
  import opened Text
  import opened TomlStrings
  import opened Layout
  import opened Splice
  import opened Removal
  import opened Reading
  import opened BlockReading
  import opened EntryReading
  import opened DocReading
  import opened Commutes
  import opened ApprovalCommutes
  import opened AllowCommutes

  // ----- Lines of other tables -----

  /** What has been read before line k. */
  function Before(lines: seq<string>, k: nat): Option<Body>
    requires k <= |lines|
  {
    ReadBody(lines[..k], EmptyBody)
  }

  /** Line k belongs to a table of another name inside the block. */
  predicate Elsewhere(lines: seq<string>, k: nat) {
    k < |lines| && Before(lines, k).Some? && Before(lines, k).value.section == InTable
  }

  /** The lines of the block of project i, as the editor's patterns see them. */
  function BlockLines(data: string, i: nat): seq<string>
    requires i < |DocOf(data).blocks|
  {
    Inner(DocOf(data).blocks[i].body, i + 1 == |DocOf(data).blocks|)
  }

  /** No line of another table in the block is a field line of this name. */
  predicate NoRepeatedField(lines: seq<string>, name: string) {
    forall k :: 0 <= k < |lines| && Elsewhere(lines, k) ==> !IsFieldLine(name, lines[k])
  }

  /** No line of another table between the header of entry r and the next one is an argv line. */
  predicate NoRepeatedArgv(lines: seq<string>, r: int) {
    forall k :: 0 <= k < |lines| && Elsewhere(lines, k) && InSection(lines, r, k) ==> !IsArgvLine(lines[k])
  }

  /** The same for each of several entries. */
  predicate NoRepeatedArgvs(lines: seq<string>, entries: seq<int>) {
    forall j :: 0 <= j < |entries| ==> NoRepeatedArgv(lines, entries[j])
  }

  lemma BeforeStep(lines: seq<string>, k: nat)
    requires ReadBody(lines, EmptyBody).Some? && k < |lines|
    ensures Before(lines, k).Some? && Step(Before(lines, k).value, lines[k]).Some?
    ensures Before(lines, k + 1) == Step(Before(lines, k).value, lines[k])
  {
    hide Step;
    ReadPrefix(lines, k, EmptyBody);
    ReadPrefix(lines, k + 1, EmptyBody);
    ReadStep(lines, k, EmptyBody);
  }

  // ----- One hit or several -----

  lemma OneHit(p: string -> bool, lines: seq<string>, j: nat)
    requires j < |lines| && p(lines[j]) && forall k :: 0 <= k < |lines| && p(lines[k]) ==> k == j
    ensures |Hits(p, lines, 0)| == 1
  {
    assert lines == lines[..j] + lines[j..];
    HitsConcat(p, lines[..j], lines[j..], 0);
    NoHits(p, lines[..j], 0);
    assert lines[j..][0] == lines[j] && lines[j..][1..] == lines[j + 1..];
    NoHits(p, lines[j + 1..], j + 1);
  }

  lemma TwoHits(p: string -> bool, lines: seq<string>, j: nat, k: nat)
    requires j < |lines| && k < |lines| && j != k && p(lines[j]) && p(lines[k])
    ensures |Hits(p, lines, 0)| != 1
  {
    HitsComplete(p, lines, 0, j);
    HitsComplete(p, lines, 0, k);
  }

  // ----- Fields -----

  lemma FieldLineKind(key: Key, line: string)
    requires IsFieldLine(KeyName(key), line)
    ensures Classify(line) == Other || (Classify(line).Field? && Classify(line).key == key)
  {
    var body := StripCr(line);
    KeyStart(body);
    KeyStartNotHeader(line);
    KeyNames(key);
    if '\r' !in body {
      PairIsClassified(line);
      hide KeyAt, SkipBlanks, StripCr, ReadString, ReadArray, QuotedLength, Trailer, Classify, KeyName;
    }
  }

  /** A field line that is not in another table gives the project the field. */
  lemma FieldStep(st: Body, line: string, key: Key)
    requires Step(st, line).Some? && IsFieldLine(KeyName(key), line) && st.section != InTable
    ensures !Has(st, key) && Has(Step(st, line).value, key)
  {
    FieldLineKind(key, line);
    hide Classify, StripCr, IsFieldLine, KeyName;
  }

  lemma {:induction false} HasStays(lines: seq<string>, j: nat, k: nat, key: Key)
    requires ReadBody(lines, EmptyBody).Some? && j <= k <= |lines|
    requires Before(lines, j).Some? && Has(Before(lines, j).value, key)
    ensures Before(lines, k).Some? && Has(Before(lines, k).value, key)
    decreases k - j
  {
    hide Step, Before;
    if j < k {
      HasStays(lines, j, k - 1, key);
      BeforeStep(lines, k - 1);
      StepKeeps(Before(lines, k - 1).value, lines[k - 1], key);
    }
  }

  /** A project that ends up with the field got it from a line of its own. */
  lemma {:induction false} OwnField(lines: seq<string>, k: nat, key: Key) returns (s: nat)
    requires ReadBody(lines, EmptyBody).Some? && k <= |lines|
    requires Before(lines, k).Some? && Has(Before(lines, k).value, key)
    ensures s < k && IsFieldLine(KeyName(key), lines[s]) && !Elsewhere(lines, s)
  {
    hide Step, Before, IsFieldLine, KeyName, Has;
    NothingYet(lines, key);
    BeforeStep(lines, k - 1);
    if Has(Before(lines, k - 1).value, key) {
      s := OwnField(lines, k - 1, key);
    } else {
      StepSets(Before(lines, k - 1).value, lines[k - 1], key);
      s := k - 1;
    }
  }

  lemma NothingYet(lines: seq<string>, key: Key)
    ensures Before(lines, 0).Some? && !Has(Before(lines, 0).value, key)
  {
    assert lines[..0] == [];
  }

  lemma OneOwnField(lines: seq<string>, j: nat, k: nat, key: Key)
    requires ReadBody(lines, EmptyBody).Some? && j < k < |lines|
    requires IsFieldLine(KeyName(key), lines[j]) && !Elsewhere(lines, j) && IsFieldLine(KeyName(key), lines[k])
    ensures Elsewhere(lines, k)
  {
    hide Step, Before, IsFieldLine, KeyName, Has;
    BeforeStep(lines, j);
    BeforeStep(lines, k);
    FieldStep(Before(lines, j).value, lines[j], key);
    HasStays(lines, j + 1, k, key);
    if Before(lines, k).value.section != InTable { FieldStep(Before(lines, k).value, lines[k], key); }
  }

  /** The pattern of a field the project has matches once, unless another table repeats the field. */
  lemma FieldHitOnce(lines: seq<string>, key: Key)
    requires ReadBody(lines, EmptyBody).Some? && Has(ReadBody(lines, EmptyBody).value, key)
    ensures |Hits(FieldPattern(KeyName(key)), lines, 0)| == 1 <==> NoRepeatedField(lines, KeyName(key))
  {
    hide Step, IsFieldLine, KeyName, Elsewhere, Hits, ReadBody, Has;
    assert lines[..|lines|] == lines;
    var name := KeyName(key);
    var s := OwnField(lines, |lines|, key);
    var p := FieldPattern(name);
    assert p(lines[s]);
    if NoRepeatedField(lines, name) {
      forall k | 0 <= k < |lines| && p(lines[k]) ensures k == s {
        if k < s { OneOwnField(lines, k, s, key); } else if s < k { OneOwnField(lines, s, k, key); }
      }
      OneHit(p, lines, s);
    } else {
      var k :| 0 <= k < |lines| && Elsewhere(lines, k) && IsFieldLine(name, lines[k]);
      assert p(lines[k]);
      TwoHits(p, lines, s, k);
    }
  }

  /** The lines of a block read like its body, and are what the patterns are matched against. */
  lemma BlockLinesRead(data: string, i: nat)
    requires ReadText(data).Some? && i < |ReadText(data).value.projects|
    ensures i < |DocOf(data).blocks|
    ensures var lines := BlockLines(data, i);
            && ReadBody(lines, EmptyBody).Some?
            && ReadBody(lines, EmptyBody).value.project == ReadText(data).value.projects[i]
            && AllNewlineless(lines) && lines != [] && Join(lines) == BodyText(DocOf(data), i)
            && Split(BodyText(DocOf(data), i)) == lines
  {
    hide DocOf, ReadDoc, ReadBody, BlockBody, GoodBlock, Split, Join;
    ReadDocCount(DocOf(data));
    var start, end := Selected(data, i);
    var b, last := DocOf(data).blocks[i], i + 1 == |DocOf(data).blocks|;
    GoodIsNewlineless(b);
    InnerRead(b.body, last);
    InnerText(b.body, last);
    InnerSplit(b.body, last);
  }

  /**
   replaceProjectField on a field the project has fails exactly if another table inside the
   block repeats the field.
   */
  lemma ReplaceFieldSucceeds(data: string, i: nat, key: Key, v: string)
    requires SelectedField(data, i, key)
    ensures i < |DocOf(data).blocks|
    ensures ReplaceField(data, |ReadText(data).value.projects|, i, KeyName(key), v).Some?
            <==> NoRepeatedField(BlockLines(data, i), KeyName(key))
  {
    hide DocOf, ReadDoc, ReadBody, BlockBody, GoodBlock, Split, Join, Hits, NoRepeatedField, KeyName, ProjectBounds,
         ReplaceValue, BlockLines, BodyText;
    BlockLinesRead(data, i);
    ReadDocCount(DocOf(data));
    var start, end := Selected(data, i);
    FieldHitOnce(BlockLines(data, i), key);
  }

  // ----- Several fields, one after the other -----

  lemma SectionsSame(lines: seq<string>, m: nat, key: Key, v: string, j: nat)
    requires ReadBody(lines, EmptyBody).Some? && Has(ReadBody(lines, EmptyBody).value, key)
    requires OnlyFieldLine(lines, KeyName(key), m) && AllNewlineless(lines) && Writable(v) && j <= |lines|
    ensures var lines' := lines[m := WithValue(lines[m], KeyName(key), v)];
            && Before(lines, j).Some? && Before(lines', j).Some?
            && Before(lines', j).value.section == Before(lines, j).value.section
  {
    hide Step, IsFieldLine, KeyName, Writable, Newlineless, WithValue, ReadBody;
    var line' := WithValue(lines[m], KeyName(key), v);
    ReadPrefix(lines, j, EmptyBody);
    if j <= m {
      assert lines[m := line'][..j] == lines[..j];
    } else {
      var some := lines[..j];
      assert lines[m := line'][..j] == some[m := line'];
      assert lines[..|lines|] == lines;
      var s := OwnField(lines, |lines|, key);
      BeforeStep(lines, m);
      FieldStep(Before(lines, m).value, lines[m], key);
      HasStays(lines, m + 1, j, key);
      OnlyInPrefix(lines, KeyName(key), m, j);
      NothingYet(lines, key);
      ReadReplaced(some, EmptyBody, key, m, v);
    }
  }

  lemma OnlyInPrefix(lines: seq<string>, name: string, m: nat, j: nat)
    requires OnlyFieldLine(lines, name, m) && m < j <= |lines|
    ensures OnlyFieldLine(lines[..j], name, m)
  {
    hide IsFieldLine;
  }

  /** Replacing the project's own value leaves the lines of other tables where they are. */
  lemma RepeatsSame(lines: seq<string>, m: nat, key: Key, v: string, name: string)
    requires ReadBody(lines, EmptyBody).Some? && Has(ReadBody(lines, EmptyBody).value, key)
    requires OnlyFieldLine(lines, KeyName(key), m) && AllNewlineless(lines) && Writable(v)
    ensures NoRepeatedField(lines[m := WithValue(lines[m], KeyName(key), v)], name) <==> NoRepeatedField(lines, name)
  {
    hide Step, IsFieldLine, KeyName, Writable, Newlineless, WithValue, ReadBody;
    var lines' := lines[m := WithValue(lines[m], KeyName(key), v)];
    forall j | 0 <= j < |lines| ensures Elsewhere(lines', j) <==> Elsewhere(lines, j) {
      SectionsSame(lines, m, key, v, j);
    }
    assert lines[..|lines|] == lines;
    var s := OwnField(lines, |lines|, key);
    assert s == m;
  }

  lemma OnlyInInner(body: seq<string>, last: bool, name: string, k: nat)
    requires OnlyFieldLine(body, name, k)
    ensures OnlyFieldLine(Inner(body, last), name, k + 1)
  {
    hide IsFieldLine;
    NotFieldLine(name);
    var lines := Inner(body, last);
    InnerAt(body, last, k);
    forall j | 0 <= j < |lines| && j != k + 1 ensures !IsFieldLine(name, lines[j]) {
      if 0 < j <= |body| { assert lines[j] == body[j - 1]; }
    }
  }

  /** The block of the edited text is the old one with the value in one line replaced. */
  lemma ReplacedBlock(data: string, i: nat, key: Key, v: string, u: string) returns (m: nat)
    requires SelectedField(data, i, key) && Writable(v)
    requires ReplaceField(data, |ReadText(data).value.projects|, i, KeyName(key), v) == Some(u)
    ensures i < |DocOf(data).blocks| && i < |DocOf(u).blocks| && OnlyFieldLine(BlockLines(data, i), KeyName(key), m)
    ensures BlockLines(u, i) == BlockLines(data, i)[m := WithValue(BlockLines(data, i)[m], KeyName(key), v)]
  {
    hide DocOf, JsonString, KeyName, ReadDoc, ReadBlock, TextAfter, BlockBody, FieldHits, ReplaceValue, ProjectBounds,
         GoodBlock, OnlyFieldLine, BodyWith, Terminated, LinesBefore, Writable, WithValue, IsFieldLine, Inner;
    var d := DocOf(data);
    ReadDocCount(d);
    var start, end := Selected(data, i);
    var b, last := d.blocks[i], i + 1 == |d.blocks|;
    GoodIsNewlineless(b);
    var k := ReplaceValueText(data, start, end, b.body, last, TextAfter(d, i), KeyName(key), JsonString(v));
    ReplaceFieldBody(b, key, v, k);
    DocOfEdited(data, i, Block(b.header, BodyWith(b.body, KeyName(key), k, JsonString(v))), u);
    OnlyIsField(b.body, KeyName(key), k);
    BodyWithIsWithValue(b.body, KeyName(key), k, v);
    OnlyInInner(b.body, last, KeyName(key), k);
    InnerAt(b.body, last, k);
    InnerWith(b.body, last, k, WithValue(b.body[k], KeyName(key), v));
    m := k + 1;
    OnlyIsField(BlockLines(data, i), KeyName(key), m);
  }

  /** Replacing one field does not change which fields another table repeats. */
  lemma RepeatsStay(data: string, i: nat, key: Key, v: string, u: string, name: string)
    requires SelectedField(data, i, key) && Writable(v)
    requires ReplaceField(data, |ReadText(data).value.projects|, i, KeyName(key), v) == Some(u)
    ensures i < |DocOf(data).blocks| && i < |DocOf(u).blocks|
    ensures NoRepeatedField(BlockLines(u, i), name) <==> NoRepeatedField(BlockLines(data, i), name)
  {
    hide DocOf, KeyName, ReadDoc, ReadBody, ReplaceField, OnlyFieldLine, Writable, WithValue, NoRepeatedField,
         BlockLines;
    BlockLinesRead(data, i);
    var m := ReplacedBlock(data, i, key, v, u);
    OnlyIsField(BlockLines(data, i), KeyName(key), m);
    RepeatsSame(BlockLines(data, i), m, key, v, name);
  }

  // ----- Entries -----

  lemma ArgvLineKind(line: string)
    requires IsArgvLine(line)
    ensures Classify(line) == Other || Classify(line).Argv?
  {
    var body := StripCr(line);
    KeyStart(body);
    KeyStartNotHeader(line);
    PairIsClassified(line);
    hide KeyAt, SkipBlanks, StripCr, FieldValue, ReadString, ReadArray, Trailer, Classify;
  }

  /** An argv line that is not in another table gives the last entry its argv. */
  lemma ArgvStep(st: Body, line: string, entry: nat)
    requires Step(st, line).Some? && IsArgvLine(line) && st.section != InTable && |st.project.allow| == entry + 1
    ensures !SetEntry(st, entry) && SetEntry(Step(st, line).value, entry)
  {
    ArgvLineKind(line);
    hide Classify, StripCr, IsArgvLine;
  }

  lemma SetStep(st: Body, line: string, entry: nat)
    requires Step(st, line).Some? && SetEntry(st, entry)
    ensures SetEntry(Step(st, line).value, entry)
  {
    hide Classify, StripCr;
  }

  lemma {:induction false} SetStays(lines: seq<string>, j: nat, k: nat, entry: nat)
    requires ReadBody(lines, EmptyBody).Some? && j <= k <= |lines|
    requires Before(lines, j).Some? && SetEntry(Before(lines, j).value, entry)
    ensures Before(lines, k).Some? && SetEntry(Before(lines, k).value, entry)
    decreases k - j
  {
    hide Step, Before, SetEntry;
    if j < k {
      SetStays(lines, j, k - 1, entry);
      BeforeStep(lines, k - 1);
      SetStep(Before(lines, k - 1).value, lines[k - 1], entry);
    }
  }

  lemma OneOwnArgv(lines: seq<string>, j: nat, k: nat, entry: nat)
    requires ReadBody(lines, EmptyBody).Some? && j < k < |lines|
    requires ArgvOf(lines, j, entry) && !Elsewhere(lines, j) && ArgvOf(lines, k, entry)
    ensures Elsewhere(lines, k)
  {
    hide Step, IsArgvLine, SetEntry, Opened, ReadBody;
    BeforeStep(lines, j);
    BeforeStep(lines, k);
    OpenedCounts(lines, j);
    OpenedCounts(lines, k);
    ArgvStep(Before(lines, j).value, lines[j], entry);
    SetStays(lines, j + 1, k, entry);
    if Before(lines, k).value.section != InTable { ArgvStep(Before(lines, k).value, lines[k], entry); }
  }

  /** An entry with an argv has exactly one argv line, unless another table in its section has one. */
  lemma OnlyArgvExactly(lines: seq<string>, entry: nat) returns (s: nat)
    requires ReadBody(lines, EmptyBody).Some? && SetEntry(ReadBody(lines, EmptyBody).value, entry)
    ensures s < |lines| && IsArgvLine(lines[s]) && InSection(lines, entry, s) && !Elsewhere(lines, s)
    ensures OnlyArgv(lines, entry, s) <==> NoRepeatedArgv(lines, entry)
  {
    hide Step, IsArgvLine, SetEntry, Opened, ReadBody, InSection, Elsewhere;
    assert lines[..|lines|] == lines;
    s := OwnArgv(lines, entry);
    ArgvInSection(lines, entry, s);
    if NoRepeatedArgv(lines, entry) {
      forall k | 0 <= k < |lines| && IsArgvLine(lines[k]) && InSection(lines, entry, k) ensures k == s {
        ArgvInSection(lines, entry, k);
        if k < s { OneOwnArgv(lines, k, s, entry); } else if s < k { OneOwnArgv(lines, s, k, entry); }
      }
    }
  }

  lemma OwnArgv(lines: seq<string>, entry: nat) returns (s: nat)
    requires ReadBody(lines, EmptyBody).Some? && SetEntry(ReadBody(lines, EmptyBody).value, entry)
    ensures s < |lines| && ArgvOf(lines, s, entry) && !Elsewhere(lines, s)
  {
    hide SetEntry, ArgvOf, ReadBody;
    assert lines[..|lines|] == lines;
    SetterExists(lines, |lines|, entry);
    s :| 0 <= s < |lines| && ReadBody(lines[..s], EmptyBody).Some?
         && ReadBody(lines[..s], EmptyBody).value.section == InAllow && ArgvOf(lines, s, entry);
  }

  lemma SectionHits(lines: seq<string>, r: nat, a: nat)
    requires r < |Headers(lines)| && OnlyArgv(lines, r, a)
    ensures |Hits(IsArgvLine, SectionLines(lines, r), 0)| == 1
  {
    hide IsArgvLine, Headers, SectionLines, InSection;
    var section := SectionLines(lines, r);
    LineInSection(lines, r, a);
    EmptyMatches();
    SectionStart(lines, r);
    forall j | 0 <= j < |section| && IsArgvLine(section[j]) ensures j == a - Headers(lines)[r] {
      SectionPrefix(lines, r, Headers(lines)[r], j);
    }
    OneHit(IsArgvLine, section, a - Headers(lines)[r]);
  }

  lemma SectionRepeats(lines: seq<string>, r: nat, a: nat, k: nat)
    requires r < |Headers(lines)| && a != k && a < |lines| && k < |lines|
    requires IsArgvLine(lines[a]) && IsArgvLine(lines[k])
    requires InSection(lines, r, a) && InSection(lines, r, k)
    ensures |Hits(IsArgvLine, SectionLines(lines, r), 0)| != 1
  {
    hide IsArgvLine, Headers, SectionLines, InSection;
    LineInSection(lines, r, a);
    LineInSection(lines, r, k);
    TwoHits(IsArgvLine, SectionLines(lines, r), a - Headers(lines)[r], k - Headers(lines)[r]);
  }

  lemma EntrySpansIs(data: string, start: nat, block: string, lines: seq<string>, r: nat)
    requires lines != [] && AllNewlineless(lines) && block == Join(lines) && r < |Headers(lines)|
    ensures EntrySpans(data, start, block, r).Some? <==> |Hits(IsArgvLine, SectionLines(lines, r), 0)| == 1
  {
    hide Split, Join, Offset, IsAllowHeader, IsArgvLine, Headers, SectionLines, ConsumeNewline, Hits;
    HeadersOf(lines, r, block);
    SectionFound(lines, r, block);
    SectionStart(lines, r);
    SectionNewlineless(lines, r);
    SplitJoin(SectionLines(lines, r));
    SectionInBlock(block, r);
    hide FindAll;
    var (from, upto) := SectionBounds(block, FindAll(IsAllowHeader, block), r);
    SectionMatches(block, from, upto, SectionLines(lines, r));
  }

  lemma SectionMatches(block: string, from: nat, upto: nat, section: seq<string>)
    requires from <= upto <= |block| && Split(block[from..upto]) == section
    ensures |FindAll(IsArgvLine, block[from..upto])| == |Hits(IsArgvLine, section, 0)|
  {
    hide Split, Hits, IsArgvLine;
  }

  lemma EntryFoundExactly(data: string, start: nat, block: string, lines: seq<string>, r: nat)
    requires lines != [] && AllNewlineless(lines) && block == Join(lines)
    requires ReadBody(lines, EmptyBody).Some? && SetEntry(ReadBody(lines, EmptyBody).value, r)
    ensures EntrySpans(data, start, block, r).Some? <==> NoRepeatedArgv(lines, r)
  {
    hide Join, IsArgvLine, Headers, SectionLines, InSection, SetEntry, ReadBody, EntrySpans, Elsewhere;
    var s := OnlyArgvExactly(lines, r);
    SectionOf(lines, r, s);
    EntrySpansIs(data, start, block, lines, r);
    if NoRepeatedArgv(lines, r) {
      SectionHits(lines, r, s);
    } else {
      var k :| 0 <= k < |lines| && Elsewhere(lines, k) && InSection(lines, r, k) && IsArgvLine(lines[k]);
      SectionRepeats(lines, r, s, k);
    }
  }

  lemma SectionOf(lines: seq<string>, r: int, k: nat)
    requires InSection(lines, r, k)
    ensures 0 <= r < |Headers(lines)|
  {
  }

  lemma {:induction false} AllSpansExactly(data: string, start: nat, block: string, lines: seq<string>,
                                           remove: seq<int>)
    requires lines != [] && AllNewlineless(lines) && block == Join(lines) && ReadBody(lines, EmptyBody).Some?
    requires HasEntries(ReadBody(lines, EmptyBody).value.project, remove)
    ensures AllSpans(data, start, block, remove).Some?
            <==> NoRepeatedArgvs(lines, remove)
  {
    hide Join, ReadBody, EntrySpans, NoRepeatedArgv;
    if remove != [] {
      var front, r := remove[..|remove| - 1], remove[|remove| - 1];
      AllSpansExactly(data, start, block, lines, front);
      EntryFoundExactly(data, start, block, lines, r);
      assert forall j :: 0 <= j < |front| ==> front[j] == remove[j];
    }
  }

  /**
   removeAllowEntries on entries that have an argv fails exactly if another table inside the
   section of one of them holds an argv line.
   */
  lemma RemoveAllowSucceeds(data: string, i: nat, remove: seq<int>)
    requires ReadText(data).Some? && i < |ReadText(data).value.projects|
    requires Increasing(remove) && HasEntries(ReadText(data).value.projects[i], remove)
    ensures i < |DocOf(data).blocks|
    ensures RemoveAllow(data, |ReadText(data).value.projects|, i, |ReadText(data).value.projects[i].allow|,
                        remove).Some?
            <==> NoRepeatedArgvs(BlockLines(data, i), remove)
  {
    hide DocOf, ReadDoc, ReadBody, BlockBody, GoodBlock, Split, Join, NoRepeatedArgv, ProjectBounds, BlockLines,
         BodyText, RemoveAllow, AllSpans, FindAll, HasEntries, Increasing;
    BlockLinesRead(data, i);
    ReadDocCount(DocOf(data));
    var start, end := Selected(data, i);
    HeadersCount(data, i);
    AllSpansExactly(data, start, BodyText(DocOf(data), i), BlockLines(data, i), remove);
    RemoveAllowExact(data, |ReadText(data).value.projects|, i, |ReadText(data).value.projects[i].allow|, remove);
  }

  lemma HeadersCount(data: string, i: nat)
    requires ReadText(data).Some? && i < |ReadText(data).value.projects|
    ensures i < |DocOf(data).blocks|
    ensures |FindAll(IsAllowHeader, BodyText(DocOf(data), i))| == |ReadText(data).value.projects[i].allow|
  {
    hide DocOf, ReadDoc, ReadBlock, BlockBody, GoodBlock, FindAll;
    ReadDocCount(DocOf(data));
    var start, end := Selected(data, i);
    HeadersAreEntries(DocOf(data).blocks[i], i + 1 == |DocOf(data).blocks|);
  }
}
