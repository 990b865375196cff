/**
 Two edits that go wrong on valid policies: two projects, the first of which has a table `[x]`
 that Config ignores between its own lines and the next project, after any preamble.

 Removing that project is accepted although `[x]` is lost. Setting its approval mode writes
 the line into `[x]` and is refused.
 */
module Misplaced {
  import opened Basics
  import opened Text
  import opened TomlStrings
  import opened Layout
  import opened Splice
  import opened Reading
  import opened BlockReading
  import opened DocReading
  import opened Commutes
  import opened ApprovalCommutes
  import opened ProjectCommutes
  import opened CleanText
  import opened EditCommutes
  import ER = EntryReading
  import E = Edits
  import C = Config

  // ----- The policies -----

  const Header := "[[projects]]"
  const Foreign := "[x]"

  function Line(key: Key, v: string): string { KeyName(key) + " = " + JsonString(v) }

  function Lines(alias: string): seq<string> {
    [Line(Alias, alias), Line(ProjectId, "i"), Line(TokenEntry, "t"), Line(WorkingDir, "/")]
  }

  function Raw(alias: string): RawProject {
    RawProject(map[Alias := alias, ProjectId := "i", TokenEntry := "t", WorkingDir := "/"], [])
  }

  function First(): Block { Block(Header, Lines("a") + [Foreign]) }

  function Second(): Block { Block(Header, Lines("b") + [""]) }

  function TheDoc(pre: seq<string>): Doc { Doc(pre, [First(), Second()]) }

  /** A preamble, project "a" with `[x]` inside its span, project "b". */
  function TheText(pre: seq<string>): string { TextOf(TheDoc(pre)) }

  function ThePolicy(s: C.Settings): C.Config {
    C.Config(FinalSettings(s), [C.Project("a", "i", "t", "/", C.ApprovalNever, []),
                                C.Project("b", "i", "t", "/", C.ApprovalNever, [])])
  }

  const Added := ApprovalLine(C.ApprovalAllowlistedPrompt)

  /** A preamble of other tables that reads as these worker settings, with or without a table `[x]` after it. */
  predicate Preamble(f: C.Foreign, settingsOf: SettingsReader, pre: seq<string>, rest: seq<string>, s: C.Settings) {
    && Headerless(pre) && AllNewlineless(pre) && AllClean(pre) && ReadPreamble(pre) == Some(rest)
    && C.ValidSettings(f, FinalSettings(s)) && C.WorkerSettings(FinalSettings(s))
    && settingsOf(rest) == settingsOf(rest + [Foreign]) == settingsOf(rest + [Foreign, Added]) == Some(s)
  }

  // ----- They are read as they look -----

  lemma ForeignLine()
    ensures Classify(Foreign) == Table && !IsProjectHeader(Foreign)
    ensures StripCr(Foreign) == Foreign && Newlineless(Foreign)
    ensures !IsAllowHeader(Foreign) && !IsFieldLine("approval", Foreign) && CleanAscii(Foreign) && CleanAscii(Header)
  {
    assert StripCr(Foreign) == Foreign && SkipBlanks(Foreign) == Foreign;
  }

  lemma LineIs(key: Key, v: string)
    requires Writable(v)
    ensures Classify(Line(key, v)) == Field(key, v) && !IsProjectHeader(Line(key, v)) && Newlineless(Line(key, v))
    ensures Clean(Line(key, v))
  {
    hide Classify, IsProjectHeader, JsonString, Writable, Newlineless, KeyName, Clean;
    WrittenFieldLine(key, v, "");
    AppendNothing(Line(key, v));
    NameClean(key);
    AsciiIsClean("");
    PairClean(KeyName(key) + " = ", v, "");
  }

  lemma NameClean(key: Key)
    ensures CleanAscii(KeyName(key) + " = ")
  {
  }

  lemma ValuesWritable()
    ensures Writable("a") && Writable("b") && Writable("i") && Writable("t") && Writable("/")
  {
    PlainJson("a");
    PlainJson("b");
    PlainJson("i");
    PlainJson("t");
    assert "/"[1..] == "";
  }

  lemma LinesAre(alias: string)
    requires Writable(alias)
    ensures ReadBody(Lines(alias), EmptyBody) == Some(Body(InProject, Raw(alias), []))
    ensures GoodLines(Lines(alias)) && AllClean(Lines(alias))
  {
    hide Classify, IsProjectHeader, Writable, Newlineless, Line, Clean, Step;
    ValuesWritable();
    LineIs(Alias, alias);
    LineIs(ProjectId, "i");
    LineIs(TokenEntry, "t");
    LineIs(WorkingDir, "/");
    var values := [alias, "i", "t", "/"];
    var keys := [Alias, ProjectId, TokenEntry, WorkingDir];
    ReadFields(Lines(alias), keys, values, EmptyBody);
    PutFour(values);
  }

  lemma PutFour(v: seq<string>)
    requires |v| == 4
    ensures PutAll(EmptyBody, [Alias, ProjectId, TokenEntry, WorkingDir], v)
            == Body(InProject,
                    RawProject(map[Alias := v[0], ProjectId := v[1], TokenEntry := v[2], WorkingDir := v[3]], []), [])
  {
    var keys := [Alias, ProjectId, TokenEntry, WorkingDir];
    var s1 := Put(EmptyBody, Alias, v[0]);
    var s2 := Put(s1, ProjectId, v[1]);
    var s3 := Put(s2, TokenEntry, v[2]);
    var s4 := Put(s3, WorkingDir, v[3]);
    assert PutAll(s3, keys[3..], v[3..]) == s4 by { assert keys[3..] == [WorkingDir] && v[3..] == [v[3]]; }
    assert PutAll(s2, keys[2..], v[2..]) == s4 by { assert keys[2..][1..] == keys[3..] && v[2..][1..] == v[3..]; }
    assert PutAll(s1, keys[1..], v[1..]) == s4 by { assert keys[1..][1..] == keys[2..] && v[1..][1..] == v[2..]; }
    assert s4.project.fields == map[Alias := v[0], ProjectId := v[1], TokenEntry := v[2], WorkingDir := v[3]];
  }

  lemma HeaderIs()
    ensures IsProjectHeader(Header) && Newlineless(Header)
  {
    NewHeader("");
    assert Header + "" == Header;
  }

  /** The first project's block, followed by more lines of its table `[x]`. */
  lemma FirstRead(more: seq<string>)
    requires forall k :: 0 <= k < |more| ==> Classify(more[k]).Field?
    ensures ReadBody(Lines("a") + [Foreign] + more, EmptyBody)
            == Some(Body(InTable, Raw("a"), [Foreign] + Stripped(more)))
  {
    hide Classify, Step, Lines, Writable, Raw;
    ValuesWritable();
    LinesAre("a");
    ForeignLine();
    var mid, st := Body(InProject, Raw("a"), []), Body(InTable, Raw("a"), [Foreign]);
    assert [] + [Foreign] == [Foreign];
    ReadOne(mid, Foreign);
    TableStep(mid, Foreign);
    ReadBodyConcat(Lines("a"), [Foreign], EmptyBody);
    ReadBodyConcat(Lines("a") + [Foreign], more, EmptyBody);
    TableLines(more, st);
  }

  lemma TableStep(st: Body, line: string)
    requires Classify(line) == Table
    ensures Step(st, line) == Some(st.(section := InTable, rest := st.rest + [StripCr(line)]))
  {
    hide Classify, StripCr;
  }

  function Stripped(lines: seq<string>): seq<string> {
    seq(|lines|, k requires 0 <= k < |lines| => StripCr(lines[k]))
  }

  lemma {:induction false} TableLines(lines: seq<string>, st: Body)
    requires st.section == InTable && forall k :: 0 <= k < |lines| ==> Classify(lines[k]).Field?
    ensures ReadBody(lines, st) == Some(st.(rest := st.rest + Stripped(lines)))
  {
    hide Classify, StripCr;
    if lines == [] {
      assert st.rest + Stripped(lines) == st.rest;
    } else {
      var next := st.(rest := st.rest + [StripCr(lines[0])]);
      TableLines(lines[1..], next);
      assert next.rest + Stripped(lines[1..]) == st.rest + Stripped(lines);
    }
  }

  lemma BlocksGood()
    ensures GoodBlock(First()) && GoodBlock(Second())
  {
    hide Classify, IsProjectHeader, Writable, Newlineless, Lines;
    ValuesWritable();
    LinesAre("a");
    LinesAre("b");
    ForeignLine();
    HeaderIs();
    Blankless();
  }

  lemma DocIs(pre: seq<string>)
    requires Headerless(pre) && AllNewlineless(pre)
    ensures Grouped(TheDoc(pre)) && DocOf(TheText(pre)) == TheDoc(pre)
  {
    hide IsProjectHeader, GoodBlock, First, Second;
    BlocksGood();
    DocOfText(TheDoc(pre));
  }

  /** The document with the first block continued by more lines of `[x]`. */
  lemma DocRead(pre: seq<string>, rest: seq<string>, more: seq<string>)
    requires ReadPreamble(pre) == Some(rest) && forall k :: 0 <= k < |more| ==> Classify(more[k]).Field?
    ensures ReadBlock(First()).Some?
    ensures ReadDoc(Doc(pre, [Block(Header, Lines("a") + [Foreign] + more), Second()]))
            == Some(Read(rest + ([Foreign] + Stripped(more)), [Raw("a"), Raw("b")]))
  {
    hide Classify, Step, Lines, ReadBody, ReadPreamble, Writable;
    FirstRead(more);
    FirstRead([]);
    assert Lines("a") + [Foreign] + [] == Lines("a") + [Foreign];
    ValuesWritable();
    LinesAre("b");
    ReadBlankLast(Lines("b"), EmptyBody);
    var a := Block(Header, Lines("a") + [Foreign] + more);
    assert [a, Second()][1..] == [Second()];
    ReadOneBlock(Second());
    var lines := [Foreign] + Stripped(more);
    assert lines + [] == lines;
    assert [Raw("a")] + [Raw("b")] == [Raw("a"), Raw("b")];
  }

  lemma EndsNewline(pre: seq<string>)
    requires AllClean(pre)
    ensures !EndsBare(TheText(pre)) && Clean(TheText(pre))
  {
    hide Lines, Clean, Writable, Terminated, GoodLines;
    ValuesWritable();
    LinesAre("a");
    LinesAre("b");
    ForeignLine();
    AsciiIsClean(Foreign);
    AsciiIsClean(Header);
    var lines := pre + ([Header] + (Lines("a") + [Foreign])) + ([Header] + Lines("b"));
    AllLines(pre);
    CleanLines(lines);
    JoinEmptyLast(lines);
    LastLine(lines + [""]);
  }

  lemma AllLines(pre: seq<string>)
    ensures Ungroup(TheDoc(pre)) == pre + ([Header] + (Lines("a") + [Foreign])) + ([Header] + Lines("b")) + [""]
  {
    hide Lines;
    var blocks := TheDoc(pre).blocks;
    assert blocks[1..] == [Second()] && [Second()][1..] == [];
    assert Flat([Second()]) == [Header] + (Lines("b") + [""]);
  }

  lemma TextIsRead(pre: seq<string>, rest: seq<string>)
    requires Headerless(pre) && AllNewlineless(pre) && AllClean(pre) && ReadPreamble(pre) == Some(rest)
    ensures DocOf(TheText(pre)) == TheDoc(pre)
    ensures ReadText(TheText(pre)) == Some(Read(rest + [Foreign], [Raw("a"), Raw("b")]))
  {
    hide DocOf, ReadDoc, TextOf, Lines, Raw, AllClean, Headerless, AllNewlineless, ReadPreamble, Classify;
    DocIs(pre);
    EndsNewline(pre);
    DocRead(pre, rest, []);
    assert Lines("a") + [Foreign] + [] == Lines("a") + [Foreign];
    assert [Foreign] + Stripped([]) == [Foreign];
  }

  lemma Finals()
    ensures Final(Raw("a")) == C.Project("a", "i", "t", "/", C.ApprovalNever, [])
    ensures Final(Raw("b")) == C.Project("b", "i", "t", "/", C.ApprovalNever, [])
  {
  }

  lemma DefaultedIs(s: C.Settings)
    ensures C.Defaulted(C.Config(s, ProjectsOf([Raw("a"), Raw("b")]))) == ThePolicy(s)
  {
    hide ProjectOf, C.DefaultedProject, C.DefaultedSource, Raw;
    Finals();
    var c := C.Defaulted(C.Config(s, ProjectsOf([Raw("a"), Raw("b")])));
    assert c.projects[0] == Final(Raw("a")) && c.projects[1] == Final(Raw("b"));
    assert c.projects == ThePolicy(s).projects;
  }

  lemma PolicyValid(f: C.Foreign, s: C.Settings)
    requires C.ValidSettings(f, FinalSettings(s)) && C.WorkerSettings(FinalSettings(s))
    ensures C.Valid(f, ThePolicy(s)) && C.WorkerConfig(ThePolicy(s))
    ensures C.IndexOf(ThePolicy(s).projects, "a") == 0
  {
    hide C.ValidSettings, C.WorkerSettings, FinalSettings;
    assert C.IsAbs("/");
  }

  /** The editor reads these texts as the two-project policy. */
  lemma PolicyIsRead(f: C.Foreign, settingsOf: SettingsReader, pre: seq<string>, rest: seq<string>, s: C.Settings)
    requires Agrees(f, settingsOf) && Preamble(f, settingsOf, pre, rest, s)
    ensures Editing(f, settingsOf, "", TheText(pre), ThePolicy(s))
    ensures ReadText(TheText(pre)) == Some(Read(rest + [Foreign], [Raw("a"), Raw("b")]))
  {
    hide TheText, C.Valid, C.WorkerConfig, C.ValidSettings, C.WorkerSettings, Raw, Clean, ReadDoc, DocOf, ReadPreamble,
         AllClean, Headerless, AllNewlineless, ProjectsOf, C.Defaulted, ThePolicy;
    TextIsRead(pre, rest);
    EndsNewline(pre);
    DefaultedIs(s);
    PolicyValid(f, s);
    var data := TheText(pre);
    assert CanonicalToml(settingsOf, data) == Some(C.Config(s, ProjectsOf([Raw("a"), Raw("b")])));
    assert f.toml(data) == CanonicalToml(settingsOf, data);
  }

  // ----- Removing the project -----

  /** Removing project "a" is accepted, and the table `[x]` is gone with it. */
  lemma RemovalTakesTable(f: C.Foreign, settingsOf: SettingsReader, pre: seq<string>, rest: seq<string>, s: C.Settings,
                          id: string)
    requires Agrees(f, settingsOf) && Preamble(f, settingsOf, pre, rest, s) && E.ValidId(id)
    ensures RemoveProject(TheText(pre), 2, 0).Some?
    ensures var data, u := TheText(pre), RemoveProject(TheText(pre), 2, 0).value;
            && E.Derive(f, "", E.DropProject("a", "a", id), data) == E.Replace(u)
            && ReadText(data) == Some(Read(rest + [Foreign], [Raw("a"), Raw("b")]))
            && ReadText(u) == Some(Read(rest, [Raw("b")]))
  {
    hide TheText, ReadText, Raw, Agrees, Editing, E.Derive, E.ValidId, DocOf, RemoveProject, ReadBlock, FinalSettings,
         NoTableInside, RestOutside, C.ValidSettings, C.WorkerSettings;
    PolicyIsRead(f, settingsOf, pre, rest, s);
    PolicyValid(f, s);
    DropAccepted(f, settingsOf, "", TheText(pre), ThePolicy(s), "a", id, 0);
    RemoveProjectExact(TheText(pre), 0);
    OutsideIs(pre, rest);
    assert DropAt([Raw("a"), Raw("b")], 0) == [Raw("b")];
  }

  lemma OutsideIs(pre: seq<string>, rest: seq<string>)
    requires Headerless(pre) && AllNewlineless(pre) && AllClean(pre) && ReadPreamble(pre) == Some(rest)
    ensures ReadText(TheText(pre)).Some? && |ReadText(TheText(pre)).value.projects| == 2
    ensures RestOutside(TheText(pre), 0) == rest
  {
    hide TheText, DocOf, ReadBody, Raw, ReadPreamble, AllClean, Headerless, AllNewlineless, Lines, Writable;
    TextIsRead(pre, rest);
    ValuesWritable();
    LinesAre("b");
    ReadBlankLast(Lines("b"), EmptyBody);
    ReadOneBlock(Second());
    assert DropAt([First(), Second()], 0) == [Second()];
    assert rest + [] == rest;
  }

  // ----- Setting its approval mode -----

  /** Setting the approval mode of project "a" writes the line into `[x]`, and the editor refuses. */
  lemma ApprovalGoesAstray(f: C.Foreign, settingsOf: SettingsReader, pre: seq<string>, rest: seq<string>, s: C.Settings)
    requires Agrees(f, settingsOf) && Preamble(f, settingsOf, pre, rest, s)
    ensures ReplaceApproval(TheText(pre), 2, 0, C.ApprovalAllowlistedPrompt).Some?
    ensures var u := ReplaceApproval(TheText(pre), 2, 0, C.ApprovalAllowlistedPrompt).value;
            && ReadText(u) == Some(Read(rest + [Foreign, Added], [Raw("a"), Raw("b")]))
            && E.Derive(f, "", E.SetApproval("a", E.ModeConfirm), TheText(pre)) == E.Refused
  {
    hide TheText, ReadText, Raw, Agrees, Editing, E.Derive, DocOf, ReplaceApproval, OwnApproval, FinalSettings,
         ApprovalLine, C.ValidSettings, C.WorkerSettings, FieldHits, BodyText;
    PolicyIsRead(f, settingsOf, pre, rest, s);
    PolicyValid(f, s);
    var approval := C.ApprovalAllowlistedPrompt;
    var u := AstrayText(pre, rest);
    NotOwn(pre, rest);
    assert E.StoredApproval(E.ModeConfirm) == Some(approval);
    ApprovalAccepted(f, settingsOf, "", TheText(pre), ThePolicy(s), "a", E.ModeConfirm, 0, Some(u));
  }

  lemma NotOwn(pre: seq<string>, rest: seq<string>)
    requires Headerless(pre) && AllNewlineless(pre) && AllClean(pre) && ReadPreamble(pre) == Some(rest)
    ensures ReadText(TheText(pre)).Some? && |ReadText(TheText(pre)).value.projects| == 2
    ensures !OwnApproval(TheText(pre), 0)
  {
    hide TheText, DocOf, ReadText, ReadPreamble, AllClean, Headerless, AllNewlineless, Lines, Classify, IsAllowHeader,
         FieldHits;
    TextIsRead(pre, rest);
    ForeignLine();
    NoAllow();
    var body := First().body;
    assert body[..|body|] == body;
    assert body[|Lines("a")|] == Foreign;
  }

  lemma NoAllow()
    ensures FirstAllow(First().body) == |First().body|
    ensures forall k :: 0 <= k < |First().body| ==> !IsFieldLine("approval", First().body[k])
  {
    hide Classify, Line, Writable, IsAllowHeader, IsFieldLine;
    ValuesWritable();
    ForeignLine();
    PlainKind(Alias, "a");
    PlainKind(ProjectId, "i");
    PlainKind(TokenEntry, "t");
    PlainKind(WorkingDir, "/");
    var body := First().body;
    assert body == [Line(Alias, "a"), Line(ProjectId, "i"), Line(TokenEntry, "t"), Line(WorkingDir, "/"), Foreign];
    var k := FirstAllow(body);
  }

  lemma PlainKind(key: Key, v: string)
    requires Writable(v) && key != Approval
    ensures !IsAllowHeader(Line(key, v)) && !IsFieldLine("approval", Line(key, v))
  {
    hide Classify, Line, Writable, IsAllowHeader, IsFieldLine;
    LineIs(key, v);
    AllowHeaderKindOf(Line(key, v));
    if IsFieldLine("approval", Line(key, v)) { ApprovalLineKind(Line(key, v)); }
  }

  lemma AllowHeaderKindOf(line: string)
    requires Classify(line).Field?
    ensures !IsAllowHeader(line)
  {
    ER.AllowHeaderKind(line);
  }

  /** The text after the splice: the line stands at the end of the first block. */
  lemma AstrayText(pre: seq<string>, rest: seq<string>) returns (u: string)
    requires Headerless(pre) && AllNewlineless(pre) && AllClean(pre) && ReadPreamble(pre) == Some(rest)
    ensures ReplaceApproval(TheText(pre), 2, 0, C.ApprovalAllowlistedPrompt) == Some(u)
    ensures ReadText(u) == Some(Read(rest + [Foreign, Added], [Raw("a"), Raw("b")]))
  {
    hide TheText, DocOf, ReadDoc, ReadBlock, TextAfter, BlockBody, FieldHits, ProjectBounds, GoodBlock, Terminated,
         LinesBefore, Cr, InsertLine, ApprovalInsertAt, ApprovalLine, ReadPreamble, AllClean, Headerless,
         AllNewlineless, Raw, Lines, FirstAllow, Classify;
    var data, approval := TheText(pre), C.ApprovalAllowlistedPrompt;
    TextIsRead(pre, rest);
    EndsNewline(pre);
    var d := DocOf(data);
    var start, end := Selected(data, 0);
    var b := d.blocks[0];
    var cr := Cr(data);
    CrIs(data);
    HeaderNonempty(b);
    FirstHasNoApproval();
    DefaultIsPlain();
    u := InsertLine(data, ApprovalInsertAt(data[start..end], start), ApprovalLine(approval) + Newline(data));
    ApprovalBlockText(data, Terminated(LinesBefore(d, 0)), b, false, TextAfter(d, 0), approval);
    ApprovalBlockGood(b, false, cr, approval);
    ApprovalMeans(approval, cr);
    ApprovalNotBare(data, start, end, approval);
    NoAllow();
    var line := ApprovalLine(approval) + cr;
    var b' := Block(Header, Lines("a") + [Foreign] + [line]);
    assert ApprovalBlock(b, false, cr, approval) == b';
    DocOfEdited(data, 0, b', u);
    DocRead(pre, rest, [line]);
    assert WithBlock(d, 0, b') == Doc(pre, [b', Second()]);
    StripDefault(cr);
    assert [Foreign] + Stripped([line]) == [Foreign, ApprovalLine(approval)];
  }

  lemma DefaultIsPlain()
    ensures PlainWord(C.ApprovalAllowlistedPrompt)
  {
  }

  lemma StripDefault(cr: string)
    requires CrOrNothing(cr)
    ensures StripCr(ApprovalLine(C.ApprovalAllowlistedPrompt) + cr) == ApprovalLine(C.ApprovalAllowlistedPrompt)
  {
    StripWritten(ApprovalLine(C.ApprovalAllowlistedPrompt), cr);
  }

  lemma FirstHasNoApproval()
    ensures FieldHits("approval", BlockBody(First().body, false)) == []
  {
    hide Line, IsFieldLine, IsAllowHeader, BlockBody, Split, GoodBlock;
    NoAllow();
    BlocksGood();
    GoodIsNewlineless(First());
    InnerSplit(First().body, false);
    NotFieldLine("approval");
    var lines := Inner(First().body, false);
    forall k | 0 <= k < |lines| ensures !FieldPattern("approval")(lines[k]) {
      if 0 < k <= |First().body| { assert lines[k] == First().body[k - 1]; }
    }
    NoHits(FieldPattern("approval"), lines, 0);
  }
}
