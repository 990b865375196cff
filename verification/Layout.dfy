/**
 The canonical layout of policy.toml.

 The editor recognises lines with multi-line-mode regular expressions whose matches never
 cross a newline, so each expression is a predicate on one line (`IsProjectHeader`,
 `IsAllowHeader`, `IsArgvLine`) or a function giving the span of the quoted value
 (`FieldValue`). `Classify` and the functions after it are the TOML reading of the same
 lines: a preamble of other tables, then one block per `[[projects]]` header.
 */
module Layout {
  import opened Basics
  import opened Text
  import opened TomlStrings
  import opened Utf8
  import Config

  // ----- The editor's line patterns -----

  function StripCr(line: string): string {
    if line != "" && line[|line| - 1] == '\r' then line[..|line| - 1] else line
  }

  /** Blanks and an optional comment: `[\t ]*(?:#[^\r\n]*)?`. */
  predicate Trailer(u: string) {
    var v := SkipBlanks(u);
    v == "" || (v[0] == '#' && '\r' !in v)
  }

  predicate StartsWith(t: string, h: string) { |h| <= |t| && t[..|h|] == h }

  predicate IsHeader(h: string, line: string) {
    var t := SkipBlanks(StripCr(line));
    StartsWith(t, h) && Trailer(t[|h|..])
  }

  predicate IsProjectHeader(line: string) { IsHeader("[[projects]]", line) }
  predicate IsAllowHeader(line: string) { IsHeader("[[projects.allow]]", line) }

  predicate KeyChar(c: char) {
    'a' <= c <= 'z' || 'A' <= c <= 'Z' || '0' <= c <= '9' || c == '_' || c == '-'
  }

  function KeyLength(t: string): (n: nat)
    ensures n <= |t|
  {
    if t != "" && KeyChar(t[0]) then 1 + KeyLength(t[1..]) else 0
  }

  /** `key = `: the bare key and the position of its value. */
  function KeyAt(line: string): (r: Option<(string, nat)>)
    ensures r.Some? ==> r.value.1 <= |line|
  {
    var t := SkipBlanks(line);
    var n := KeyLength(t);
    var u := SkipBlanks(t[n..]);
    if n > 0 && u != "" && u[0] == '=' then Some((t[..n], |line| - |SkipBlanks(u[1..])|)) else None
  }

  /** `"(?:\\.|[^"\\\r\n])*"`, from after the opening quote. */
  function BasicLength(t: string): (r: Option<nat>)
    ensures r.Some? ==> r.value <= |t|
  {
    if t == "" || t[0] == '\r' || t[0] == '\n' then None
    else if t[0] == '"' then Some(1)
    else if t[0] == '\\' then
      if |t| < 2 || t[1] == '\n' then None
      else match BasicLength(t[2..]) case None => None case Some(n) => Some(n + 2)
    else match BasicLength(t[1..]) case None => None case Some(n) => Some(n + 1)
  }

  /** `'[^'\r\n]*'`, from after the opening quote. */
  function LiteralLength(t: string): (r: Option<nat>)
    ensures r.Some? ==> r.value <= |t|
  {
    if t == "" || t[0] == '\r' || t[0] == '\n' then None
    else if t[0] == '\'' then Some(1)
    else match LiteralLength(t[1..]) case None => None case Some(n) => Some(n + 1)
  }

  function QuotedLength(t: string): (r: Option<nat>)
    ensures r.Some? ==> r.value <= |t|
  {
    if t == "" then None
    else
      var inner := if t[0] == '"' then BasicLength(t[1..])
                   else if t[0] == '\'' then LiteralLength(t[1..]) else None;
      match inner case None => None case Some(n) => Some(n + 1)
  }

  /**
   The span of the quoted value in a single-line string field of this name:
   `^([\t ]*key[\t ]*=[\t ]*)(?:"..."|'...')([\t ]*(?:#[^\r\n]*)?\r?)$`.
   */
  function FieldValue(key: string, line: string): (r: Option<(nat, nat)>)
    ensures r.Some? ==> r.value.0 <= r.value.1 <= |StripCr(line)| <= |line|
  {
    var body := StripCr(line);
    match KeyAt(body)
    case None => None
    case Some((name, at)) =>
      if name != key then None
      else match QuotedLength(body[at..])
        case None => None
        case Some(n) => if Trailer(body[at + n..]) then Some((at, at + n)) else None
  }

  predicate IsFieldLine(key: string, line: string) { FieldValue(key, line).Some? }

  /** `^[\t ]*argv[\t ]*=[^\r\n]*\r?$`. */
  predicate IsArgvLine(line: string) {
    var body := StripCr(line);
    KeyAt(body).Some? && KeyAt(body).value.0 == "argv" && '\r' !in body
  }

  // ----- The TOML reading of a line -----

  datatype Key = Alias | ProjectId | TokenEntry | WorkingDir | Approval

  function KeyName(k: Key): string {
    match k
    case Alias => "alias"
    case ProjectId => "bws_project_id"
    case TokenEntry => "token_entry"
    case WorkingDir => "working_dir"
    case Approval => "approval"
  }

  function KeyNamed(name: string): Option<Key> {
    if name == "alias" then Some(Alias)
    else if name == "bws_project_id" then Some(ProjectId)
    else if name == "token_entry" then Some(TokenEntry)
    else if name == "working_dir" then Some(WorkingDir)
    else if name == "approval" then Some(Approval)
    else None
  }

  datatype Kind = Blank | AllowHeader | Table | Field(key: Key, value: string) | Argv(argv: seq<string>) | Other

  /** What a line means inside a project's tables. Anything else the layout does not cover is Other. */
  function Classify(line: string): Kind {
    var body := StripCr(line);
    var t := SkipBlanks(body);
    if '\r' in body then Other
    else if t == "" || t[0] == '#' then Blank
    else if IsAllowHeader(line) then AllowHeader
    else if t[0] == '[' then Table
    else ClassifyPair(line)
  }

  function ClassifyPair(line: string): Kind {
    var body := StripCr(line);
    match KeyAt(body)
    case None => Other
    case Some((name, at)) =>
      if KeyNamed(name).Some? then
        match FieldValue(name, line)
        case None => Other
        case Some((a, b)) =>
          match ReadString(body[a..b])
          case None => Other
          case Some((v, rest)) => if rest == "" then Field(KeyNamed(name).value, v) else Other
      else if name == "argv" then
        match ReadArray(body[at..])
        case None => Other
        case Some((argv, rest)) => if Trailer(rest) then Argv(argv) else Other
      else Other
  }

  // ----- A project's block -----

  datatype RawProject = RawProject(fields: map<Key, string>, allow: seq<Option<seq<string>>>)

  datatype Section = InProject | InAllow | InTable

  datatype Body = Body(section: Section, project: RawProject, rest: seq<string>)

  const EmptyBody := Body(InProject, RawProject(map[], []), [])

  /** A `key = value` line in the current section. */
  function StepPair(st: Body, kind: Kind, line: string): Option<Body> {
    var allow := st.project.allow;
    match st.section
    case InTable => Some(st.(rest := st.rest + [StripCr(line)]))
    case InProject =>
      if kind.Field? && kind.key !in st.project.fields then
        Some(st.(project := st.project.(fields := st.project.fields[kind.key := kind.value])))
      else None
    case InAllow =>
      if kind.Argv? && allow != [] && allow[|allow| - 1].None? then
        Some(st.(project := st.project.(allow := allow[..|allow| - 1] + [Some(kind.argv)])))
      else None
  }

  /** One line of a block; None where TOML refuses it or the layout does not cover it. */
  function Step(st: Body, line: string): Option<Body> {
    match Classify(line)
    case Blank => Some(st)
    case AllowHeader => Some(st.(section := InAllow, project := st.project.(allow := st.project.allow + [None])))
    case Table => Some(st.(section := InTable, rest := st.rest + [StripCr(line)]))
    case _ => StepPair(st, Classify(line), line)
  }

  function ReadBody(lines: seq<string>, st: Body): Option<Body> {
    if lines == [] then Some(st)
    else match Step(st, lines[0])
      case None => None
      case Some(next) => ReadBody(lines[1..], next)
  }

  lemma {:induction false} ReadBodyConcat(a: seq<string>, b: seq<string>, st: Body)
    ensures ReadBody(a + b, st) ==
            match ReadBody(a, st) case None => None case Some(mid) => ReadBody(b, mid)
  {
    if a == [] {
      assert a + b == b;
    } else {
      assert (a + b)[1..] == a[1..] + b;
      if Step(st, a[0]).Some? { ReadBodyConcat(a[1..], b, Step(st, a[0]).value); }
    }
  }

  // ----- The document -----

  datatype Block = Block(header: string, body: seq<string>)
  datatype Doc = Doc(pre: seq<string>, blocks: seq<Block>)

  function Group(lines: seq<string>): Doc {
    if lines == [] then Doc([], [])
    else
      var d := Group(lines[1..]);
      if IsProjectHeader(lines[0]) then Doc([], [Block(lines[0], d.pre)] + d.blocks)
      else Doc([lines[0]] + d.pre, d.blocks)
  }

  function Flat(blocks: seq<Block>): seq<string> {
    if blocks == [] then [] else [blocks[0].header] + blocks[0].body + Flat(blocks[1..])
  }

  function Ungroup(d: Doc): seq<string> { d.pre + Flat(d.blocks) }

  predicate Headerless(lines: seq<string>) {
    forall k :: 0 <= k < |lines| ==> !IsProjectHeader(lines[k])
  }

  predicate GoodBlock(b: Block) {
    IsProjectHeader(b.header) && Headerless(b.body) && Newlineless(b.header) && AllNewlineless(b.body)
  }

  /** The documents that come from grouping the lines of a text. */
  predicate Grouped(d: Doc) {
    && Headerless(d.pre) && AllNewlineless(d.pre)
    && forall i :: 0 <= i < |d.blocks| ==> GoodBlock(d.blocks[i])
  }

  lemma {:induction false} GroupLines(lines: seq<string>)
    requires AllNewlineless(lines)
    ensures Ungroup(Group(lines)) == lines
    ensures Grouped(Group(lines))
  {
    if lines != [] {
      hide IsProjectHeader;
      GroupLines(lines[1..]);
      var d := Group(lines[1..]);
      assert lines == [lines[0]] + lines[1..];
      if IsProjectHeader(lines[0]) {
        HeaderFirst(lines[0], d);
      } else {
        PlainFirst(lines[0], d);
      }
    }
  }

  lemma HeaderFirst(line: string, d: Doc)
    requires Grouped(d) && IsProjectHeader(line) && Newlineless(line)
    ensures var d' := Doc([], [Block(line, d.pre)] + d.blocks);
            Grouped(d') && Ungroup(d') == [line] + Ungroup(d)
  {
    hide IsProjectHeader;
    var blocks := [Block(line, d.pre)] + d.blocks;
    assert blocks[1..] == d.blocks;
    assert [] + Flat(blocks) == [line] + (d.pre + Flat(d.blocks));
  }

  lemma PlainFirst(line: string, d: Doc)
    requires Grouped(d) && !IsProjectHeader(line) && Newlineless(line)
    ensures var d' := Doc([line] + d.pre, d.blocks);
            Grouped(d') && Ungroup(d') == [line] + Ungroup(d)
  {
    hide IsProjectHeader, Flat;
    assert ([line] + d.pre) + Flat(d.blocks) == [line] + (d.pre + Flat(d.blocks));
  }

  lemma {:induction false} GroupPlain(plain: seq<string>, lines: seq<string>)
    requires Headerless(plain)
    ensures Group(plain + lines) == Doc(plain + Group(lines).pre, Group(lines).blocks)
  {
    hide IsProjectHeader;
    if plain == [] {
      assert plain + lines == lines;
      assert plain + Group(lines).pre == Group(lines).pre;
    } else {
      assert (plain + lines)[1..] == plain[1..] + lines;
      GroupPlain(plain[1..], lines);
      assert [plain[0]] + (plain[1..] + Group(lines).pre) == plain + Group(lines).pre;
    }
  }

  lemma {:induction false} GroupBlocks(blocks: seq<Block>)
    requires forall i :: 0 <= i < |blocks| ==> GoodBlock(blocks[i])
    ensures Group(Flat(blocks)) == Doc([], blocks)
  {
    hide IsProjectHeader;
    if blocks != [] {
      var b := blocks[0];
      GroupBlocks(blocks[1..]);
      GroupPlain(b.body, Flat(blocks[1..]));
      var lines := Flat(blocks);
      assert lines == [b.header] + (b.body + Flat(blocks[1..]));
      assert lines[1..] == b.body + Flat(blocks[1..]);
      assert b.body + [] == b.body;
      assert GoodBlock(b);
      assert blocks == [b] + blocks[1..];
    }
  }

  lemma GroupUngroup(d: Doc)
    requires Grouped(d)
    ensures Group(Ungroup(d)) == d
  {
    GroupBlocks(d.blocks);
    GroupPlain(d.pre, Flat(d.blocks));
    assert d.pre + [] == d.pre;
  }

  lemma {:induction false} FlatConcat(a: seq<Block>, b: seq<Block>)
    ensures Flat(a + b) == Flat(a) + Flat(b)
  {
    if a == [] {
      assert a + b == b;
    } else {
      assert (a + b)[1..] == a[1..] + b;
      FlatConcat(a[1..], b);
    }
  }

  lemma {:induction false} FlatNewlineless(blocks: seq<Block>)
    requires forall i :: 0 <= i < |blocks| ==> GoodBlock(blocks[i])
    ensures AllNewlineless(Flat(blocks))
  {
    if blocks != [] {
      FlatNewlineless(blocks[1..]);
      assert GoodBlock(blocks[0]);
    }
  }

  // ----- The document of a text -----

  function DocOf(data: string): Doc { Group(Split(data)) }

  function TextOf(d: Doc): string
    requires Ungroup(d) != []
  {
    Join(Ungroup(d))
  }

  lemma DocOfText(d: Doc)
    requires Grouped(d) && Ungroup(d) != []
    ensures DocOf(TextOf(d)) == d
  {
    FlatNewlineless(d.blocks);
    SplitJoin(Ungroup(d));
    GroupUngroup(d);
  }

  lemma TextOfDoc(data: string)
    ensures Grouped(DocOf(data)) && Ungroup(DocOf(data)) == Split(data)
    ensures TextOf(DocOf(data)) == data
  {
    JoinSplit(data);
    GroupLines(Split(data));
  }

  /** The non-blank lines of other tables before the first project; None if an allow table comes first. */
  function ReadPreamble(pre: seq<string>): Option<seq<string>> {
    if pre == [] then Some([])
    else match ReadPreamble(pre[1..])
      case None => None
      case Some(rest) =>
        match Classify(pre[0])
        case AllowHeader => None
        case Blank => Some(rest)
        case _ => Some([StripCr(pre[0])] + rest)
  }

  datatype Read = Read(rest: seq<string>, projects: seq<RawProject>)

  function ReadBlock(b: Block): Option<Body> { ReadBody(b.body, EmptyBody) }

  function ReadBlocks(blocks: seq<Block>): Option<Read> {
    if blocks == [] then Some(Read([], []))
    else match ReadBlock(blocks[0])
      case None => None
      case Some(first) =>
        match ReadBlocks(blocks[1..])
        case None => None
        case Some(more) => Some(Read(first.rest + more.rest, [first.project] + more.projects))
  }

  function ReadDoc(d: Doc): Option<Read> {
    match ReadPreamble(d.pre)
    case None => None
    case Some(rest) =>
      match ReadBlocks(d.blocks)
      case None => None
      case Some(more) => Some(Read(rest + more.rest, more.projects))
  }

  // ----- The configuration of a text in canonical layout -----

  function FieldOr(fields: map<Key, string>, k: Key): string {
    if k in fields then fields[k] else ""
  }

  function ArgvOr(a: Option<seq<string>>): seq<string> {
    match a case None => [] case Some(argv) => argv
  }

  function ProjectOf(p: RawProject): Config.Project {
    Config.Project(FieldOr(p.fields, Alias), FieldOr(p.fields, ProjectId), FieldOr(p.fields, TokenEntry),
                   FieldOr(p.fields, WorkingDir), FieldOr(p.fields, Approval),
                   seq(|p.allow|, i requires 0 <= i < |p.allow| => ArgvOr(p.allow[i])))
  }

  function ProjectsOf(ps: seq<RawProject>): seq<Config.Project> {
    seq(|ps|, i requires 0 <= i < |ps| => ProjectOf(ps[i]))
  }

  predicate EndsBare(data: string) { data != "" && data[|data| - 1] == '\r' }

  /** Valid UTF-8 without control characters other than tabs and line ends, comments included. */
  predicate Clean(data: string) { ValidUtf8(data) && forall i :: 0 <= i < |data| ==> CleanChar(data[i]) }

  predicate CleanChar(c: char) { PlainToml(c) || c == '\n' || c == '\r' }

  /**
   The canonical reading of a policy text. `settingsOf` reads the lines of the tables other
   than the projects; a text that ends in a bare carriage return or is not clean is not TOML.
   */
  function CanonicalToml(settingsOf: seq<string> -> Option<Config.Settings>, data: string): Option<Config.Config> {
    if EndsBare(data) || !Clean(data) then None
    else match ReadDoc(DocOf(data))
      case None => None
      case Some(read) =>
        match settingsOf(read.rest)
        case None => None
        case Some(settings) => Some(Config.Config(settings, ProjectsOf(read.projects)))
  }
}
