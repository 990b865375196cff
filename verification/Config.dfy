/**
 The policy configuration of internal/config/config.go: defaults, validation, and lookup.

 The TOML library and the URL parser are foreign code. They enter as functions in
 `Foreign`, together with the SHA-256 digest, so that every result holds whatever they
 compute, as long as they are functions.
 */
module Config {
  import opened Basics

  const ApprovalAlways := "always"
  const ApprovalPrompt := "prompt"
  const ApprovalAllowlistedPrompt := "allowlisted-prompt"
  const ApprovalNever := "never"

  const BackendSecretService := "secret-service"
  const BackendEnv := "env"
  const BackendFile := "file"

  const BackendKDialog := "kdialog"
  const BackendRelay := "tailscale-relay"

  const DefaultPollSeconds := 2
  const DefaultTimeoutSeconds := 300

  datatype Runtime = Runtime(bwsBinary: string, commandPath: string, home: string)
  datatype TokenSource = TokenSource(backend: string, envVar: string, filePath: string)
  datatype ApprovalSource = ApprovalSource(backend: string, controlUrl: string, pollSeconds: int, timeoutSeconds: int)
  datatype Settings = Settings(runtime: Runtime, tokenSource: TokenSource, approvalSource: ApprovalSource)

  datatype Project = Project(
    alias: string, bwsProjectId: string, tokenEntry: string, workingDir: string,
    approval: string, allow: seq<seq<string>>)

  datatype Config = Config(settings: Settings, projects: seq<Project>)

  /** Code the repository calls but does not contain. */
  datatype Foreign = Foreign(
    toml: string -> Option<Config>,
    httpOrigin: string -> bool,
    digest: string -> string)

  // ----- Defaults -----

  function DefaultedProject(p: Project): Project {
    if p.approval == "" then p.(approval := ApprovalNever) else p
  }

  function DefaultedSource(a: ApprovalSource): ApprovalSource {
    var backend := if a.backend == "" then BackendKDialog else a.backend;
    if backend == BackendRelay then
      ApprovalSource(backend, a.controlUrl,
                     if a.pollSeconds == 0 then DefaultPollSeconds else a.pollSeconds,
                     if a.timeoutSeconds == 0 then DefaultTimeoutSeconds else a.timeoutSeconds)
    else a.(backend := backend)
  }

  function Defaulted(c: Config): Config {
    Config(c.settings.(approvalSource := DefaultedSource(c.settings.approvalSource)),
           seq(|c.projects|, i requires 0 <= i < |c.projects| => DefaultedProject(c.projects[i])))
  }

  /** applyDefaults: fills the approval modes in a loop, then the approval source. */
  method ApplyDefaults(c: Config) returns (d: Config)
    ensures d == Defaulted(c)
    ensures |d.projects| == |c.projects| && forall i :: 0 <= i < |d.projects| ==>
              var p := c.projects[i];
              d.projects[i] == if p.approval == "" then p.(approval := "never") else p
    ensures var a, b := c.settings.approvalSource, d.settings.approvalSource;
            && b.backend == (if a.backend == "" then "kdialog" else a.backend)
            && b.pollSeconds == (if a.backend == "tailscale-relay" && a.pollSeconds == 0 then 2 else a.pollSeconds)
            && b.timeoutSeconds
               == if a.backend == "tailscale-relay" && a.timeoutSeconds == 0 then 300 else a.timeoutSeconds
  {
    var projects := c.projects;
    for i := 0 to |projects|
      invariant |projects| == |c.projects|
      invariant forall k :: 0 <= k < i ==> projects[k] == DefaultedProject(c.projects[k])
      invariant forall k :: i <= k < |projects| ==> projects[k] == c.projects[k]
    {
      if projects[i].approval == "" {
        projects := projects[i := projects[i].(approval := ApprovalNever)];
      }
    }
    assert projects == Defaulted(c).projects;
    var source := c.settings.approvalSource;
    if source.backend == "" {
      source := source.(backend := BackendKDialog);
    }
    if source.backend == BackendRelay {
      if source.pollSeconds == 0 {
        source := source.(pollSeconds := DefaultPollSeconds);
      }
      if source.timeoutSeconds == 0 {
        source := source.(timeoutSeconds := DefaultTimeoutSeconds);
      }
    }
    d := Config(c.settings.(approvalSource := source), projects);
  }

  // ----- Validation -----

  predicate ValidTokenSource(t: TokenSource) {
    || t.backend == BackendSecretService
    || (t.backend == BackendEnv && t.envVar != "")
    || (t.backend == BackendFile && t.filePath != "")
  }

  predicate ValidApprovalSource(f: Foreign, a: ApprovalSource) {
    || a.backend == BackendKDialog
    || (a.backend == BackendRelay && a.controlUrl != "" && f.httpOrigin(a.controlUrl)
        && 0 < a.pollSeconds < a.timeoutSeconds)
  }

  predicate ValidProject(p: Project) {
    && p.alias != "" && p.bwsProjectId != "" && p.tokenEntry != ""
    && p.approval in {ApprovalAlways, ApprovalPrompt, ApprovalAllowlistedPrompt, ApprovalNever}
    && forall k :: 0 <= k < |p.allow| ==> p.allow[k] != []
  }

  predicate UniqueAliases(projects: seq<Project>) {
    forall i, j :: 0 <= i < j < |projects| ==> projects[i].alias != projects[j].alias
  }

  predicate ValidProjects(projects: seq<Project>) {
    && projects != []
    && UniqueAliases(projects)
    && forall i :: 0 <= i < |projects| ==> ValidProject(projects[i])
  }

  predicate ValidSettings(f: Foreign, s: Settings) {
    ValidTokenSource(s.tokenSource) && ValidApprovalSource(f, s.approvalSource)
  }

  predicate Valid(f: Foreign, c: Config) {
    ValidSettings(f, c.settings) && ValidProjects(c.projects)
  }

  /** validate: the switch on backends, then one pass over the projects with a `seen` set. */
  method Validate(f: Foreign, c: Config) returns (ok: bool)
    ensures ok <==> Valid(f, c)
  {
    var t := c.settings.tokenSource;
    if t.backend == BackendSecretService {
    } else if t.backend == BackendEnv {
      if t.envVar == "" { return false; }
    } else if t.backend == BackendFile {
      if t.filePath == "" { return false; }
    } else {
      return false;
    }
    var a := c.settings.approvalSource;
    if a.backend == BackendKDialog {
    } else if a.backend == BackendRelay {
      if a.controlUrl == "" || !f.httpOrigin(a.controlUrl) || a.pollSeconds <= 0
         || a.timeoutSeconds <= 0 || a.pollSeconds >= a.timeoutSeconds {
        return false;
      }
    } else {
      return false;
    }
    if |c.projects| == 0 { return false; }
    ok := ValidateProjects(c.projects);
  }

  method ValidateProjects(projects: seq<Project>) returns (ok: bool)
    requires projects != []
    ensures ok <==> ValidProjects(projects)
  {
    var seen: set<string> := {};
    for i := 0 to |projects|
      invariant forall k :: 0 <= k < i ==> projects[k].alias in seen && ValidProject(projects[k])
      invariant forall alias :: alias in seen ==> exists k :: 0 <= k < i && projects[k].alias == alias
      invariant UniqueAliases(projects[..i])
    {
      var p := projects[i];
      if p.alias == "" { return false; }
      if p.alias in seen { return false; }
      seen := seen + {p.alias};
      if p.bwsProjectId == "" || p.tokenEntry == "" { return false; }
      if p.approval !in {ApprovalAlways, ApprovalPrompt, ApprovalAllowlistedPrompt, ApprovalNever} { return false; }
      for k := 0 to |p.allow|
        invariant forall m :: 0 <= m < k ==> p.allow[m] != []
      {
        if p.allow[k] == [] { return false; }
      }
      assert projects[..i + 1] == projects[..i] + [p];
    }
    assert projects[..|projects|] == projects;
    ok := true;
  }

  predicate IsAbs(path: string) { path != "" && path[0] == '/' }

  /** strings.Split on the path list separator. */
  function SplitPathList(s: string): (dirs: seq<string>)
    ensures |dirs| >= 1
  {
    if s == "" then [""]
    else
      var rest := SplitPathList(s[1..]);
      if s[0] == ':' then [""] + rest else [[s[0]] + rest[0]] + rest[1..]
  }

  function JoinPathList(dirs: seq<string>): string
    requires dirs != []
  {
    if |dirs| == 1 then dirs[0] else dirs[0] + ":" + JoinPathList(dirs[1..])
  }

  /** The split loses nothing and leaves no separator. */
  lemma {:induction false} PathListSplit(s: string)
    ensures JoinPathList(SplitPathList(s)) == s
    ensures forall i :: 0 <= i < |SplitPathList(s)| ==> ':' !in SplitPathList(s)[i]
  {
    if s != "" {
      PathListSplit(s[1..]);
      var rest, dirs := SplitPathList(s[1..]), SplitPathList(s);
      if s[0] == ':' {
        assert dirs[1..] == rest;
      } else {
        assert dirs[1..] == rest[1..];
        assert s == [s[0]] + s[1..];
      }
    }
  }

  predicate WorkerSettings(s: Settings) {
    && s.tokenSource.backend == BackendFile && IsAbs(s.tokenSource.filePath)
    && s.approvalSource.backend == BackendRelay
    && IsAbs(s.runtime.bwsBinary) && IsAbs(s.runtime.home) && s.runtime.commandPath != ""
    && forall i :: 0 <= i < |SplitPathList(s.runtime.commandPath)| ==> IsAbs(SplitPathList(s.runtime.commandPath)[i])
  }

  predicate WorkerConfig(c: Config) {
    WorkerSettings(c.settings) && forall i :: 0 <= i < |c.projects| ==> IsAbs(c.projects[i].workingDir)
  }

  /** ValidateWorker: the settings, every command path entry, every project's directory. */
  method ValidateWorker(c: Config) returns (ok: bool)
    ensures ok <==> WorkerConfig(c)
  {
    var s := c.settings;
    if s.tokenSource.backend != BackendFile || !IsAbs(s.tokenSource.filePath) { return false; }
    if s.approvalSource.backend != BackendRelay { return false; }
    if !IsAbs(s.runtime.bwsBinary) || !IsAbs(s.runtime.home) || s.runtime.commandPath == "" { return false; }
    var dirs := SplitPathList(s.runtime.commandPath);
    for i := 0 to |dirs|
      invariant forall k :: 0 <= k < i ==> IsAbs(dirs[k])
    {
      if !IsAbs(dirs[i]) { return false; }
    }
    for i := 0 to |c.projects|
      invariant forall k :: 0 <= k < i ==> IsAbs(c.projects[k].workingDir)
    {
      if !IsAbs(c.projects[i].workingDir) { return false; }
    }
    ok := true;
  }

  /** config.Parse: TOML, defaults, validation. */
  function Parse(f: Foreign, data: string): Option<Config> {
    match f.toml(data)
    case None => None
    case Some(raw) => if Valid(f, Defaulted(raw)) then Some(Defaulted(raw)) else None
  }

  // ----- Lookup -----

  /** The index of the project with this alias, or |projects|. */
  function IndexOf(projects: seq<Project>, alias: string): (i: nat)
    ensures i <= |projects|
    ensures i < |projects| ==> projects[i].alias == alias
    ensures forall k :: 0 <= k < i ==> projects[k].alias != alias
  {
    if projects == [] || projects[0].alias == alias then 0
    else
      var i := IndexOf(projects[1..], alias);
      assert forall k :: 1 <= k < i + 1 ==> projects[k].alias == projects[1..][k - 1].alias;
      i + 1
  }

  /** Config.Project: a linear search. With unique aliases it finds the only such project. */
  method LookupProject(c: Config, alias: string) returns (found: Option<Project>)
    ensures found.Some? <==> exists i :: 0 <= i < |c.projects| && c.projects[i].alias == alias
    ensures found.Some? ==>
              IndexOf(c.projects, alias) < |c.projects| && found.value == c.projects[IndexOf(c.projects, alias)]
    ensures UniqueAliases(c.projects) ==>
              forall i :: 0 <= i < |c.projects| && c.projects[i].alias == alias ==> found == Some(c.projects[i])
  {
    for i := 0 to |c.projects|
      invariant forall k :: 0 <= k < i ==> c.projects[k].alias != alias
    {
      if c.projects[i].alias == alias {
        assert IndexOf(c.projects, alias) == i;
        return Some(c.projects[i]);
      }
    }
    found := None;
  }

  // ----- internal/policy: exact allowlist matching -----

  /** argvEqual: same length, same elements. */
  method ArgvEqual(a: seq<string>, b: seq<string>) returns (equal: bool)
    ensures equal <==> a == b
  {
    if |a| != |b| { return false; }
    for i := 0 to |a|
      invariant a[..i] == b[..i]
    {
      if a[i] != b[i] { return false; }
      assert a[..i + 1] == a[..i] + [a[i]] && b[..i + 1] == b[..i] + [b[i]];
    }
    assert a[..|a|] == a && b[..|b|] == b;
    equal := true;
  }

  /** Match: exactly one of the entries, never a prefix of one. */
  method Match(allow: seq<seq<string>>, argv: seq<string>) returns (matched: bool)
    ensures matched <==> argv in allow
  {
    for i := 0 to |allow|
      invariant argv !in allow[..i]
    {
      var equal := ArgvEqual(allow[i], argv);
      if equal { return true; }
    }
    matched := false;
  }
}
