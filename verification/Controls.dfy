/**
 What a reviewed change is, internal/adminweb/controls.go: how `review` builds it from a form
 and the current project, when it asks for a confirmation, and which edit `commit` makes of it.
 */
module Controls {
  import opened Basics
  import B = Broker
  import C = Config
  import E = Edits
  import opened Removal
  import opened Splice

  datatype Kind = Create | Metadata | Mode | Add | Remove

  /** policyChange. */
  datatype Change = Change(
    kind: Kind, alias: string, input: C.Project, mode: string, argv: seq<string>, widen: bool)

  /** The fields of a submitted form that review looks at; `clean` if all are printable and within their limits. */
  datatype Form = Form(alias: string, projectId: string, tokenEntry: string, workingDir: string, mode: string,
                       argv: seq<string>, entry: Option<int>, clean: bool)

  function DisplayMode(approval: string): string {
    if approval == C.ApprovalNever then E.ModeAutomatic
    else if approval == C.ApprovalAllowlistedPrompt then E.ModeConfirm
    else if approval == C.ApprovalPrompt then "prompt-unlisted"
    else if approval == C.ApprovalAlways then "prompt-any"
    else approval
  }

  function InputOf(form: Form): C.Project {
    C.Project(form.alias, form.projectId, form.tokenEntry, form.workingDir, "", [])
  }

  const NoInput := C.Project("", "", "", "", "", [])

  /** review: the change a form asks for, given the current project; None for a form it rejects. */
  function Review(kind: Kind, form: Form, current: C.Project, offered: bool): Option<Change> {
    match kind
    case Create =>
      if form.clean && E.ValidInput(InputOf(form)) && offered
      then Some(Change(kind, form.alias, InputOf(form), "", [], false)) else None
    case Metadata =>
      if !form.clean || !E.ValidInput(InputOf(form)) then None
      else
        var widen := form.projectId != current.bwsProjectId || form.tokenEntry != current.tokenEntry
                     || form.workingDir != current.workingDir;
        Some(Change(kind, form.alias, InputOf(form), "", [], widen))
    case Mode =>
      if form.mode != E.ModeConfirm && form.mode != E.ModeAutomatic then None
      else
        var widen := form.mode == E.ModeAutomatic && DisplayMode(current.approval) != E.ModeAutomatic;
        Some(Change(kind, form.alias, NoInput, form.mode, [], widen))
    case Add =>
      if form.argv == [] || |form.argv| > 256 || form.argv[0] == "" || !form.clean then None
      else Some(Change(kind, form.alias, NoInput, "", form.argv, true))
    case Remove =>
      if form.entry.None? || form.entry.value < 0 || form.entry.value >= |current.allow| then None
      else Some(Change(kind, form.alias, NoInput, "", current.allow[form.entry.value], false))
  }

  /** metadataChange: only the fields that differ, or the working directory if none does. */
  function MetadataChange(current: C.Project, input: C.Project): E.MetadataUpdate {
    var u := E.MetadataUpdate(
               if input.bwsProjectId != current.bwsProjectId then Some(input.bwsProjectId) else None,
               if input.tokenEntry != current.tokenEntry then Some(input.tokenEntry) else None,
               if input.workingDir != current.workingDir then Some(input.workingDir) else None);
    if u.projectId.None? && u.tokenEntry.None? && u.workingDir.None? then u.(workingDir := Some(input.workingDir))
    else u
  }

  /** The edit commit asks the editor for. */
  function EditOf(change: Change, current: C.Project): E.Edit {
    match change.kind
    case Create => E.CreateProject(change.input)
    case Metadata => E.UpdateMetadata(change.alias, MetadataChange(current, change.input))
    case Mode => E.SetApproval(change.alias, change.mode)
    case Add => E.AddAllow(change.alias, change.argv)
    case Remove => E.RemoveArgv(change.alias, change.argv)
  }

  /** The partial update is always accepted as input, and applied it gives exactly the reviewed fields. */
  lemma MetadataChangeExact(current: C.Project, input: C.Project)
    requires E.ValidInput(input)
    ensures E.ValidUpdate(MetadataChange(current, input))
    ensures E.Updated(current, MetadataChange(current, input))
            == current.(bwsProjectId := input.bwsProjectId, tokenEntry := input.tokenEntry,
                        workingDir := input.workingDir)
    ensures E.Changes(current, MetadataChange(current, input)) == []
            <==> current.bwsProjectId == input.bwsProjectId && current.tokenEntry == input.tokenEntry
                 && current.workingDir == input.workingDir
  {
  }

  // ----- Only widening changes need a confirmation -----

  /** How much a verdict lets through. */
  function Rank(v: B.Verdict): nat { match v case Deny => 0 case Ask => 1 case Allow => 2 }

  /** The project after the edit. */
  function After(change: Change, p: C.Project): C.Project {
    match change.kind
    case Create => E.NewProject(change.input)
    case Metadata => E.Updated(p, MetadataChange(p, change.input))
    case Mode => (match E.StoredApproval(change.mode) case None => p case Some(a) => p.(approval := a))
    case Add => if change.argv in p.allow then p else p.(allow := p.allow + [change.argv])
    case Remove => p.(allow := Without(p.allow, change.argv))
  }

  lemma {:induction false} WithoutShrinks(allow: seq<seq<string>>, argv: seq<string>)
    ensures forall x :: x in Without(allow, argv) <==> x in allow && x != argv
  {
    if allow != [] {
      WithoutShrinks(allow[..|allow| - 1], argv);
      assert allow == allow[..|allow| - 1] + [allow[|allow| - 1]];
    }
  }

  /**
   A change that review lets through without confirmation, applied to the project it was
   reviewed against, makes no command easier to run: the verdict of every argv stays or gets
   stricter, and the identifiers the command would run with stay the same.
   */
  lemma UnconfirmedNarrows(kind: Kind, form: Form, p: C.Project, offered: bool, argv: seq<string>)
    requires C.ValidProject(p) && Review(kind, form, p, offered).Some? && !Review(kind, form, p, offered).value.widen
    ensures var q := After(Review(kind, form, p, offered).value, p);
            if kind == Create then B.Decide(q, argv) == B.Deny
            else Rank(B.Decide(q, argv)) <= Rank(B.Decide(p, argv))
                 && q.alias == p.alias && q.bwsProjectId == p.bwsProjectId && q.tokenEntry == p.tokenEntry
                 && q.workingDir == p.workingDir
  {
    WithoutShrinks(p.allow, Review(kind, form, p, offered).value.argv);
    B.Matrix(p, argv);
    ModesDiffer();
    hide Without;
  }

  lemma ModesDiffer()
    ensures E.ModeAutomatic != E.ModeConfirm && E.ModeAutomatic != "prompt-unlisted" && E.ModeAutomatic != "prompt-any"
    ensures C.ApprovalNever != C.ApprovalAllowlistedPrompt && C.ApprovalAllowlistedPrompt != C.ApprovalPrompt
    ensures C.ApprovalAllowlistedPrompt != C.ApprovalAlways
    ensures C.ApprovalNever != C.ApprovalAlways && C.ApprovalNever != C.ApprovalPrompt
  {
    assert E.ModeAutomatic[0] == 'a' && E.ModeConfirm[0] == 'c';
    assert "prompt-unlisted"[0] == 'p' && "prompt-any"[0] == 'p';
    B.Modes();
  }

  /** The projects after the edit, and nothing else different. */
  function Result(c: C.Config, i: nat, change: Change): C.Config
    requires change.kind == Create || i < |c.projects|
  {
    if change.kind == Create then E.AddProject(c, After(change, change.input))
    else E.SetProject(c, i, After(change, c.projects[i]))
  }

  /** When the editor accepts the edit of a commit, the new policy is the old one with exactly that project changed. */
  lemma CommitEffect(f: C.Foreign, revision: string, change: Change, data: string, c: C.Config, i: nat, u: string)
    requires E.ReadPolicy(f, revision, data) == Some(c) && i == C.IndexOf(c.projects, change.alias)
    requires change.kind == Create || i < |c.projects|
    requires E.Derive(f, revision, EditOf(change, if i < |c.projects| then c.projects[i] else change.input), data)
             == E.Replace(u)
    ensures E.ReadPolicy(f, "", u) == Some(Result(c, i, change))
  {
    hide E.ReplaceFields, RemoveAllow, InsertAllow, ReplaceApproval, AppendProject, C.Valid, C.Defaulted,
         C.WorkerConfig, Without, Positions, MetadataChange;
  }

  /** The verdict of the broker for a project and an argv under a policy. */
  function VerdictIn(c: C.Config, alias: string, argv: seq<string>): B.Verdict {
    var i := C.IndexOf(c.projects, alias);
    if i == |c.projects| then B.Deny else B.Decide(c.projects[i], argv)
  }

  lemma AliasesStay(c: C.Config, i: nat, p: C.Project, alias: string)
    requires i < |c.projects| && p.alias == c.projects[i].alias
    ensures C.IndexOf(E.SetProject(c, i, p).projects, alias) == C.IndexOf(c.projects, alias)
  {
    hide C.IndexOf;
    assert forall k :: 0 <= k < |c.projects| ==> E.SetProject(c, i, p).projects[k].alias == c.projects[k].alias;
  }

  lemma IndexAfterAdd(c: C.Config, p: C.Project, alias: string)
    ensures var a, b := C.IndexOf(c.projects, alias), C.IndexOf(E.AddProject(c, p).projects, alias);
            if a < |c.projects| then b == a else b >= a
  {
    hide C.IndexOf;
    assert forall k :: 0 <= k < |c.projects| ==> E.AddProject(c, p).projects[k] == c.projects[k];
  }

  /** review with the policy it reads: the alias has to be new for a creation and known otherwise. */
  function ReviewPolicy(kind: Kind, form: Form, c: C.Config, offered: bool): Option<Change> {
    var i := C.IndexOf(c.projects, form.alias);
    if kind == Create then (if i < |c.projects| then None else Review(kind, form, NoInput, offered))
    else if i < |c.projects| then Review(kind, form, c.projects[i], offered)
    else None
  }

  lemma ReviewNames(kind: Kind, form: Form, c: C.Config, offered: bool)
    requires ReviewPolicy(kind, form, c, offered).Some?
    ensures var change := ReviewPolicy(kind, form, c, offered).value;
            && change.kind == kind && change.alias == form.alias
            && (kind == Create || C.IndexOf(c.projects, form.alias) < |c.projects|)
  {
  }

  /**
   Under the policy a change was reviewed against, a change that needs no confirmation makes no
   command of any project easier to run.
   */
  lemma UnconfirmedCommitNarrows(f: C.Foreign, c: C.Config, kind: Kind, form: Form, offered: bool, alias: string,
                                 argv: seq<string>)
    requires C.Valid(f, c)
    requires ReviewPolicy(kind, form, c, offered).Some? && !ReviewPolicy(kind, form, c, offered).value.widen
    ensures var i := C.IndexOf(c.projects, form.alias);
            var change := ReviewPolicy(kind, form, c, offered).value;
            && (change.kind == Create || i < |c.projects|)
            && Rank(VerdictIn(Result(c, i, change), alias, argv)) <= Rank(VerdictIn(c, alias, argv))
  {
    hide B.Decide, C.IndexOf, C.ValidSettings;
    var i := C.IndexOf(c.projects, form.alias);
    var change := ReviewPolicy(kind, form, c, offered).value;
    if kind == Create {
      NewDenies(change, argv);
      IndexAfterAdd(c, After(change, change.input), alias);
    } else {
      var p := c.projects[i];
      UnconfirmedNarrows(kind, form, p, offered, argv);
      AliasesStay(c, i, After(change, p), alias);
    }
  }

  /** A new project runs nothing: it is in confirm mode and has no commands. */
  lemma NewDenies(change: Change, argv: seq<string>)
    ensures B.Decide(E.NewProject(change.input), argv) == B.Deny
  {
    ModesDiffer();
  }

  /**
   A reviewed change of the identifiers that changes nothing leaves nothing to do, whichever
   fields the commit then sends: every value it can send is the current one.
   */
  lemma SameFieldsUnchanged(p: C.Project, seen: C.Project, input: C.Project)
    requires p.bwsProjectId == input.bwsProjectId
    requires p.tokenEntry == input.tokenEntry && p.workingDir == input.workingDir
    ensures E.Changes(p, MetadataChange(seen, input)) == []
  {
  }
}
