/**
 From the fields of a submitted form to the policy: which forms internal/adminweb/controls.go
 lets through, when it asks for a confirmation, and what the policy is read as once the editor
 has accepted the commit.
 */
module FormLaws {
  import opened Basics
  import opened Removal
  import C = Config
  import Controls
  import E = Edits
  import M = EditorMachine
  import W = WebMachine
  import WebEdits

  // ----- What was asked for -----

  /** `rest` is the list without exactly the elements equal to x, in the same order. */
  ghost predicate OnlyWithout<T>(list: seq<T>, x: T, rest: seq<T>) {
    exists kept: seq<int> :: KeptAt(list, x, rest, kept)
  }

  predicate KeptAt<T(==)>(list: seq<T>, x: T, rest: seq<T>, kept: seq<int>) {
    && |kept| == |rest| && Increasing(kept)
    && (forall k :: 0 <= k < |kept| ==> 0 <= kept[k] < |list| && list[kept[k]] != x && rest[k] == list[kept[k]])
    && (forall k :: 0 <= k < |list| && list[k] != x ==> k in kept)
  }

  /** Project q is project p with what the form asks for. */
  ghost predicate ProjectAsAsked(kind: Controls.Kind, form: Controls.Form, p: C.Project, q: C.Project) {
    match kind
    case Create => false
    case Metadata =>
      q == p.(bwsProjectId := form.projectId, tokenEntry := form.tokenEntry, workingDir := form.workingDir)
    case Mode =>
      || (form.mode == "automatic" && q == p.(approval := "never"))
      || (form.mode == "confirm" && q == p.(approval := "allowlisted-prompt"))
    case Add => form.argv !in p.allow && q == p.(allow := p.allow + [form.argv])
    case Remove =>
      && form.entry.Some? && 0 <= form.entry.value < |p.allow|
      && q == p.(allow := q.allow) && OnlyWithout(p.allow, p.allow[form.entry.value], q.allow)
  }

  /** Policy d is policy c with what the form asks for, and nothing else different. */
  ghost predicate AsAsked(kind: Controls.Kind, form: Controls.Form, c: C.Config, d: C.Config) {
    && d.settings == c.settings
    && if kind == Controls.Create then
         && (forall k :: 0 <= k < |c.projects| ==> c.projects[k].alias != form.alias)
         && d.projects == c.projects + [C.Project(form.alias, form.projectId, form.tokenEntry, form.workingDir,
                                                  "allowlisted-prompt", [])]
       else exists i :: ChangedAt(kind, form, c, d, i)
  }

  ghost predicate ChangedAt(kind: Controls.Kind, form: Controls.Form, c: C.Config, d: C.Config, i: int) {
    && 0 <= i < |c.projects| && |d.projects| == |c.projects| && c.projects[i].alias == form.alias
    && (forall k :: 0 <= k < |c.projects| && k != i ==> d.projects[k] == c.projects[k])
    && ProjectAsAsked(kind, form, c.projects[i], d.projects[i])
  }

  // ----- Which forms are let through -----

  /** Which forms review lets through, and for which of them it demands a confirmation. */
  lemma ReviewExact(kind: Controls.Kind, form: Controls.Form, c: C.Config, offered: bool)
    ensures var known := exists i :: 0 <= i < |c.projects| && c.projects[i].alias == form.alias;
            var ids := form.clean && form.alias != "" && form.projectId != "" && form.tokenEntry != ""
                       && form.workingDir != "" && form.workingDir[0] == '/';
            Controls.ReviewPolicy(kind, form, c, offered).Some? <==>
              match kind
              case Create => !known && ids && offered
              case Metadata => known && ids
              case Mode => known && form.mode in {"confirm", "automatic"}
              case Add => known && form.clean && 1 <= |form.argv| <= 256 && form.argv[0] != ""
              case Remove =>
                known && form.entry.Some?
                && 0 <= form.entry.value < |c.projects[C.IndexOf(c.projects, form.alias)].allow|
    ensures Controls.ReviewPolicy(kind, form, c, offered).Some? && kind != Controls.Create ==>
              var p := c.projects[C.IndexOf(c.projects, form.alias)];
              Controls.ReviewPolicy(kind, form, c, offered).value.widen <==>
                match kind
                case Metadata =>
                  form.projectId != p.bwsProjectId || form.tokenEntry != p.tokenEntry || form.workingDir != p.workingDir
                case Mode => form.mode == "automatic" && p.approval != "never" && p.approval != "automatic"
                case Add => true
                case _ => false
    ensures Controls.ReviewPolicy(kind, form, c, offered).Some? && kind == Controls.Create ==>
              !Controls.ReviewPolicy(kind, form, c, offered).value.widen
  {
    Controls.ModesDiffer();
  }

  // ----- What an accepted commit does -----

  lemma {:induction false} WithoutKeeps(allow: seq<seq<string>>, argv: seq<string>) returns (kept: seq<int>)
    ensures KeptAt(allow, argv, Without(allow, argv), kept)
  {
    if allow == [] {
      kept := [];
    } else {
      var n := |allow| - 1;
      var some := WithoutKeeps(allow[..n], argv);
      kept := if allow[n] == argv then some else some + [n];
      KeptGrows(allow, argv, some, kept);
    }
  }

  lemma KeptGrows(allow: seq<seq<string>>, argv: seq<string>, some: seq<int>, kept: seq<int>)
    requires allow != [] && KeptAt(allow[..|allow| - 1], argv, Without(allow[..|allow| - 1], argv), some)
    requires kept == if allow[|allow| - 1] == argv then some else some + [|allow| - 1]
    ensures KeptAt(allow, argv, Without(allow, argv), kept)
  {
    var n := |allow| - 1;
    var front, rest := allow[..n], Without(allow[..n], argv);
    assert forall k :: 0 <= k < n ==> front[k] == allow[k];
    assert allow[n] != argv ==> Without(allow, argv) == rest + [allow[n]];
    assert allow[n] == argv ==> Without(allow, argv) == rest;
    hide Without;
    forall k | 0 <= k < |allow| && allow[k] != argv ensures k in kept {
      if k < n { assert k in some; } else { assert kept[|some|] == n; }
    }
  }

  /** The policy after an accepted update of the identifiers. */
  lemma MetadataEffect(f: C.Foreign, revision: string, alias: string, up: E.MetadataUpdate, data: string, c: C.Config,
                       u: string)
    requires E.ReadPolicy(f, revision, data) == Some(c)
    requires E.Derive(f, revision, E.UpdateMetadata(alias, up), data) == E.Replace(u)
    ensures var i := C.IndexOf(c.projects, alias);
            i < |c.projects| && E.ReadPolicy(f, "", u) == Some(E.SetProject(c, i, E.Updated(c.projects[i], up)))
  {
    hide E.ReplaceFields, C.Valid, C.Defaulted, C.WorkerConfig, E.Changes, E.Updated, E.ValidUpdate;
  }

  /**
   The update that commit sends was computed from the project it read again. It brings about the
   form's identifiers exactly if a value that looked up to date then is up to date in the policy
   that the editor reads.
   */
  predicate UpToDate(seen: C.Project, p: C.Project, form: Controls.Form) {
    && (seen.bwsProjectId == form.projectId ==> p.bwsProjectId == form.projectId)
    && (seen.tokenEntry == form.tokenEntry ==> p.tokenEntry == form.tokenEntry)
    && (seen.workingDir == form.workingDir ==>
          || p.workingDir == form.workingDir
          || (seen.bwsProjectId == form.projectId && seen.tokenEntry == form.tokenEntry))
  }

  lemma MetadataExactly(seen: C.Project, p: C.Project, form: Controls.Form)
    ensures ProjectAsAsked(Controls.Metadata, form, p,
                           E.Updated(p, Controls.MetadataChange(seen, Controls.InputOf(form))))
            <==> UpToDate(seen, p, form)
  {
  }

  /** A project that looks up to date only at the moment of the commit keeps its old identifier. */
  lemma StaleCommit()
    ensures var p := C.Project("a", "1", "t", "/", "never", []);
            var seen := p.(bwsProjectId := "2");
            var form := Controls.Form("a", "2", "s", "/", "", [], None, true);
            && !UpToDate(seen, p, form)
            && E.Updated(p, Controls.MetadataChange(seen, Controls.InputOf(form))) == p.(tokenEntry := "s")
  {
    assert "s"[0] == 's' && "t"[0] == 't' && "1"[0] == '1' && "2"[0] == '2';
  }

  lemma ReviewedProject(kind: Controls.Kind, form: Controls.Form, c: C.Config, offered: bool, change: Controls.Change)
    requires Controls.ReviewPolicy(kind, form, c, offered) == Some(change)
    ensures change.kind == kind && change.alias == form.alias
    ensures kind in {Controls.Create, Controls.Metadata} ==> change.input == Controls.InputOf(form)
    ensures var i := C.IndexOf(c.projects, form.alias);
            if kind == Controls.Create then i == |c.projects|
            else i < |c.projects|
                 && (kind != Controls.Metadata && Controls.After(change, c.projects[i]) != c.projects[i] ==>
                       ProjectAsAsked(kind, form, c.projects[i], Controls.After(change, c.projects[i])))
  {
    Controls.ModesDiffer();
    var i := C.IndexOf(c.projects, form.alias);
    if kind == Controls.Remove {
      var kept := WithoutKeeps(c.projects[i].allow, change.argv);
    }
  }

  /** An accepted commit does what the form asked for; for identifiers, exactly if they were up to date. */
  lemma AcceptedDoes(f: C.Foreign, revision: string, v: W.Review, change: Controls.Change, seen: C.Project,
                     data: string, u: string)
    requires v.policy == data && W.ChangeOf(f, v) == Some(change) && revision != ""
    requires E.Derive(f, revision, Controls.EditOf(change, seen), data) == E.Replace(u)
    ensures E.ReadPolicy(f, "", data).Some? && E.ReadPolicy(f, "", u).Some?
    ensures var c, d := E.ReadPolicy(f, "", data).value, E.ReadPolicy(f, "", u).value;
            var i := C.IndexOf(c.projects, v.form.alias);
            if v.kind == Controls.Metadata then
              i < |c.projects| && (AsAsked(v.kind, v.form, c, d) <==> UpToDate(seen, c.projects[i], v.form))
            else AsAsked(v.kind, v.form, c, d)
  {
    hide E.Derive, E.ReadPolicy, Controls.ReviewPolicy, Controls.EditOf, Controls.After, C.IndexOf, UpToDate;
    WebEdits.DerivedFrom(f, revision, Controls.EditOf(change, seen), data);
    var c := E.ReadPolicy(f, revision, data).value;
    WebEdits.ReviewedIn(f, v, c, change);
    ReviewedProject(v.kind, v.form, c, v.offered, change);
    E.ReadIsUnique(f, data, c);
    if v.kind == Controls.Metadata {
      MetadataCommit(f, revision, v, change, seen, data, c, u);
    } else {
      var i := C.IndexOf(c.projects, change.alias);
      WebEdits.SameEdit(change, seen, if i < |c.projects| then c.projects[i] else change.input);
      Controls.CommitEffect(f, revision, change, data, c, i, u);
      if v.kind != Controls.Create { ChangesSomething(f, revision, change, seen, data, c, i); }
      ResultAsAsked(f, revision, v, change, data, c, i, u);
    }
  }

  /** The editor writes only what changes the project. */
  lemma ChangesSomething(f: C.Foreign, revision: string, change: Controls.Change, seen: C.Project, data: string,
                         c: C.Config, i: nat)
    requires E.ReadPolicy(f, revision, data) == Some(c) && i == C.IndexOf(c.projects, change.alias) < |c.projects|
    requires change.kind in {Controls.Mode, Controls.Add, Controls.Remove}
    requires E.Derive(f, revision, Controls.EditOf(change, seen), data).Replace?
    ensures Controls.After(change, c.projects[i]) != c.projects[i]
  {
    hide E.ReadPolicy, E.Checked, C.IndexOf, Without, Positions;
    Controls.WithoutShrinks(c.projects[i].allow, change.argv);
  }

  /** When the editor finds nothing to do, the policy already is as the form asks. */
  lemma NothingToDo(f: C.Foreign, revision: string, v: W.Review, change: Controls.Change, seen: C.Project)
    requires W.ChangeOf(f, v) == Some(change)
    requires E.Derive(f, revision, Controls.EditOf(change, seen), v.policy) == E.Unchanged
    ensures E.ReadPolicy(f, "", v.policy).Some?
    ensures var c := E.ReadPolicy(f, "", v.policy).value;
            var i := C.IndexOf(c.projects, v.form.alias);
            && i < |c.projects|
            && var p := c.projects[i];
               match v.kind
               case Create => false
               case Metadata =>
                 UpToDate(seen, p, v.form) ==>
                   p.bwsProjectId == v.form.projectId && p.tokenEntry == v.form.tokenEntry
                   && p.workingDir == v.form.workingDir
               case Mode =>
                 || (v.form.mode == "automatic" && p.approval == "never")
                 || (v.form.mode == "confirm" && p.approval == "allowlisted-prompt")
               case Add => v.form.argv in p.allow
               case Remove => false
  {
    hide E.Derive, E.ReadPolicy, Controls.ReviewPolicy, Controls.EditOf, C.IndexOf, UpToDate;
    UnchangedReads(f, revision, Controls.EditOf(change, seen), v.policy);
    var c := E.ReadPolicy(f, "", v.policy).value;
    WebEdits.ReviewedIn(f, v, c, change);
    ReviewedFields(v.kind, v.form, c, v.offered, change);
    UnchangedIs(f, revision, change, seen, v.policy, c);
    var i := C.IndexOf(c.projects, v.form.alias);
    if v.kind == Controls.Metadata && UpToDate(seen, c.projects[i], v.form) {
      SameIdentifiers(c.projects[i], seen, v.form);
    }
  }

  lemma UnchangedReads(f: C.Foreign, revision: string, e: E.Edit, data: string)
    requires E.Derive(f, revision, e, data) == E.Unchanged
    ensures E.ReadPolicy(f, revision, data).Some? && E.ReadPolicy(f, "", data) == E.ReadPolicy(f, revision, data)
  {
    hide E.Apply, C.Parse, C.WorkerConfig;
  }

  /** When the editor answers that there is nothing to do. */
  lemma UnchangedIs(f: C.Foreign, revision: string, change: Controls.Change, seen: C.Project, data: string, c: C.Config)
    requires E.ReadPolicy(f, revision, data) == Some(c)
    requires E.Derive(f, revision, Controls.EditOf(change, seen), data) == E.Unchanged
    ensures var i := C.IndexOf(c.projects, change.alias);
            change.kind != Controls.Create && i < |c.projects|
            && match change.kind
               case Create => false
               case Metadata => E.Changes(c.projects[i], Controls.MetadataChange(seen, change.input)) == []
               case Mode => E.StoredApproval(change.mode) == Some(c.projects[i].approval)
               case Add => change.argv in c.projects[i].allow
               case Remove => change.argv !in c.projects[i].allow
  {
    hide E.ReadPolicy, E.Checked, C.IndexOf, Positions, Without, E.Changes, Controls.MetadataChange, E.ValidUpdate;
    Unchecked();
  }

  lemma Unchecked()
    ensures forall f, u, expected :: E.Checked(f, u, expected) != E.Unchanged
  {
  }

  /** What a reviewed change takes from the form. */
  lemma ReviewedFields(kind: Controls.Kind, form: Controls.Form, c: C.Config, offered: bool, change: Controls.Change)
    requires Controls.ReviewPolicy(kind, form, c, offered) == Some(change)
    ensures change.kind == kind && change.alias == form.alias
    ensures kind == Controls.Metadata ==> change.input == Controls.InputOf(form)
    ensures kind == Controls.Mode ==>
              (form.mode == "automatic" && E.StoredApproval(change.mode) == Some("never"))
              || (form.mode == "confirm" && E.StoredApproval(change.mode) == Some("allowlisted-prompt"))
    ensures kind == Controls.Add ==> change.argv == form.argv
    ensures var i := C.IndexOf(c.projects, form.alias);
            kind == Controls.Remove && i < |c.projects| ==> change.argv in c.projects[i].allow
  {
    Controls.ModesDiffer();
    hide C.IndexOf;
  }

  lemma SameIdentifiers(p: C.Project, seen: C.Project, form: Controls.Form)
    requires E.Changes(p, Controls.MetadataChange(seen, Controls.InputOf(form))) == [] && UpToDate(seen, p, form)
    ensures p.bwsProjectId == form.projectId && p.tokenEntry == form.tokenEntry && p.workingDir == form.workingDir
  {
  }

  lemma MetadataCommit(f: C.Foreign, revision: string, v: W.Review, change: Controls.Change, seen: C.Project,
                       data: string, c: C.Config, u: string)
    requires E.ReadPolicy(f, revision, data) == Some(c) && C.UniqueAliases(c.projects)
    requires change.kind == v.kind == Controls.Metadata && change.alias == v.form.alias
    requires change.input == Controls.InputOf(v.form)
    requires E.Derive(f, revision, Controls.EditOf(change, seen), data) == E.Replace(u)
    ensures E.ReadPolicy(f, "", u).Some?
    ensures var i := C.IndexOf(c.projects, v.form.alias);
            i < |c.projects|
            && (AsAsked(v.kind, v.form, c, E.ReadPolicy(f, "", u).value) <==> UpToDate(seen, c.projects[i], v.form))
  {
    hide E.Derive, E.ReadPolicy, UpToDate, E.Updated, Controls.MetadataChange, C.IndexOf;
    var up := Controls.MetadataChange(seen, change.input);
    MetadataEffect(f, revision, change.alias, up, data, c, u);
    var i := C.IndexOf(c.projects, change.alias);
    MetadataExactly(seen, c.projects[i], v.form);
    SetAsAsked(v.kind, v.form, c, i, E.Updated(c.projects[i], up));
  }

  /** Replacing one project is what the form asks for exactly if that project is as asked. */
  lemma SetAsAsked(kind: Controls.Kind, form: Controls.Form, c: C.Config, i: nat, q: C.Project)
    requires kind != Controls.Create && i < |c.projects| && c.projects[i].alias == form.alias
    requires C.UniqueAliases(c.projects)
    ensures AsAsked(kind, form, c, E.SetProject(c, i, q)) <==> ProjectAsAsked(kind, form, c.projects[i], q)
  {
    hide ProjectAsAsked;
    var d := E.SetProject(c, i, q);
    if k :| ChangedAt(kind, form, c, d, k) {
      assert k == i;
    }
    if ProjectAsAsked(kind, form, c.projects[i], q) { assert ChangedAt(kind, form, c, d, i); }
  }

  lemma ResultAsAsked(f: C.Foreign, revision: string, v: W.Review, change: Controls.Change, data: string, c: C.Config,
                      i: nat, u: string)
    requires E.ReadPolicy(f, revision, data) == Some(c) && C.UniqueAliases(c.projects)
    requires change.kind == v.kind != Controls.Metadata && change.alias == v.form.alias
    requires v.kind == Controls.Create ==> change.input == Controls.InputOf(v.form)
    requires i == C.IndexOf(c.projects, change.alias)
    requires if v.kind == Controls.Create then i == |c.projects|
             else i < |c.projects|
                  && (Controls.After(change, c.projects[i]) != c.projects[i] ==>
                        ProjectAsAsked(v.kind, v.form, c.projects[i], Controls.After(change, c.projects[i])))
    requires v.kind != Controls.Create ==> Controls.After(change, c.projects[i]) != c.projects[i]
    ensures AsAsked(v.kind, v.form, c, Controls.Result(c, i, change))
  {
    hide E.ReadPolicy, ProjectAsAsked;
    if v.kind != Controls.Create { SetAsAsked(v.kind, v.form, c, i, Controls.After(change, c.projects[i])); }
  }

  // ----- Over runs -----

  /**
   A run of the web server and a run of the editors: if version k + 1 was made by the edit of a
   logged call under its revision, and no reviewed policy collides with version k, then version
   k + 1 is version k with exactly what the form of the call's review asked for. For identifiers
   this holds if and only if what commit read again was up to date.
   */
  lemma CommitDoesAsAsked(env: M.Env, es: M.State, steps: seq<M.Action>, k: nat, s: W.State, actions: seq<W.Action>,
                          j: nat) returns (i: nat)
    requires M.Initial(env, es) && M.Run(env, es, steps).Some? && k < |M.Run(env, es, steps).value.origins|
    requires k < |M.Run(env, es, steps).value.files| && WebEdits.CallAt(env.f, s, actions, j)
    requires WebEdits.NoReviewCollides(env.f, W.Run(env.f, s, actions).value.log,
                                       M.Run(env, es, steps).value.files[k].bytes)
    requires var call, o := W.Run(env.f, s, actions).value.log[j], M.Run(env, es, steps).value.origins[k];
             o.edit == WebEdits.EditOf(env.f, call) && o.revision == call.revision
    ensures var log, t := W.Run(env.f, s, actions).value.log, M.Run(env, es, steps).value;
            && i < j && log[i].Reviewed? && log[i].token == log[j].token && k + 1 < |t.files|
            && E.ReadPolicy(env.f, "", t.files[k].bytes).Some? && E.ReadPolicy(env.f, "", t.files[k + 1].bytes).Some?
            && var c, d := E.ReadPolicy(env.f, "", t.files[k].bytes).value,
                           E.ReadPolicy(env.f, "", t.files[k + 1].bytes).value;
               var v := log[i].review;
               var x := C.IndexOf(c.projects, v.form.alias);
               if v.kind == Controls.Metadata then
                 x < |c.projects|
                 && (AsAsked(v.kind, v.form, c, d)
                     <==> UpToDate(W.CurrentIn(env.f, log[j].seen, log[j].change), c.projects[x], v.form))
               else AsAsked(v.kind, v.form, c, d)
  {
    hide W.Run, M.Run, E.Derive, W.ChangeOf, W.Initial, M.Initial, E.ReadPolicy, AsAsked, UpToDate, W.CurrentIn,
         C.IndexOf, WebEdits.NoReviewCollides;
    M.OneChain(env, es, steps, k);
    var log, t := W.Run(env.f, s, actions).value.log, M.Run(env, es, steps).value;
    i := WebEdits.CallOnReviewed(env.f, s, actions, j, t.files[k].bytes);
    AcceptedDoes(env.f, log[j].revision, log[i].review, log[j].change,
                 W.CurrentIn(env.f, log[j].seen, log[j].change), t.files[k].bytes, t.files[k + 1].bytes);
  }
}
