/**
 From a form in the browser to the bytes at the policy path: the runs of the web server, the
 reviewed changes and the runs of the editors put together.
 */
module WebEdits {
  import opened Basics
  import C = Config
  import Controls
  import E = Edits
  import M = EditorMachine
  import W = WebMachine

  /** A logged editor call. */
  ghost predicate CallAt(f: C.Foreign, s: W.State, actions: seq<W.Action>, j: nat) {
    && W.Initial(s) && W.Revisions(f) && W.Run(f, s, actions).Some?
    && j < |W.Run(f, s, actions).value.log| && W.Run(f, s, actions).value.log[j].Called?
  }

  /** No reviewed policy of the log collides with these bytes. */
  predicate NoReviewCollides(f: C.Foreign, log: seq<W.Entry>, data: string) {
    forall i :: 0 <= i < |log| && log[i].Reviewed? ==> M.NoCollision(f, log[i].review.policy, data)
  }

  function EditOf(f: C.Foreign, call: W.Entry): E.Edit
    requires call.Called?
  {
    W.EditOf(f, call.change, call.seen)
  }

  lemma DerivedFrom(f: C.Foreign, revision: string, e: E.Edit, data: string)
    requires E.Derive(f, revision, e, data).Replace? && revision != ""
    ensures f.digest(data) == revision && E.ReadPolicy(f, revision, data).Some?
    ensures E.ReadPolicy(f, "", data) == E.ReadPolicy(f, revision, data)
  {
    hide E.Apply, C.Parse, C.WorkerConfig;
  }

  /** The bytes that the editor derives from are the ones that were reviewed, unless the two collide. */
  lemma CallOnReviewed(f: C.Foreign, s: W.State, actions: seq<W.Action>, j: nat, data: string) returns (i: nat)
    requires CallAt(f, s, actions, j) && NoReviewCollides(f, W.Run(f, s, actions).value.log, data)
    requires var call := W.Run(f, s, actions).value.log[j];
             E.Derive(f, call.revision, EditOf(f, call), data).Replace?
    ensures var log := W.Run(f, s, actions).value.log;
            var call := log[j];
            && i < j && log[i].Reviewed? && log[i].token == call.token
            && log[i].review.policy == data && W.ChangeOf(f, log[i].review) == Some(call.change)
            && call.revision == f.digest(data) && call.revision != ""
            && (call.change.widen ==> call.confirmed)
  {
    hide W.Run, E.Derive, W.ChangeOf, W.Initial;
    i := W.CommitsReviewed(f, s, actions, j);
    var log := W.Run(f, s, actions).value.log;
    DerivedFrom(f, log[j].revision, EditOf(f, log[j]), data);
  }

  lemma ReviewedIn(f: C.Foreign, v: W.Review, c: C.Config, change: Controls.Change)
    requires E.ReadPolicy(f, "", v.policy) == Some(c) && W.ChangeOf(f, v) == Some(change)
    ensures Controls.ReviewPolicy(v.kind, v.form, c, v.offered) == Some(change)
  {
    hide E.ReadPolicy, Controls.ReviewPolicy;
  }

  /** A metadata form that widens nothing changes nothing, so the editor has nothing to write. */
  lemma NarrowMetadata(f: C.Foreign, revision: string, v: W.Review, c: C.Config, change: Controls.Change,
                       seen: C.Project, data: string)
    requires Controls.ReviewPolicy(v.kind, v.form, c, v.offered) == Some(change)
    requires !change.widen && v.kind == Controls.Metadata
    requires E.ReadPolicy(f, revision, data) == Some(c)
    ensures !E.Derive(f, revision, Controls.EditOf(change, seen), data).Replace?
  {
    hide E.ReadPolicy, E.ReplaceFields, E.Checked, Controls.MetadataChange, E.Changes;
    var p := c.projects[C.IndexOf(c.projects, v.form.alias)];
    Controls.SameFieldsUnchanged(p, seen, change.input);
  }

  /** Apart from metadata, the edit of a change does not depend on what commit read again. */
  lemma SameEdit(change: Controls.Change, p: C.Project, q: C.Project)
    requires change.kind != Controls.Metadata
    ensures Controls.EditOf(change, p) == Controls.EditOf(change, q)
  {
  }

  lemma ReadIsValid(f: C.Foreign, data: string, c: C.Config)
    requires E.ReadPolicy(f, "", data) == Some(c)
    ensures C.Valid(f, c)
  {
    hide C.Valid, C.WorkerConfig, C.Defaulted;
  }

  /** The general statement about one accepted call. */
  lemma AcceptedNarrows(f: C.Foreign, revision: string, v: W.Review, change: Controls.Change, seen: C.Project,
                        data: string, u: string, alias: string, argv: seq<string>)
    requires v.policy == data && W.ChangeOf(f, v) == Some(change) && !change.widen && revision != ""
    requires E.Derive(f, revision, Controls.EditOf(change, seen), data) == E.Replace(u)
    ensures E.ReadPolicy(f, "", data).Some? && E.ReadPolicy(f, "", u).Some?
    ensures Controls.Rank(Controls.VerdictIn(E.ReadPolicy(f, "", u).value, alias, argv))
            <= Controls.Rank(Controls.VerdictIn(E.ReadPolicy(f, "", data).value, alias, argv))
  {
    hide E.Derive, E.ReadPolicy, W.ChangeOf, Controls.ReviewPolicy, Controls.EditOf, Controls.Result,
         Controls.VerdictIn, Controls.Rank, C.Valid, C.IndexOf;
    DerivedFrom(f, revision, Controls.EditOf(change, seen), data);
    var c := E.ReadPolicy(f, revision, data).value;
    ReviewedIn(f, v, c, change);
    Controls.ReviewNames(v.kind, v.form, c, v.offered);
    if v.kind == Controls.Metadata { NarrowMetadata(f, revision, v, c, change, seen, data); }
    var i := C.IndexOf(c.projects, change.alias);
    SameEdit(change, seen, if i < |c.projects| then c.projects[i] else change.input);
    Controls.CommitEffect(f, revision, change, data, c, i, u);
    ReadIsValid(f, data, c);
    Controls.UnconfirmedCommitNarrows(f, c, v.kind, v.form, v.offered, alias, argv);
  }

  /**
   In every run of the web server: an editor call without confirmation that the editor accepts,
   on whatever bytes it reads, makes no command of any project easier to run.
   */
  lemma UnconfirmedCallNarrows(f: C.Foreign, s: W.State, actions: seq<W.Action>, j: nat, data: string, u: string,
                               alias: string, argv: seq<string>)
    requires CallAt(f, s, actions, j) && NoReviewCollides(f, W.Run(f, s, actions).value.log, data)
    requires !W.Run(f, s, actions).value.log[j].confirmed
    requires var call := W.Run(f, s, actions).value.log[j];
             E.Derive(f, call.revision, EditOf(f, call), data) == E.Replace(u)
    ensures E.ReadPolicy(f, "", data).Some? && E.ReadPolicy(f, "", u).Some?
    ensures Controls.Rank(Controls.VerdictIn(E.ReadPolicy(f, "", u).value, alias, argv))
            <= Controls.Rank(Controls.VerdictIn(E.ReadPolicy(f, "", data).value, alias, argv))
  {
    hide W.Run, E.Derive, W.ChangeOf, W.Initial, E.ReadPolicy, Controls.VerdictIn, Controls.Rank, W.CurrentIn;
    var i := CallOnReviewed(f, s, actions, j, data);
    var log := W.Run(f, s, actions).value.log;
    var call := log[j];
    AcceptedNarrows(f, call.revision, log[i].review, call.change, W.CurrentIn(f, call.seen, call.change), data, u,
                    alias, argv);
  }

  /**
   A run of the web server and a run of the editors: if version k + 1 of the policy was made by the
   edit of a logged call, under its revision, then version k is, byte for byte, the policy that
   was reviewed; and if the call was not confirmed, version k + 1 makes no command easier to run.
   */
  lemma CallReplacesReviewed(env: M.Env, es: M.State, steps: seq<M.Action>, k: nat,
                             s: W.State, actions: seq<W.Action>, j: nat, alias: string, argv: seq<string>)
    returns (i: nat)
    requires M.Initial(env, es) && M.Run(env, es, steps).Some? && k < |M.Run(env, es, steps).value.origins|
    requires k < |M.Run(env, es, steps).value.files| && CallAt(env.f, s, actions, j)
    requires NoReviewCollides(env.f, W.Run(env.f, s, actions).value.log, M.Run(env, es, steps).value.files[k].bytes)
    requires var call, o := W.Run(env.f, s, actions).value.log[j], M.Run(env, es, steps).value.origins[k];
             o.edit == EditOf(env.f, call) && o.revision == call.revision
    ensures var log, t := W.Run(env.f, s, actions).value.log, M.Run(env, es, steps).value;
            && i < j && log[i].Reviewed? && log[i].token == log[j].token
            && k + 1 < |t.files| && t.files[k].bytes == log[i].review.policy
            && E.ReadPolicy(env.f, "", t.files[k].bytes).Some? && E.ReadPolicy(env.f, "", t.files[k + 1].bytes).Some?
            && (!log[j].confirmed ==>
                  Controls.Rank(Controls.VerdictIn(E.ReadPolicy(env.f, "", t.files[k + 1].bytes).value, alias, argv))
                  <= Controls.Rank(Controls.VerdictIn(E.ReadPolicy(env.f, "", t.files[k].bytes).value, alias, argv)))
  {
    hide W.Run, M.Run, E.Derive, W.ChangeOf, W.Initial, M.Initial, E.ReadPolicy, Controls.VerdictIn, Controls.Rank,
         EditOf;
    M.OneChain(env, es, steps, k);
    var log, t := W.Run(env.f, s, actions).value.log, M.Run(env, es, steps).value;
    var data, u := t.files[k].bytes, t.files[k + 1].bytes;
    i := CallOnReviewed(env.f, s, actions, j, data);
    DerivedFrom(env.f, log[j].revision, EditOf(env.f, log[j]), data);
    E.DerivedReadable(env.f, log[j].revision, EditOf(env.f, log[j]), data);
    if !log[j].confirmed { UnconfirmedCallNarrows(env.f, s, actions, j, data, u, alias, argv); }
  }
}
