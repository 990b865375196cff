/**
 The audit trail of internal/admin/audit.go against what happened to the policy: any number of
 audited mutations on one policy file, each with a start record before its edit and at most one
 finish record after it. The editors are those of `EditorMachine`, crashes included.

 `log` holds the records in order and, between them, the moments at which the policy was
 replaced. A start record that cannot be written means no edit; a finish record that cannot be
 written is missing.
 */
module AuditedRuns {
  import opened Basics
  import A = Audit
  import E = Edits
  import M = EditorMachine

  datatype Event =
    | Started(e: nat, edit: E.Edit, revision: string)
    | Replaced(e: nat, k: nat)
    | Finished(e: nat, outcome: A.Outcome)

  datatype State = State(m: M.State, log: seq<Event>)

  datatype Action = LogStart(e: nat, edit: E.Edit, revision: string) | Step(a: M.Action) | LogFinish(e: nat)

  /** What the editor returns to `mutate`: an error after the rename is reported without a change. */
  function UpdateOf(p: M.Phase): A.UpdateResult { A.UpdateResult(p.Succeeded?, !p.Succeeded? && !p.NoChange?) }

  predicate StartedIn(log: seq<Event>, e: nat, edit: E.Edit, revision: string) {
    exists i :: 0 <= i < |log| && log[i] == Started(e, edit, revision)
  }

  predicate FinishedIn(log: seq<Event>, e: nat) { exists i :: 0 <= i < |log| && log[i].Finished? && log[i].e == e }

  /** The editor has returned. */
  predicate Returned(s: M.State, e: nat) {
    e in s.editors && M.Final(s.editors[e].phase) && !s.editors[e].phase.Crashed?
  }

  function Do(env: M.Env, s: State, a: Action): Option<State> {
    match a
    case LogStart(e, edit, revision) =>
      if e in s.m.editors then None else Some(s.(log := s.log + [Started(e, edit, revision)]))
    case Step(step) =>
      if step.Start? && !StartedIn(s.log, step.e, step.edit, step.revision) then None
      else (match M.Do(env, s.m, step)
            case None => None
            case Some(m) =>
              Some(State(m, if step.Rename? then s.log + [Replaced(step.e, |s.m.origins|)] else s.log)))
    case LogFinish(e) =>
      if !Returned(s.m, e) || FinishedIn(s.log, e) then None
      else Some(s.(log := s.log + [Finished(e, A.OutcomeOf(UpdateOf(s.m.editors[e].phase)))]))
  }

  function Run(env: M.Env, s: State, actions: seq<Action>): Option<State> {
    if actions == [] then Some(s)
    else match Run(env, s, actions[..|actions| - 1])
      case None => None
      case Some(mid) => Do(env, mid, actions[|actions| - 1])
  }

  predicate Initial(env: M.Env, s: State) { M.Initial(env, s.m) && s.log == [] }

  // ----- Steps of the machine -----

  predicate SameEdit(v: M.Editor, w: M.Editor) { v.edit == w.edit && v.revision == w.revision }

  /** Editors keep their edit, and one that has ended or does not move is unchanged. */
  lemma EditorStep(env: M.Env, s: M.State, a: M.Action, e: nat)
    requires M.Do(env, s, a).Some? && e in s.editors
    ensures Framed(s, M.Do(env, s, a).value, a, e)
  {
    hide M.Do, Framed;
    if M.PublishAction(a) {
      PublishFrame(env, s, a, e);
    } else if EarlyAction(a) {
      EarlyFrame(env, s, a, e);
    } else {
      LateFrame(env, s, a, e);
    }
  }

  predicate Framed(s: M.State, s': M.State, a: M.Action, e: nat)
    requires e in s.editors
  {
    && e in s'.editors && SameEdit(s.editors[e], s'.editors[e])
    && (a.e != e || M.Final(s.editors[e].phase) ==> s'.editors[e] == s.editors[e])
  }

  predicate EarlyAction(a: M.Action) { a.Start? || M.ReadAction(a) || M.PublishAction(a) }

  lemma EarlyFrame(env: M.Env, s: M.State, a: M.Action, e: nat)
    requires M.Do(env, s, a).Some? && e in s.editors && EarlyAction(a) && !M.PublishAction(a)
    ensures Framed(s, M.Do(env, s, a).value, a, e)
  {
    hide E.Derive, M.SameFile, M.Accepted, M.Fits, M.DoPublish, M.DoLock, M.DoTemp, M.DoReplace, M.DoStop;
  }

  lemma PublishFrame(env: M.Env, s: M.State, a: M.Action, e: nat)
    requires M.Do(env, s, a).Some? && e in s.editors && M.PublishAction(a)
    ensures Framed(s, M.Do(env, s, a).value, a, e)
  {
    hide M.Fits, E.MakeArtifact, M.Lookup, M.Bind, M.Unbind, M.DoRead, M.DoLock, M.DoTemp, M.DoReplace, M.DoStop;
  }

  lemma LateFrame(env: M.Env, s: M.State, a: M.Action, e: nat)
    requires M.Do(env, s, a).Some? && e in s.editors && !EarlyAction(a)
    ensures Framed(s, M.Do(env, s, a).value, a, e)
  {
    hide M.Fresh, M.SameFile, M.DoStart, M.DoRead, M.DoPublish;
  }

  lemma NewEditor(env: M.Env, s: M.State, a: M.Action, e: nat)
    requires M.Do(env, s, a).Some? && e !in s.editors && e in M.Do(env, s, a).value.editors
    ensures a.Start? && a.e == e
    ensures M.Do(env, s, a).value.editors[e] == M.Editor(a.edit, a.revision, None, None, M.Ready)
  {
    hide E.Derive, M.Fresh, M.SameFile, M.Accepted, M.Fits, E.MakeArtifact, M.MayStart;
  }

  /** Only a rename makes a version, and its origin is the editor that renamed. */
  lemma OriginStep(env: M.Env, s: M.State, a: M.Action)
    requires M.Do(env, s, a).Some?
    ensures var s' := M.Do(env, s, a).value;
            && (!a.Rename? ==> s'.origins == s.origins)
            && (a.Rename? ==>
                  && a.e in s.editors && !M.Final(s.editors[a.e].phase)
                  && s'.origins == s.origins + [M.Origin(a.e, s.editors[a.e].edit, s.editors[a.e].revision)])
  {
    hide E.Derive, M.Fresh, M.SameFile, M.Accepted, M.Fits, E.MakeArtifact, M.MayStart;
  }

  predicate FailedAfter(s: M.State, e: nat) {
    e in s.editors && s.editors[e].phase.Failed? && s.editors[e].phase.made.Some?
  }

  /** An editor fails after its rename exactly by a failed sync of the directory. */
  lemma SyncStep(env: M.Env, s: M.State, a: M.Action, e: nat)
    requires M.Do(env, s, a).Some?
    ensures FailedAfter(M.Do(env, s, a).value, e) <==> FailedAfter(s, e) || a == M.SyncPolicy(e, false)
  {
    if e in s.editors {
      EditorStep(env, s, a, e);
      if a.e == e { OwnSync(env, s, a, e); }
    } else if e in M.Do(env, s, a).value.editors {
      NewEditor(env, s, a, e);
    } else {
      NotMoved(env, s, a);
    }
    hide M.Do;
  }

  lemma NotMoved(env: M.Env, s: M.State, a: M.Action)
    requires M.Do(env, s, a).Some?
    ensures a.Start? || a.e in s.editors
  {
  }

  lemma OwnSync(env: M.Env, s: M.State, a: M.Action, e: nat)
    requires M.Do(env, s, a).Some? && e in s.editors && a.e == e
    ensures FailedAfter(M.Do(env, s, a).value, e) <==> FailedAfter(s, e) || a == M.SyncPolicy(e, false)
  {
    hide M.Do;
    if EarlyAction(a) { EarlySync(env, s, a, e); } else { LateSync(env, s, a, e); }
  }

  lemma EarlySync(env: M.Env, s: M.State, a: M.Action, e: nat)
    requires M.Do(env, s, a).Some? && e in s.editors && a.e == e && EarlyAction(a)
    ensures !FailedAfter(M.Do(env, s, a).value, e) && !FailedAfter(s, e)
  {
    hide E.Derive, M.SameFile, M.Accepted, M.Fits, E.MakeArtifact, M.DoLock, M.DoTemp, M.DoReplace, M.DoStop;
  }

  lemma LateSync(env: M.Env, s: M.State, a: M.Action, e: nat)
    requires M.Do(env, s, a).Some? && e in s.editors && a.e == e && !EarlyAction(a)
    ensures FailedAfter(M.Do(env, s, a).value, e) <==> a == M.SyncPolicy(e, false)
    ensures !FailedAfter(s, e)
  {
    hide M.Fresh, M.SameFile, M.DoStart, M.DoRead, M.DoPublish;
  }

  // ----- What every step keeps -----

  /** Every editor was announced with its edit. */
  predicate EditorsStarted(s: State) {
    forall e :: e in s.m.editors ==> StartedIn(s.log, e, s.m.editors[e].edit, s.m.editors[e].revision)
  }

  predicate ReplacementOk(s: State, j: nat)
    requires j < |s.log|
  {
    s.log[j].Replaced? ==>
      var k := s.log[j].k;
      && k < |s.m.origins| && s.m.origins[k].who == s.log[j].e
      && StartedIn(s.log[..j], s.log[j].e, s.m.origins[k].edit, s.m.origins[k].revision)
  }

  predicate FinishOk(s: State, j: nat)
    requires j < |s.log|
  {
    s.log[j].Finished? ==>
      && Returned(s.m, s.log[j].e)
      && s.log[j].outcome == A.OutcomeOf(UpdateOf(s.m.editors[s.log[j].e].phase))
  }

  predicate InLog(s: State, k: nat)
    requires k < |s.m.origins|
  {
    exists j :: 0 <= j < |s.log| && s.log[j] == Replaced(s.m.origins[k].who, k)
  }

  predicate LogOk(s: State) {
    && (forall j :: 0 <= j < |s.log| ==> ReplacementOk(s, j) && FinishOk(s, j))
    && (forall k :: 0 <= k < |s.m.origins| ==> InLog(s, k))
    && Ordered(s.log)
  }

  /** One finish record per mutation, after all its replacements, and one replacement per version. */
  predicate Ordered(log: seq<Event>) { forall i, j :: 0 <= i < j < |log| ==> Apart(log[i], log[j]) }

  predicate Apart(x: Event, y: Event) {
    && (x.Finished? && !y.Started? ==> x.e != y.e)
    && (x.Replaced? && y.Replaced? ==> x.k != y.k)
  }

  lemma OrderedGrows(log: seq<Event>, y: Event)
    requires Ordered(log) && forall j :: 0 <= j < |log| ==> Apart(log[j], y)
    ensures Ordered(log + [y])
  {
    hide Apart;
  }

  ghost predicate Inv(env: M.Env, s: State) { M.Inv(env, s.m) && EditorsStarted(s) && LogOk(s) }

  lemma StartedGrows(log: seq<Event>, x: Event, e: nat, edit: E.Edit, revision: string)
    requires StartedIn(log, e, edit, revision)
    ensures StartedIn(log + [x], e, edit, revision)
  {
    var i :| 0 <= i < |log| && log[i] == Started(e, edit, revision);
    assert (log + [x])[i] == log[i];
  }

  /** The old entries stay in order when the log grows by one and nobody changes who has ended. */
  lemma OldEntry(s: State, s': State, j: nat)
    requires j < |s.log| && ReplacementOk(s, j) && FinishOk(s, j)
    requires s.log <= s'.log && s.m.origins <= s'.m.origins
    requires forall e :: e in s.m.editors && M.Final(s.m.editors[e].phase) ==>
               e in s'.m.editors && s'.m.editors[e] == s.m.editors[e]
    ensures ReplacementOk(s', j) && FinishOk(s', j)
  {
    hide M.Final, StartedIn, UpdateOf;
    assert s'.log[j] == s.log[j] && s'.log[..j] == s.log[..j];
  }

  lemma OldVersion(s: State, s': State, k: nat)
    requires k < |s.m.origins| && InLog(s, k) && s.log <= s'.log && s.m.origins <= s'.m.origins
    ensures InLog(s', k)
  {
    var j :| 0 <= j < |s.log| && s.log[j] == Replaced(s.m.origins[k].who, k);
    assert s'.log[j] == s.log[j];
  }

  lemma LogStartKeeps(env: M.Env, s: State, e: nat, edit: E.Edit, revision: string)
    requires Inv(env, s)
    ensures Inv(env, s.(log := s.log + [Started(e, edit, revision)]))
  {
    hide M.Inv, ReplacementOk, FinishOk, InLog, StartedIn, Ordered;
    var x := Started(e, edit, revision);
    var s' := s.(log := s.log + [x]);
    OrderedGrows(s.log, x);
    forall y | y in s'.m.editors ensures StartedIn(s'.log, y, s'.m.editors[y].edit, s'.m.editors[y].revision) {
      StartedGrows(s.log, x, y, s.m.editors[y].edit, s.m.editors[y].revision);
    }
    forall j | 0 <= j < |s'.log| ensures ReplacementOk(s', j) && FinishOk(s', j) {
      if j < |s.log| { OldEntry(s, s', j); } else { PlainEntry(s', j); }
    }
    forall k | 0 <= k < |s'.m.origins| ensures InLog(s', k) { OldVersion(s, s', k); }
  }

  lemma PlainEntry(s: State, j: nat)
    requires j < |s.log| && s.log[j].Started?
    ensures ReplacementOk(s, j) && FinishOk(s, j)
  {
  }

  lemma FinishEntry(s: State, j: nat)
    requires j < |s.log| && s.log[j].Finished? && Returned(s.m, s.log[j].e)
    requires s.log[j].outcome == A.OutcomeOf(UpdateOf(s.m.editors[s.log[j].e].phase))
    ensures ReplacementOk(s, j) && FinishOk(s, j)
  {
  }

  lemma LogFinishKeeps(env: M.Env, s: State, e: nat)
    requires Inv(env, s) && Do(env, s, LogFinish(e)).Some?
    ensures Inv(env, Do(env, s, LogFinish(e)).value)
  {
    hide M.Inv, ReplacementOk, FinishOk, InLog, StartedIn, UpdateOf, A.OutcomeOf, Ordered;
    var s' := Do(env, s, LogFinish(e)).value;
    var x := s'.log[|s.log|];
    OrderedGrows(s.log, x);
    forall y | y in s'.m.editors ensures StartedIn(s'.log, y, s'.m.editors[y].edit, s'.m.editors[y].revision) {
      StartedGrows(s.log, x, y, s.m.editors[y].edit, s.m.editors[y].revision);
    }
    forall j | 0 <= j < |s'.log| ensures ReplacementOk(s', j) && FinishOk(s', j) {
      if j < |s.log| { OldEntry(s, s', j); } else { FinishEntry(s', j); }
    }
    forall k | 0 <= k < |s'.m.origins| ensures InLog(s', k) { OldVersion(s, s', k); }
  }

  lemma StepStarted(env: M.Env, s: State, a: M.Action)
    requires EditorsStarted(s) && Do(env, s, Step(a)).Some?
    ensures EditorsStarted(Do(env, s, Step(a)).value)
  {
    hide M.Do, StartedIn;
    var s' := Do(env, s, Step(a)).value;
    forall y | y in s'.m.editors ensures StartedIn(s'.log, y, s'.m.editors[y].edit, s'.m.editors[y].revision) {
      if y in s.m.editors { EditorStep(env, s.m, a, y); } else { NewEditor(env, s.m, a, y); }
      if a.Rename? {
        StartedGrows(s.log, Replaced(a.e, |s.m.origins|), y, s'.m.editors[y].edit, s'.m.editors[y].revision);
      }
    }
  }

  /** A new version is logged after the start of its editor, and its editor has not returned. */
  lemma NewVersion(s: State, s': State, e: nat)
    requires e in s.m.editors && StartedIn(s.log, e, s.m.editors[e].edit, s.m.editors[e].revision)
    requires s'.m.origins == s.m.origins + [M.Origin(e, s.m.editors[e].edit, s.m.editors[e].revision)]
    requires s'.log == s.log + [Replaced(e, |s.m.origins|)]
    ensures ReplacementOk(s', |s.log|) && FinishOk(s', |s.log|) && InLog(s', |s.m.origins|)
  {
    assert s'.log[..|s.log|] == s.log && s'.log[|s.log|] == Replaced(e, |s.m.origins|);
  }

  lemma NotFinished(s: State, e: nat, j: nat)
    requires j < |s.log| && FinishOk(s, j) && s.log[j].Finished? && e in s.m.editors && !M.Final(s.m.editors[e].phase)
    ensures s.log[j].e != e
  {
  }

  lemma Smaller(s: State, j: nat)
    requires j < |s.log| && ReplacementOk(s, j) && s.log[j].Replaced?
    ensures s.log[j].k < |s.m.origins|
  {
  }

  lemma StepLog(env: M.Env, s: State, a: M.Action)
    requires EditorsStarted(s) && LogOk(s) && Do(env, s, Step(a)).Some?
    ensures LogOk(Do(env, s, Step(a)).value)
  {
    hide M.Do, StartedIn, ReplacementOk, FinishOk, InLog, M.Final, Ordered;
    var s' := Do(env, s, Step(a)).value;
    OriginStep(env, s.m, a);
    forall e | e in s.m.editors && M.Final(s.m.editors[e].phase)
      ensures e in s'.m.editors && s'.m.editors[e] == s.m.editors[e]
    {
      EditorStep(env, s.m, a, e);
    }
    forall j | 0 <= j < |s.log| ensures ReplacementOk(s', j) && FinishOk(s', j) { OldEntry(s, s', j); }
    forall k | 0 <= k < |s.m.origins| ensures InLog(s', k) { OldVersion(s, s', k); }
    if a.Rename? {
      NewVersion(s, s', a.e);
      RenameOrdered(s, a.e);
    }
  }

  lemma RenameOrdered(s: State, e: nat)
    requires LogOk(s) && e in s.m.editors && !M.Final(s.m.editors[e].phase)
    ensures Ordered(s.log + [Replaced(e, |s.m.origins|)])
  {
    hide ReplacementOk, FinishOk, InLog, M.Final, Ordered;
    forall j | 0 <= j < |s.log| ensures Apart(s.log[j], Replaced(e, |s.m.origins|)) {
      if s.log[j].Finished? { NotFinished(s, e, j); }
      if s.log[j].Replaced? { Smaller(s, j); }
    }
    OrderedGrows(s.log, Replaced(e, |s.m.origins|));
  }

  lemma DoKeeps(env: M.Env, s: State, a: Action)
    requires Inv(env, s) && Do(env, s, a).Some?
    ensures Inv(env, Do(env, s, a).value)
  {
    hide M.Inv, M.Do, EditorsStarted, LogOk;
    match a
    case LogStart(e, edit, revision) => LogStartKeeps(env, s, e, edit, revision);
    case LogFinish(e) => LogFinishKeeps(env, s, e);
    case Step(step) =>
      M.DoKeeps(env, s.m, step);
      StepStarted(env, s, step);
      StepLog(env, s, step);
  }

  lemma {:induction false} RunKeeps(env: M.Env, s: State, actions: seq<Action>)
    requires Initial(env, s) && Run(env, s, actions).Some?
    ensures Inv(env, Run(env, s, actions).value)
  {
    hide Do, M.Inv;
    if actions == [] {
      M.InitialInv(env, s.m);
    } else {
      hide Inv, Initial;
      RunKeeps(env, s, actions[..|actions| - 1]);
      DoKeeps(env, Run(env, s, actions[..|actions| - 1]).value, actions[|actions| - 1]);
    }
  }

  /** Whether an editor failed after its rename can be read off the steps. */
  lemma {:induction false} FailedSyncs(env: M.Env, s: State, actions: seq<Action>, e: nat)
    requires Initial(env, s) && Run(env, s, actions).Some?
    ensures FailedAfter(Run(env, s, actions).value.m, e) <==> Step(M.SyncPolicy(e, false)) in actions
  {
    hide M.Do, FailedAfter;
    if actions == [] {
      NobodyFailed(s.m, e);
    } else {
      var front, a := actions[..|actions| - 1], actions[|actions| - 1];
      FailedSyncs(env, s, front, e);
      assert actions == front + [a];
      if a.Step? { SyncStep(env, Run(env, s, front).value.m, a.a, e); }
    }
  }

  lemma NobodyFailed(s: M.State, e: nat)
    requires s.editors == map[]
    ensures !FailedAfter(s, e)
  {
  }

  // ----- What every run guarantees -----

  /** A version made by this mutation. */
  predicate MadeBy(s: M.State, e: nat) { exists k :: 0 <= k < |s.origins| && s.origins[k].who == e }

  lemma MadeExactly(env: M.Env, s: M.State, e: nat)
    requires M.Inv(env, s) && e in s.editors
    ensures MadeBy(s, e) <==> M.Made(s.editors[e].phase).Some?
  {
    hide M.FilesOk, M.LocksOk, M.EditorsOk, E.Derive, M.Made;
    if k :| 0 <= k < |s.origins| && s.origins[k].who == e { assert M.LinkOk(env, s, k); }
  }

  /**
   The replacement by version k + 1 is entry j of the log and no other, after the start record i
   of the mutation with exactly this edit and revision, and before its finish record.
   */
  predicate AuditedAt(log: seq<Event>, o: M.Origin, k: nat, i: nat, j: nat) {
    && i < j < |log| && log[i] == Started(o.who, o.edit, o.revision) && log[j] == Replaced(o.who, k)
    && (forall x :: 0 <= x < |log| && log[x].Replaced? && log[x].k == k ==> x == j)
    && (forall x :: 0 <= x < |log| && log[x].Finished? && log[x].e == o.who ==> j < x)
  }

  lemma VersionInLog(s: State, k: nat) returns (i: nat, j: nat)
    requires LogOk(s) && k < |s.m.origins|
    ensures AuditedAt(s.log, s.m.origins[k], k, i, j)
  {
    hide FinishOk, Apart;
    var o := s.m.origins[k];
    assert InLog(s, k);
    j :| 0 <= j < |s.log| && s.log[j] == Replaced(o.who, k);
    assert ReplacementOk(s, j);
    i :| 0 <= i < |s.log[..j]| && s.log[..j][i] == Started(o.who, o.edit, o.revision);
    assert s.log[i] == s.log[..j][i];
    forall x | 0 <= x < |s.log| ensures x < j ==> Apart(s.log[x], s.log[j]) {}
    forall x | 0 <= x < |s.log| ensures j < x ==> Apart(s.log[j], s.log[x]) {}
    PlacesApart(s.log, o, k, j);
  }

  lemma PlacesApart(log: seq<Event>, o: M.Origin, k: nat, j: nat)
    requires j < |log| && log[j] == Replaced(o.who, k)
    requires forall x :: 0 <= x < j ==> Apart(log[x], log[j])
    requires forall x :: j < x < |log| ==> Apart(log[j], log[x])
    ensures forall x :: 0 <= x < |log| && log[x].Replaced? && log[x].k == k ==> x == j
    ensures forall x :: 0 <= x < |log| && log[x].Finished? && log[x].e == o.who ==> j < x
  {
  }

  /** Every version of the policy is audited. */
  lemma VersionsAudited(env: M.Env, s: State, actions: seq<Action>, k: nat) returns (i: nat, j: nat)
    requires Initial(env, s) && Run(env, s, actions).Some? && k < |Run(env, s, actions).value.m.origins|
    ensures var t := Run(env, s, actions).value; AuditedAt(t.log, t.m.origins[k], k, i, j)
  {
    hide Run, Initial, M.Inv, LogOk, EditorsStarted, AuditedAt;
    RunKeeps(env, s, actions);
    i, j := VersionInLog(Run(env, s, actions).value, k);
  }

  /**
   The finish records tell the truth: "changed" means that the mutation replaced the policy, "no
   change" that it did not, and a "failed" mutation replaced it exactly if the sync of the
   directory after its rename failed.
   */
  lemma RecordsTrue(env: M.Env, s: State, actions: seq<Action>, j: nat)
    requires Initial(env, s) && Run(env, s, actions).Some? && j < |Run(env, s, actions).value.log|
    requires Run(env, s, actions).value.log[j].Finished?
    ensures var t := Run(env, s, actions).value;
            var e := t.log[j].e;
            match t.log[j].outcome
            case Changed => MadeBy(t.m, e) && Step(M.SyncPolicy(e, false)) !in actions
            case NoChange => !MadeBy(t.m, e)
            case Failed => MadeBy(t.m, e) <==> Step(M.SyncPolicy(e, false)) in actions
  {
    hide Run, Initial, M.Inv, ReplacementOk, EditorsStarted, MadeBy, InLog;
    RunKeeps(env, s, actions);
    var t := Run(env, s, actions).value;
    var e := t.log[j].e;
    assert FinishOk(t, j);
    FailedSyncs(env, s, actions, e);
    MadeExactly(env, t.m, e);
  }
}
