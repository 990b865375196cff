/**
 Recovery artifacts in the runs of the editor machine: `Publish` of internal/admin/recovery.go.

 When the directory sync fails, `Publish` removes the final name and, on return, removes it
 again. The results hold for careful runs: whenever this second removal happens, nobody has
 linked the ID since the first. Apart from that any number of removals may use one ID.
 `CarefulExact` shows that exactly the careful steps leave the artifacts of others alone.
 */
module RecoveryIds {
  import opened Basics
  import opened Edits
  import opened EditorMachine
  import C = Config
  import Splice

  // ----- Careful runs -----

  /** The second removal of a name finds it still unbound. */
  predicate CarefulStep(s: State, a: Action) {
    a.Unlink? && a.e in s.editors && s.editors[a.e].phase.Unlinked? ==>
      Lookup(s.artifacts, Id(s.editors[a.e].edit)).None?
  }

  predicate Careful(env: Env, s: State, actions: seq<Action>) {
    actions == [] ||
    (Careful(env, s, actions[..|actions| - 1])
     && match Run(env, s, actions[..|actions| - 1])
        case None => false
        case Some(mid) => CarefulStep(mid, actions[|actions| - 1]))
  }

  // ----- What every careful step keeps -----

  /** An artifact that records the bytes before and after this removal. */
  predicate Records(env: Env, a: Artifact, edit: Edit, before: string, after: string) {
    && edit.DropProject? && a.createdAt.Some? && a == ArtifactOf(env, edit, a.createdAt.value, before, after)
    && Fits(env, a)
  }

  predicate Recorded(env: Env, s: State, edit: Edit, src: nat, u: string) {
    && src < |s.files| && edit.DropProject? && edit.recoveryId in s.artifacts
    && Records(env, s.artifacts[edit.recoveryId], edit, s.files[src].bytes, u)
  }

  /** The link is made and not finished: the name will be taken back if the publication fails. */
  predicate Owns(p: Phase) { p.Linked? || p.Cleaned? }

  predicate Published(p: Phase) { Wants(p).Some? && !p.Linking? }

  /** The editor relies on its artifact. */
  predicate Claims(p: Phase) { Published(p) || Made(p).Some? }

  predicate ArtifactOk(env: Env, s: State, w: Editor) {
    w.edit.DropProject? ==>
      && (Published(w.phase) ==> Recorded(env, s, w.edit, Wants(w.phase).value.0, Wants(w.phase).value.1))
      && (Made(w.phase).Some? ==> var k := Made(w.phase).value;
            k + 1 < |s.files| && Recorded(env, s, w.edit, k, s.files[k + 1].bytes))
      && (Owns(w.phase) || w.phase.Unlinked? ==> w.found.None?)
  }

  predicate SameId(v: Editor, w: Editor) { Id(v.edit).Some? && Id(v.edit) == Id(w.edit) }

  /** Nobody else relies on an ID whose link may still be taken back. */
  predicate Exclusive(s: State) {
    forall x, y :: x in s.editors && y in s.editors && x != y && SameId(s.editors[x], s.editors[y]) ==>
      !(Owns(s.editors[y].phase) && Claims(s.editors[x].phase))
  }

  predicate RecInv(env: Env, s: State) {
    Exclusive(s) && forall e :: e in s.editors ==> ArtifactOk(env, s, s.editors[e])
  }

  /** Files only grow and the artifacts stay: nothing changes for an editor that does not move. */
  lemma ArtifactGrows(env: Env, s: State, s': State, w: Editor)
    requires s.files <= s'.files && s'.artifacts == s.artifacts && ArtifactOk(env, s, w)
    ensures ArtifactOk(env, s', w)
  {
    hide Records, Wants, Owns, Made, Lookup;
    assert forall k :: 0 <= k < |s.files| ==> s'.files[k] == s.files[k];
  }

  lemma ExclusiveMove(s: State, s': State, e: nat)
    requires Exclusive(s) && Others(s, s', e) && s'.editors[e].edit == s.editors[e].edit
    requires Owns(s'.editors[e].phase) ==> Owns(s.editors[e].phase)
    requires Claims(s'.editors[e].phase) ==> Claims(s.editors[e].phase)
    ensures Exclusive(s')
  {
    hide Owns, Claims, Id;
  }

  /** A step of one editor that leaves the artifacts alone. */
  lemma QuietRec(env: Env, s: State, s': State, e: nat)
    requires RecInv(env, s) && Others(s, s', e) && s.files <= s'.files && s'.artifacts == s.artifacts
    requires s'.editors[e].edit == s.editors[e].edit && ArtifactOk(env, s', s'.editors[e])
    requires Owns(s'.editors[e].phase) ==> Owns(s.editors[e].phase)
    requires Claims(s'.editors[e].phase) ==> Claims(s.editors[e].phase)
    ensures RecInv(env, s')
  {
    hide ArtifactOk, Owns, Claims, Exclusive;
    ExclusiveMove(s, s', e);
    forall x | x in s'.editors ensures ArtifactOk(env, s', s'.editors[x]) {
      if x != e { ArtifactGrows(env, s, s', s.editors[x]); }
    }
  }

  lemma RecFacts(env: Env, s: State, e: nat)
    requires RecInv(env, s) && e in s.editors
    ensures ArtifactOk(env, s, s.editors[e])
  {
    hide ArtifactOk, Exclusive;
  }

  lemma StartRec(env: Env, s: State, e: nat, edit: Edit, revision: string)
    requires RecInv(env, s) && e !in s.editors
    ensures RecInv(env, Put(s, e, Editor(edit, revision, None, None, Ready)))
  {
    var w := Editor(edit, revision, None, None, Ready);
    var s' := Put(s, e, w);
    assert ArtifactOk(env, s', w) && !Owns(w.phase) && !Claims(w.phase);
    hide ArtifactOk, Owns, Claims, Id;
    forall x | x in s'.editors ensures ArtifactOk(env, s', s'.editors[x]) {
      if x != e { ArtifactGrows(env, s, s', s.editors[x]); }
    }
  }

  // ----- Publishing -----

  predicate SameElsewhere(a: map<string, Artifact>, b: map<string, Artifact>, id: string) {
    (forall i :: i in a && i != id ==> i in b && b[i] == a[i]) && (forall i :: i in b && i != id ==> i in a)
  }

  /** What happens to another ID does not matter; and to the own one only if it is relied on. */
  lemma OtherArtifact(env: Env, s: State, s': State, w: Editor, id: string)
    requires s'.files == s.files && SameElsewhere(s.artifacts, s'.artifacts, id) && ArtifactOk(env, s, w)
    requires Id(w.edit) == Some(id) ==> !Claims(w.phase)
    ensures ArtifactOk(env, s', w)
  {
    hide Records, Wants, Owns;
  }

  /** Whoever relies on an artifact has it. */
  lemma ClaimsAreBound(env: Env, s: State, w: Editor)
    requires ArtifactOk(env, s, w) && w.edit.DropProject? && Claims(w.phase)
    ensures w.edit.recoveryId in s.artifacts
  {
    hide Records, Wants;
  }

  lemma LinkedOk(env: Env, s: State, s': State, w: Editor, a: Artifact)
    requires w.edit.DropProject? && w.phase.Linking? && w.phase.src < |s.files| && s'.files == s.files
    requires Records(env, a, w.edit, s.files[w.phase.src].bytes, w.phase.u)
    requires s'.artifacts == s.artifacts[w.edit.recoveryId := a]
    ensures ArtifactOk(env, s', w.(found := None, phase := Linked(w.phase.src, w.phase.u)))
  {
    hide Records;
  }

  /** A successful link: the ID was unbound, so nobody relied on it. */
  lemma LinkRec(env: Env, s: State, s': State, e: nat, now: int)
    requires RecInv(env, s) && s.files != [] && e in s.editors && s.editors[e].edit.DropProject?
    requires s.editors[e].phase.Linking? && s.editors[e].phase.src < |s.files|
    requires s.editors[e].edit.recoveryId !in s.artifacts
    requires Fits(env, ArtifactOf(env, s.editors[e].edit, now, s.files[s.editors[e].phase.src].bytes,
                                  s.editors[e].phase.u))
    requires DoPublish(env, s, Link(e, now), e, s.editors[e]) == Some(s')
    ensures RecInv(env, s')
  {
    var w := s.editors[e];
    var id := w.edit.recoveryId;
    var a := ArtifactOf(env, w.edit, now, s.files[w.phase.src].bytes, w.phase.u);
    assert s'
           == Put(s, e, w.(found := None, phase := Linked(w.phase.src, w.phase.u))).(artifacts := s.artifacts[id := a]);
    assert Records(env, a, w.edit, s.files[w.phase.src].bytes, w.phase.u);
    hide Records, ArtifactOk, Claims, DoPublish, MakeArtifact, Fits;
    forall x | x in s.editors && x != e && Id(s.editors[x].edit) == Some(id) ensures !Claims(s.editors[x].phase) {
      RecFacts(env, s, x);
      if Claims(s.editors[x].phase) { ClaimsAreBound(env, s, s.editors[x]); }
    }
    LinkedOk(env, s, s', w, a);
    forall x | x in s'.editors ensures ArtifactOk(env, s', s'.editors[x]) {
      if x != e {
        RecFacts(env, s, x);
        OtherArtifact(env, s, s', s.editors[x], id);
      }
    }
    LinkExclusive(env, s, s', e, id);
  }

  lemma LinkExclusive(env: Env, s: State, s': State, e: nat, id: string)
    requires RecInv(env, s) && Others(s, s', e) && Id(s'.editors[e].edit) == Some(id)
    requires forall x :: x in s.editors && x != e && Id(s.editors[x].edit) == Some(id) ==> !Claims(s.editors[x].phase)
    ensures Exclusive(s')
  {
    hide ArtifactOk, Id, Claims, Owns;
    forall x, y | x in s'.editors && y in s'.editors && x != y && SameId(s'.editors[x], s'.editors[y])
      ensures !(Owns(s'.editors[y].phase) && Claims(s'.editors[x].phase))
    {
      if x == e && Owns(s'.editors[y].phase) { OwnersClaim(s'.editors[y].phase); }
    }
  }

  lemma OwnersClaim(p: Phase)
    requires Owns(p)
    ensures Claims(p)
  {
  }

  /** Taking back a link that nobody else relies on. */
  lemma UnbindRec(env: Env, s: State, s': State, e: nat, p: Phase)
    requires RecInv(env, s) && e in s.editors && s.editors[e].edit.DropProject? && Owns(s.editors[e].phase)
    requires p.PublishFailed? || p.Unlinked?
    requires s' == Move(s, e, p).(artifacts := s.artifacts - {s.editors[e].edit.recoveryId})
    ensures RecInv(env, s') && Lookup(s'.artifacts, Id(s'.editors[e].edit)) == s'.editors[e].found
  {
    var w := s.editors[e];
    var id := w.edit.recoveryId;
    RecFacts(env, s, e);
    assert w.found.None? && ArtifactOk(env, s', s'.editors[e]);
    hide ArtifactOk, Claims, Owns;
    forall x | x in s'.editors ensures ArtifactOk(env, s', s'.editors[x]) {
      if x != e {
        RecFacts(env, s, x);
        OtherArtifact(env, s, s', s.editors[x], id);
      }
    }
    StopsOwning(p);
    ExclusiveMove(s, s', e);
  }

  lemma StopsOwning(p: Phase)
    requires p.PublishFailed? || p.Unlinked?
    ensures !Owns(p) && !Claims(p)
  {
  }

  lemma UnboundUnbind(s: State, e: nat)
    requires e in s.editors && s.editors[e].edit.DropProject? && Lookup(s.artifacts, Id(s.editors[e].edit)).None?
    ensures Unbind(s.artifacts, Id(s.editors[e].edit)) == s.artifacts
  {
  }

  /** The publication steps that only move the editor on. */
  lemma QuietPublish(env: Env, s: State, e: nat, w': Editor)
    requires RecInv(env, s) && e in s.editors && s.editors[e].edit.DropProject?
    requires var w := s.editors[e];
             || (w.phase.Linked? && w' == w.(phase := Cleaned(w.phase.src, w.phase.u)))
             || (w.phase.Cleaned? && w' == w.(phase := Writing(w.phase.src, w.phase.u)))
             || ((w.phase.Linking? || w.phase.Unlinked?) && w' == w.(found := w'.found, phase := PublishFailed))
    ensures RecInv(env, Put(s, e, w'))
  {
    RecFacts(env, s, e);
    assert ArtifactOk(env, Put(s, e, w'), w') by { hide Records; }
    assert (Owns(w'.phase) ==> Owns(s.editors[e].phase)) && (Claims(w'.phase) ==> Claims(s.editors[e].phase));
    hide ArtifactOk, Owns, Claims;
    QuietRec(env, s, Put(s, e, w'), e);
  }

  lemma PublishRec(env: Env, s: State, a: Action, e: nat, s': State)
    requires Inv(env, s) && RecInv(env, s) && s.files != [] && e in s.editors && a.e == e && CarefulStep(s, a)
    requires DoPublish(env, s, a, e, s.editors[e]) == Some(s')
    ensures RecInv(env, s') && e in s'.editors
    ensures s'.editors[e].phase.PublishFailed? ==> Lookup(s'.artifacts, Id(s'.editors[e].edit)) == s'.editors[e].found
  {
    hide Inv, RecInv, PhaseOk, MakeArtifact, Fits;
    var w := s.editors[e];
    PublishFrame(env, s, a, e, s');
    PublishesRemoval(env, s, a, e);
    RecFacts(env, s, e);
    if a.Link? {
      if s'.editors[e].phase.PublishFailed? {
        QuietPublish(env, s, e, s'.editors[e]);
      } else {
        LinkRec(env, s, s', e, a.now);
      }
    } else if a.Unlink? {
      UnboundUnbind(s, e);
      QuietPublish(env, s, e, s'.editors[e]);
    } else if a.ok {
      QuietPublish(env, s, e, s'.editors[e]);
    } else {
      UnbindRec(env, s, s', e, s'.editors[e].phase);
    }
  }

  lemma PublishesRemoval(env: Env, s: State, a: Action, e: nat)
    requires Inv(env, s) && s.files != [] && e in s.editors && DoPublish(env, s, a, e, s.editors[e]).Some?
    ensures s.editors[e].edit.DropProject?
  {
    hide Inv, MakeArtifact, Fits;
    EditorFacts(env, s, e);
  }

  // ----- The other steps -----

  /** The steps before the link and after publication keep what the editor relies on. */
  lemma QuietPhase(env: Env, s: State, s': State, e: nat)
    requires RecInv(env, s) && Others(s, s', e) && s.files <= s'.files && s'.artifacts == s.artifacts
    requires s'.editors[e].edit == s.editors[e].edit && s'.editors[e].found == s.editors[e].found
    requires var p, q := s.editors[e].phase, s'.editors[e].phase;
             && !Owns(q) && !q.Unlinked?
             && (Published(q) && s.editors[e].edit.DropProject? ==> Published(p) && Wants(q) == Wants(p))
             && (Made(q).Some? && s.editors[e].edit.DropProject? ==>
                   || (Made(p) == Made(q))
                   || (Published(p) && Wants(p).value.0 == Made(q).value && Made(q).value + 1 < |s'.files|
                       && s'.files[Made(q).value + 1].bytes == Wants(p).value.1))
    ensures RecInv(env, s')
  {
    var w, w' := s.editors[e], s'.editors[e];
    RecFacts(env, s, e);
    if w.edit.DropProject? {
      assert forall k :: 0 <= k < |s.files| ==> s'.files[k] == s.files[k];
      assert ArtifactOk(env, s', w') by { hide Records, Wants, Made; }
      hide ArtifactOk, Owns;
      QuietRec(env, s, s', e);
    } else {
      PlainRec(env, s, s', e);
    }
  }

  /** An editor that removes no project has no part in this. */
  lemma PlainRec(env: Env, s: State, s': State, e: nat)
    requires RecInv(env, s) && Others(s, s', e) && s.files <= s'.files && s'.artifacts == s.artifacts
    requires s'.editors[e].edit == s.editors[e].edit && !s.editors[e].edit.DropProject?
    ensures RecInv(env, s')
  {
    hide Owns, Claims;
    assert ArtifactOk(env, s', s'.editors[e]) && Id(s'.editors[e].edit).None?;
    hide ArtifactOk, Id;
    forall x | x in s'.editors ensures ArtifactOk(env, s', s'.editors[x]) {
      if x != e { ArtifactGrows(env, s, s', s.editors[x]); }
    }
  }

  lemma ReadRec(env: Env, s: State, a: Action, e: nat, s': State)
    requires RecInv(env, s) && s.files != [] && e in s.editors && DoRead(env, s, a, e, s.editors[e]) == Some(s')
    ensures RecInv(env, s')
  {
    hide RecInv, Derive, Accepted, SameFile;
    QuietPhase(env, s, s', e);
  }

  lemma LockRec(env: Env, s: State, a: Action, e: nat, s': State)
    requires RecInv(env, s) && s.files != [] && e in s.editors && DoLock(env, s, a, e, s.editors[e]) == Some(s')
    ensures RecInv(env, s')
  {
    hide RecInv, SameFile;
    QuietPhase(env, s, s', e);
  }

  lemma TempRec(env: Env, s: State, a: Action, e: nat, s': State)
    requires RecInv(env, s) && s.files != [] && e in s.editors && DoTemp(env, s, a, e, s.editors[e]) == Some(s')
    ensures RecInv(env, s')
  {
    hide RecInv, SameFile;
    QuietPhase(env, s, s', e);
  }

  lemma ReplaceRec(env: Env, s: State, a: Action, e: nat, s': State)
    requires Inv(env, s) && RecInv(env, s) && s.files != [] && e in s.editors
    requires DoReplace(env, s, a, e, s.editors[e]) == Some(s')
    ensures RecInv(env, s')
  {
    hide RecInv, Inv, Fresh, Derive, Sound;
    if a.Rename? { AboutToRename(env, s, e); }
    QuietPhase(env, s, s', e);
  }

  lemma StopRec(env: Env, s: State, a: Action, e: nat, s': State)
    requires RecInv(env, s) && e in s.editors && DoStop(s, a, e, s.editors[e]) == Some(s')
    ensures RecInv(env, s')
    ensures s'.editors[e].phase.PublishFailed? ==> Lookup(s'.artifacts, Id(s'.editors[e].edit)) == s'.editors[e].found
  {
    hide RecInv, Lookup;
    RecFacts(env, s, e);
    if s.editors[e].phase.Linking? && a.Fail? {
      FoundRec(env, s, e, s');
    } else {
      QuietPhase(env, s, s', e);
    }
  }

  lemma FoundRec(env: Env, s: State, e: nat, s': State)
    requires RecInv(env, s) && Others(s, s', e) && s'.files == s.files && s'.artifacts == s.artifacts
    requires s'.editors[e].edit == s.editors[e].edit && s'.editors[e].phase.PublishFailed?
    ensures RecInv(env, s')
  {
    assert ArtifactOk(env, s', s'.editors[e]) && !Owns(s'.editors[e].phase) && !Claims(s'.editors[e].phase);
    hide ArtifactOk, Owns, Claims;
    QuietRec(env, s, s', e);
  }

  lemma DoRec(env: Env, s: State, a: Action)
    requires Inv(env, s) && RecInv(env, s) && CarefulStep(s, a) && Do(env, s, a).Some?
    ensures RecInv(env, Do(env, s, a).value)
    ensures var s' := Do(env, s, a).value;
            a.e in s.editors && a.e in s'.editors && s'.editors[a.e].phase.PublishFailed? ==>
              Lookup(s'.artifacts, Id(s'.editors[a.e].edit)) == s'.editors[a.e].found
  {
    hide Inv, RecInv, DoRead, DoPublish, DoLock, DoTemp, DoReplace, DoStop, CarefulStep, Lookup;
    var s' := Do(env, s, a).value;
    if a.Start? {
      StartRec(env, s, a.e, a.edit, a.revision);
    } else if ReadAction(a) {
      ReadRec(env, s, a, a.e, s');
      NoPublication(env, s, a, a.e, s');
    } else if PublishAction(a) {
      PublishRec(env, s, a, a.e, s');
    } else if LockAction(a) {
      LockRec(env, s, a, a.e, s');
      NoPublication(env, s, a, a.e, s');
    } else if TempAction(a) {
      TempRec(env, s, a, a.e, s');
      NoPublication(env, s, a, a.e, s');
    } else if a.Rename? || a.SyncPolicy? {
      ReplaceRec(env, s, a, a.e, s');
      NoPublication(env, s, a, a.e, s');
    } else {
      StopRec(env, s, a, a.e, s');
    }
  }

  lemma NoPublication(env: Env, s: State, a: Action, e: nat, s': State)
    requires s.files != [] && e in s.editors
    requires || DoRead(env, s, a, e, s.editors[e]) == Some(s') || DoLock(env, s, a, e, s.editors[e]) == Some(s')
             || DoTemp(env, s, a, e, s.editors[e]) == Some(s') || DoReplace(env, s, a, e, s.editors[e]) == Some(s')
    ensures e in s'.editors && !s'.editors[e].phase.PublishFailed?
  {
    hide Derive, SameFile, Fresh, Accepted;
  }

  lemma {:induction false} RunRec(env: Env, s: State, actions: seq<Action>)
    requires Initial(env, s) && Run(env, s, actions).Some? && Careful(env, s, actions)
    ensures RecInv(env, Run(env, s, actions).value) && Inv(env, Run(env, s, actions).value)
  {
    hide Do, Inv, CarefulStep;
    RunKeeps(env, s, actions);
    if actions == [] {
      InitialRec(env, s);
    } else {
      hide RecInv, Initial;
      var front := actions[..|actions| - 1];
      RunRec(env, s, front);
      DoRec(env, Run(env, s, front).value, actions[|actions| - 1]);
    }
  }

  lemma InitialRec(env: Env, s: State)
    requires Initial(env, s)
    ensures RecInv(env, s)
  {
  }

  // ----- What every careful run guarantees -----

  /** Every version made by a removal has a published artifact with exactly the bytes before it. */
  lemma RemovalsRecorded(env: Env, s: State, actions: seq<Action>, k: nat)
    requires Initial(env, s) && Run(env, s, actions).Some? && Careful(env, s, actions)
    requires k < |Run(env, s, actions).value.origins| && Run(env, s, actions).value.origins[k].edit.DropProject?
    ensures var t := Run(env, s, actions).value;
            var id := t.origins[k].edit.recoveryId;
            && k + 1 < |t.files| && id in t.artifacts
            && Records(env, t.artifacts[id], t.origins[k].edit, t.files[k].bytes, t.files[k + 1].bytes)
            && t.artifacts[id].policy == t.files[k].bytes
  {
    hide Run, Initial, LocksOk, FilesOk, Derive, PhaseOk, MakersOk, Wants, Careful, Exclusive;
    RunRec(env, s, actions);
    var t := Run(env, s, actions).value;
    assert LinkOk(env, t, k);
    RecFacts(env, t, t.origins[k].who);
  }

  /**
   When a publication fails, the ID is bound to what the publication found when it tried to
   link it: to nothing, or to an earlier artifact, untouched.
   */
  lemma FailedPublishKeepsId(env: Env, s: State, actions: seq<Action>, a: Action, e: nat)
    requires Initial(env, s) && Careful(env, s, actions + [a]) && Run(env, s, actions + [a]).Some?
    requires a.e == e && Run(env, s, actions).Some? && e in Run(env, s, actions).value.editors
    requires e in Run(env, s, actions + [a]).value.editors
    requires Run(env, s, actions + [a]).value.editors[e].phase.PublishFailed?
    ensures var t := Run(env, s, actions + [a]).value;
            Lookup(t.artifacts, Id(t.editors[e].edit)) == t.editors[e].found
  {
    hide Do, Inv, RecInv, Initial, CarefulStep, Lookup;
    assert (actions + [a])[..|actions|] == actions;
    RunRec(env, s, actions);
    DoRec(env, Run(env, s, actions).value, a);
  }

  /** What the publication found is what the ID was bound to when it tried to link it. */
  lemma FoundAtLink(env: Env, s: State, a: Action)
    requires Do(env, s, a).Some? && a.Link? && a.e in s.editors
    ensures a.e in Do(env, s, a).value.editors
    ensures Do(env, s, a).value.editors[a.e].found == Lookup(s.artifacts, Id(s.editors[a.e].edit))
  {
    hide MakeArtifact, Fits;
  }

  predicate Owned(s: State, id: string) {
    exists x :: x in s.editors && Id(s.editors[x].edit) == Some(id) && Owns(s.editors[x].phase)
  }

  lemma OnlyPublishBinds(env: Env, s: State, a: Action)
    requires Do(env, s, a).Some? && !PublishAction(a)
    ensures Do(env, s, a).value.artifacts == s.artifacts
  {
    hide Derive, Fresh, SameFile, Accepted, DoPublish, MayStart;
  }

  lemma PublishIs(env: Env, s: State, a: Action)
    requires Do(env, s, a).Some? && PublishAction(a)
    ensures s.files != [] && a.e in s.editors && DoPublish(env, s, a, a.e, s.editors[a.e]) == Do(env, s, a)
  {
    hide DoPublish;
  }

  /** No careful step overwrites an artifact; only the unfinished publication of the same ID takes one away. */
  lemma ArtifactsFinal(env: Env, s: State, a: Action, id: string)
    requires CarefulStep(s, a) && Do(env, s, a).Some? && id in s.artifacts
    ensures var s' := Do(env, s, a).value;
            || (id in s'.artifacts && s'.artifacts[id] == s.artifacts[id])
            || (id !in s'.artifacts && a.e in s.editors
                && Id(s.editors[a.e].edit) == Some(id) && Owns(s.editors[a.e].phase))
  {
    hide Do;
    if PublishAction(a) {
      PublishIs(env, s, a);
      PublishTakes(env, s, a, a.e, id, Do(env, s, a).value);
    } else {
      OnlyPublishBinds(env, s, a);
    }
  }

  /** The step leaves this artifact alone, or takes back the link that its own publication made. */
  predicate Spares(env: Env, s: State, a: Action, id: string)
    requires Do(env, s, a).Some?
  {
    var s' := Do(env, s, a).value;
    || Lookup(s'.artifacts, Some(id)) == Lookup(s.artifacts, Some(id))
    || (a.e in s.editors && Id(s.editors[a.e].edit) == Some(id) && Owns(s.editors[a.e].phase))
  }

  /** Exactly the careful steps touch no artifact but the one that their own publication has linked. */
  lemma CarefulExact(env: Env, s: State, a: Action)
    requires Do(env, s, a).Some?
    ensures CarefulStep(s, a) <==> forall id :: id in s.artifacts ==> Spares(env, s, a, id)
  {
    hide Do;
    if CarefulStep(s, a) {
      forall id | id in s.artifacts ensures Spares(env, s, a, id) { ArtifactsFinal(env, s, a, id); }
    } else {
      PublishIs(env, s, a);
      var id := Id(s.editors[a.e].edit).value;
      SecondRemoval(env, s, a.e);
      assert !Spares(env, s, a, id);
    }
  }

  lemma SecondRemoval(env: Env, s: State, e: nat)
    requires s.files != [] && e in s.editors && s.editors[e].phase.Unlinked? && Id(s.editors[e].edit).Some?
    ensures Do(env, s, Unlink(e)).Some? && Id(s.editors[e].edit).value !in Do(env, s, Unlink(e)).value.artifacts
  {
  }

  lemma PublishTakes(env: Env, s: State, a: Action, e: nat, id: string, s': State)
    requires s.files != [] && e in s.editors && DoPublish(env, s, a, e, s.editors[e]) == Some(s') && id in s.artifacts
    requires a.Unlink? && s.editors[e].phase.Unlinked? ==> Lookup(s.artifacts, Id(s.editors[e].edit)).None?
    ensures || (id in s'.artifacts && s'.artifacts[id] == s.artifacts[id])
            || (id !in s'.artifacts && Id(s.editors[e].edit) == Some(id) && Owns(s.editors[e].phase))
  {
    hide MakeArtifact, Fits;
  }

  /** The link check: no step makes an owner of an ID that is bound. */
  lemma NoNewOwner(env: Env, s: State, a: Action, id: string)
    requires Do(env, s, a).Some? && id in s.artifacts && !Owned(s, id)
    ensures !Owned(Do(env, s, a).value, id)
  {
    var s' := Do(env, s, a).value;
    forall x | x in s'.editors && Id(s'.editors[x].edit) == Some(id) ensures !Owns(s'.editors[x].phase) {
      if Owns(s'.editors[x].phase) { OwnerStep(env, s, a, x, id); }
    }
  }

  lemma OwnerStep(env: Env, s: State, a: Action, x: nat, id: string)
    requires Do(env, s, a).Some? && id in s.artifacts && x in Do(env, s, a).value.editors
    requires Id(Do(env, s, a).value.editors[x].edit) == Some(id) && Owns(Do(env, s, a).value.editors[x].phase)
    ensures x in s.editors && Id(s.editors[x].edit) == Some(id) && Owns(s.editors[x].phase)
  {
    hide DoPublish, Do;
    if PublishAction(a) {
      PublishIs(env, s, a);
      OwnerPublish(env, s, a, a.e, x, id, Do(env, s, a).value);
    } else {
      OwnerOther(env, s, a, x);
    }
  }

  lemma OwnerPublish(env: Env, s: State, a: Action, e: nat, x: nat, id: string, s': State)
    requires s.files != [] && e in s.editors && DoPublish(env, s, a, e, s.editors[e]) == Some(s') && id in s.artifacts
    requires x in s'.editors && Id(s'.editors[x].edit) == Some(id) && Owns(s'.editors[x].phase)
    ensures x in s.editors && Id(s.editors[x].edit) == Some(id) && Owns(s.editors[x].phase)
  {
    hide MakeArtifact, Fits;
  }

  lemma OwnerOther(env: Env, s: State, a: Action, x: nat)
    requires Do(env, s, a).Some? && !PublishAction(a) && x in Do(env, s, a).value.editors
    requires Owns(Do(env, s, a).value.editors[x].phase)
    ensures x in s.editors && Do(env, s, a).value.editors[x] == s.editors[x]
  {
    hide Derive, Fresh, SameFile, Accepted, MayStart, DoPublish;
  }

  /**
   Over any careful continuation of a run, an artifact whose publication is not under way stays
   bound to its ID, unchanged.
   */
  lemma {:induction false} BoundStays(env: Env, s: State, before: seq<Action>, after: seq<Action>, id: string)
    requires Initial(env, s) && Run(env, s, before + after).Some? && Careful(env, s, before + after)
    requires Run(env, s, before).Some? && id in Run(env, s, before).value.artifacts
    requires !Owned(Run(env, s, before).value, id)
    ensures var t, u := Run(env, s, before).value, Run(env, s, before + after).value;
            id in u.artifacts && u.artifacts[id] == t.artifacts[id] && !Owned(u, id)
    decreases |after|
  {
    hide Do, Inv, RecInv, Initial, CarefulStep, Owned;
    if after == [] {
      assert before + after == before;
    } else {
      var front, a := after[..|after| - 1], after[|after| - 1];
      assert (before + after)[..|before + after| - 1] == before + front;
      BoundStays(env, s, before, front, id);
      RunRec(env, s, before + front);
      var mid := Run(env, s, before + front).value;
      ArtifactsFinal(env, mid, a, id);
      NoNewOwner(env, mid, a, id);
      NotOwner(mid, a.e, id);
    }
  }

  lemma NotOwner(s: State, e: nat, id: string)
    requires !Owned(s, id)
    ensures e in s.editors && Id(s.editors[e].edit) == Some(id) ==> !Owns(s.editors[e].phase)
  {
    hide Owns, Id;
  }

  lemma DropIsConfirmed(f: C.Foreign, revision: string, e: Edit, data: string)
    requires e.DropProject? && Derive(f, revision, e, data).Replace?
    ensures e.confirmation == e.alias
  {
    hide Splice.RemoveProject, Checked;
  }

  /**
   As long as the policy is the one a removal left, the artifact found under its ID restores
   the policy before the removal, byte for byte.
   */
  lemma RemovalCanBeUndone(env: Env, s: State, actions: seq<Action>, k: nat)
    requires Initial(env, s) && Run(env, s, actions).Some? && Careful(env, s, actions) && DigestLaw(env.f)
    requires k + 1 == |Run(env, s, actions).value.origins| && Run(env, s, actions).value.origins[k].edit.DropProject?
    ensures var t := Run(env, s, actions).value;
            var e := t.origins[k].edit;
            && e.recoveryId in t.artifacts && |t.files| == k + 2
            && Derive(env.f, "", Restore(t.artifacts[e.recoveryId], e.alias), t.files[k + 1].bytes)
               == Replace(t.files[k].bytes)
  {
    hide Run, Initial, Derive, DigestLaw, Careful;
    OneChain(env, s, actions, k);
    RemovalsRecorded(env, s, actions, k);
    var t := Run(env, s, actions).value;
    var o := t.origins[k];
    DropIsConfirmed(env.f, o.revision, o.edit, t.files[k].bytes);
    RestoreUndoesRemoval(env.f, o.revision, o.edit.alias, o.edit.recoveryId,
                         t.artifacts[o.edit.recoveryId].createdAt.value,
                         t.files[k].bytes, t.files[k + 1].bytes);
  }
}
