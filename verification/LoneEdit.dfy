/**
 An undisturbed editor succeeds: nothing in the protocol of internal/admin/policy.go refuses an
 edit whose update was computed, when no other editor holds the lock and no system call fails,
 except the size limit on recovery artifacts. So a project can be removed, and restored as long
 as nobody edited the policy since.

 The last part is a run that is not careful: two removals with one recovery ID, interleaved so
 that the deferred removal of the first deletes the artifact of the second.
 */
module LoneEdit {
  import opened Basics
  import opened Edits
  import opened EditorMachine
  import opened RecoveryIds

  /** The same as Run, taking the first action first. */
  function Steps(env: Env, s: State, actions: seq<Action>): Option<State>
    decreases |actions|
  {
    if actions == [] then Some(s)
    else match Do(env, s, actions[0])
      case None => None
      case Some(next) => Steps(env, next, actions[1..])
  }

  lemma {:induction false} StepsAreRuns(env: Env, s: State, before: seq<Action>, actions: seq<Action>)
    requires Run(env, s, before).Some?
    ensures Run(env, s, before + actions) == Steps(env, Run(env, s, before).value, actions)
    decreases |actions|
  {
    hide Do;
    if actions == [] {
      assert before + actions == before;
    } else {
      var a := actions[0];
      assert (before + [a])[..|before|] == before;
      assert Run(env, s, before + [a]) == Do(env, Run(env, s, before).value, a);
      assert before + actions == before + [a] + actions[1..];
      if Run(env, s, before + [a]).Some? {
        StepsAreRuns(env, s, before + [a], actions[1..]);
      } else {
        NoneStays(env, s, before + [a], actions[1..]);
      }
    }
  }

  lemma {:induction false} NoneStays(env: Env, s: State, before: seq<Action>, more: seq<Action>)
    requires Run(env, s, before).None?
    ensures Run(env, s, before + more).None?
    decreases |more|
  {
    hide Do;
    if more == [] {
      assert before + more == before;
    } else {
      var front := more[..|more| - 1];
      NoneStays(env, s, before, front);
      assert (before + more)[..|before + more| - 1] == before + front;
    }
  }

  // ----- Single steps -----

  lemma OneStep(env: Env, s: State, a: Action, rest: seq<Action>, t: State)
    requires Do(env, s, a) == Some(t)
    ensures Steps(env, s, [a] + rest) == Steps(env, t, rest)
  {
    hide Do;
    assert ([a] + rest)[1..] == rest;
  }

  lemma PutTwice(s: State, e: nat, w: Editor, x: Editor)
    ensures Put(Put(s, e, w), e, x) == Put(s, e, x)
  {
    assert s.editors[e := w][e := x] == s.editors[e := x];
  }

  /** One step that only changes the editor. */
  lemma PutStep(env: Env, s: State, e: nat, w: Editor, a: Action, x: Editor, rest: seq<Action>)
    requires Do(env, Put(s, e, w), a) == Some(Put(Put(s, e, w), e, x))
    ensures Steps(env, Put(s, e, w), [a] + rest) == Steps(env, Put(s, e, x), rest)
  {
    hide Do, Put;
    PutTwice(s, e, w, x);
    OneStep(env, Put(s, e, w), a, rest, Put(s, e, x));
  }

  /** Which part of the protocol an action belongs to. */
  lemma DoIs(env: Env, s: State, e: nat, w: Editor, a: Action)
    requires s.files != [] && !a.Start? && a.e == e
    ensures var t := Put(s, e, w);
            && (ReadAction(a) ==> Do(env, t, a) == DoRead(env, t, a, e, w))
            && (PublishAction(a) ==> Do(env, t, a) == DoPublish(env, t, a, e, w))
            && (LockAction(a) ==> Do(env, t, a) == DoLock(env, t, a, e, w))
            && (TempAction(a) ==> Do(env, t, a) == DoTemp(env, t, a, e, w))
            && (a.Rename? || a.SyncPolicy? ==> Do(env, t, a) == DoReplace(env, t, a, e, w))
  {
    hide DoRead, DoPublish, DoLock, DoTemp, DoReplace, DoStop, DoStart;
  }

  // ----- Reading and computing -----

  function ReadActions(e: nat, edit: Edit, revision: string, rest: seq<Action>): seq<Action> {
    [Start(e, edit, revision)] + ([Stat1(e)] + ([ReadBytes(e)] + ([Stat2(e)] + ([Compute(e)] + rest))))
  }

  /** The edit derives `u` from the policy at the path, and every reader accepts that policy. */
  predicate MayEdit(env: Env, s: State, e: nat, edit: Edit, revision: string, u: string) {
    && s.files != [] && MayStart(env, s, e, edit)
    && Accepted(env, Now(s)) && |s.files[Path(s)].bytes| <= MaxPolicyBytes && |u| <= MaxPolicyBytes
    && Derive(env.f, revision, edit, s.files[Path(s)].bytes) == Replace(u)
  }

  /** An editor that has read the current policy. */
  function Reader(s: State, edit: Edit, revision: string, found: Option<Artifact>, p: Phase): Editor
    requires s.files != []
  {
    Editor(edit, revision, Some(Now(s)), found, p)
  }

  function Computed(s: State, edit: Edit, u: string): Phase
    requires s.files != []
  {
    if edit.DropProject? then Linking(Path(s), u) else Writing(Path(s), u)
  }

  lemma StartStep(env: Env, s: State, e: nat, edit: Edit, revision: string, rest: seq<Action>)
    requires s.files != [] && MayStart(env, s, e, edit)
    ensures Steps(env, s, [Start(e, edit, revision)] + rest)
            == Steps(env, Put(s, e, Editor(edit, revision, None, None, Ready)), rest)
  {
    hide MayStart, Steps;
    OneStep(env, s, Start(e, edit, revision), rest, Put(s, e, Editor(edit, revision, None, None, Ready)));
  }

  lemma ReadingSteps(env: Env, s: State, e: nat, edit: Edit, revision: string, u: string, rest: seq<Action>)
    requires MayEdit(env, s, e, edit, revision, u)
    ensures Steps(env, s, ReadActions(e, edit, revision, rest))
            == Steps(env, Put(s, e, Reader(s, edit, revision, None, Computed(s, edit, u))), rest)
  {
    hide Derive, MayStart, Accepted, Steps, Do;
    var k, m := Path(s), Now(s);
    var w0 := Editor(edit, revision, None, None, Ready);
    var w1 := w0.(phase := Stated(m));
    var w2 := w0.(phase := HaveBytes(m, k));
    var w3 := Reader(s, edit, revision, None, HavePolicy(k));
    var w4 := Reader(s, edit, revision, None, Computed(s, edit, u));
    DoIs(env, s, e, w0, Stat1(e));
    DoIs(env, s, e, w1, ReadBytes(e));
    DoIs(env, s, e, w2, Stat2(e));
    DoIs(env, s, e, w3, Compute(e));
    StartStep(env, s, e, edit, revision, [Stat1(e)] + ([ReadBytes(e)] + ([Stat2(e)] + ([Compute(e)] + rest))));
    PutStep(env, s, e, w0, Stat1(e), w1, [ReadBytes(e)] + ([Stat2(e)] + ([Compute(e)] + rest)));
    PutStep(env, s, e, w1, ReadBytes(e), w2, [Stat2(e)] + ([Compute(e)] + rest));
    PutStep(env, s, e, w2, Stat2(e), w3, [Compute(e)] + rest);
    PutStep(env, s, e, w3, Compute(e), w4, rest);
  }

  // ----- Publishing -----

  function PublishActions(e: nat, edit: Edit, now: int, rest: seq<Action>): seq<Action> {
    if edit.DropProject? then [Link(e, now)] + ([Cleanup(e, true)] + ([SyncRecovery(e, true)] + rest)) else rest
  }

  /** The artifacts once the edit is published. */
  function PublishedBy(env: Env, s: State, edit: Edit, now: int, u: string): map<string, Artifact>
    requires s.files != []
  {
    if edit.DropProject? then s.artifacts[edit.recoveryId := ArtifactOf(env, edit, now, s.files[Path(s)].bytes, u)]
    else s.artifacts
  }

  /** A removal can be published: its ID is unbound and its artifact within the size limit. */
  predicate MayPublish(env: Env, s: State, edit: Edit, now: int, u: string)
    requires s.files != [] && edit.DropProject?
  {
    edit.recoveryId !in s.artifacts && Fits(env, ArtifactOf(env, edit, now, s.files[Path(s)].bytes, u))
  }

  lemma LinkStep(env: Env, s: State, e: nat, edit: Edit, revision: string, now: int, u: string, rest: seq<Action>)
    requires s.files != [] && edit.DropProject? && MayPublish(env, s, edit, now, u)
    ensures var t := s.(artifacts := PublishedBy(env, s, edit, now, u));
            Steps(env, Put(s, e, Reader(s, edit, revision, None, Linking(Path(s), u))), [Link(e, now)] + rest)
            == Steps(env, Put(t, e, Reader(s, edit, revision, None, Linked(Path(s), u))), rest)
  {
    hide Steps, Do, MakeArtifact, Fits;
    var k := Path(s);
    var w, x := Reader(s, edit, revision, None, Linking(k, u)), Reader(s, edit, revision, None, Linked(k, u));
    var t := s.(artifacts := PublishedBy(env, s, edit, now, u));
    DoIs(env, s, e, w, Link(e, now));
    PutTwice(s, e, w, x);
    OneStep(env, Put(s, e, w), Link(e, now), rest, Put(t, e, x));
  }

  lemma PublishSteps(env: Env, s: State, e: nat, edit: Edit, revision: string, now: int, u: string, rest: seq<Action>)
    requires s.files != [] && (edit.DropProject? ==> MayPublish(env, s, edit, now, u))
    ensures var t := s.(artifacts := PublishedBy(env, s, edit, now, u));
            Steps(env, Put(s, e, Reader(s, edit, revision, None, Computed(s, edit, u))),
                  PublishActions(e, edit, now, rest))
            == Steps(env, Put(t, e, Reader(s, edit, revision, None, Writing(Path(s), u))), rest)
  {
    hide Steps, Do, MakeArtifact, Fits;
    if edit.DropProject? {
      var k := Path(s);
      var t := s.(artifacts := PublishedBy(env, s, edit, now, u));
      var w1, w2 := Reader(s, edit, revision, None, Linked(k, u)), Reader(s, edit, revision, None, Cleaned(k, u));
      LinkStep(env, s, e, edit, revision, now, u, [Cleanup(e, true)] + ([SyncRecovery(e, true)] + rest));
      DoIs(env, t, e, w1, Cleanup(e, true));
      DoIs(env, t, e, w2, SyncRecovery(e, true));
      PutStep(env, t, e, w1, Cleanup(e, true), w2, [SyncRecovery(e, true)] + rest);
      PutStep(env, t, e, w2, SyncRecovery(e, true), Reader(s, edit, revision, None, Writing(k, u)), rest);
    } else {
      assert s.(artifacts := PublishedBy(env, s, edit, now, u)) == s;
    }
  }

  // ----- Locking -----

  function LockActions(e: nat, rest: seq<Action>): seq<Action> { [Open(e)] + ([Flock(e)] + ([Check1(e)] + rest)) }

  lemma FlockStep(env: Env, s: State, e: nat, w: Editor, u: string, rest: seq<Action>)
    requires s.files != [] && w.phase == Opened(Path(s), u, Path(s)) && Path(s) !in s.locks
    ensures var k := Path(s);
            Steps(env, Put(s, e, w), [Flock(e)] + rest)
            == Steps(env, Put(s.(locks := s.locks[k := e]), e, w.(phase := Holding(k, u, k))), rest)
  {
    hide Steps, Do;
    var k := Path(s);
    var x := w.(phase := Holding(k, u, k));
    DoIs(env, s, e, w, Flock(e));
    PutTwice(s, e, w, x);
    OneStep(env, Put(s, e, w), Flock(e), rest, Put(s.(locks := s.locks[k := e]), e, x));
  }

  lemma LockSteps(env: Env, s: State, e: nat, w: Editor, u: string, rest: seq<Action>)
    requires s.files != [] && w.phase == Writing(Path(s), u) && |u| <= MaxPolicyBytes && Path(s) !in s.locks
    requires Accepted(env, Now(s)) && w.kept == Some(Now(s))
    ensures var k := Path(s);
            Steps(env, Put(s, e, w), LockActions(e, rest))
            == Steps(env, Put(s.(locks := s.locks[k := e]), e, w.(phase := Confirmed(k, u, k))), rest)
  {
    hide Accepted, Steps, Do;
    var k := Path(s);
    var s' := s.(locks := s.locks[k := e]);
    var w1, w2, w3 := w.(phase := Opened(k, u, k)), w.(phase := Holding(k, u, k)), w.(phase := Confirmed(k, u, k));
    DoIs(env, s, e, w, Open(e));
    DoIs(env, s', e, w2, Check1(e));
    PutStep(env, s, e, w, Open(e), w1, [Flock(e)] + ([Check1(e)] + rest));
    FlockStep(env, s, e, w1, u, [Check1(e)] + rest);
    PutStep(env, s', e, w2, Check1(e), w3, rest);
  }

  // ----- Replacing -----

  function TempActions(e: nat, temp: Temp, rest: seq<Action>): seq<Action> {
    [MakeTemp(e, temp)] + ([Own(e)] + ([Write(e)] + ([Check2(e)] + rest)))
  }

  function NewFile(s: State, u: string, dev: nat, ino: nat, modified: int): File
    requires s.files != []
  {
    var m := Now(s);
    File(u, Meta(dev, ino, m.uid, m.gid, m.mode, |u|, modified))
  }

  lemma OwnSteps(env: Env, s: State, e: nat, w: Editor, u: string, temp: Temp, rest: seq<Action>)
    requires s.files != [] && w.phase == Confirmed(Path(s), u, Path(s)) && w.kept.Some?
    ensures var k, m := Path(s), w.kept.value;
            Steps(env, Put(s, e, w), [MakeTemp(e, temp)] + ([Own(e)] + rest))
            == Steps(env, Put(s, e, w.(phase := Owned(k, u, k, temp.(uid := m.uid, gid := m.gid, mode := m.mode)))),
                     rest)
  {
    hide Steps, Do;
    var k, m := Path(s), w.kept.value;
    var w1 := w.(phase := Temping(k, u, k, temp));
    DoIs(env, s, e, w, MakeTemp(e, temp));
    DoIs(env, s, e, w1, Own(e));
    PutStep(env, s, e, w, MakeTemp(e, temp), w1, [Own(e)] + rest);
    PutStep(env, s, e, w1, Own(e), w.(phase := Owned(k, u, k, temp.(uid := m.uid, gid := m.gid, mode := m.mode))),
            rest);
  }

  lemma WriteSteps(env: Env, s: State, e: nat, w: Editor, u: string, temp: Temp, rest: seq<Action>)
    requires s.files != [] && w.phase == Owned(Path(s), u, Path(s), temp)
    requires Accepted(env, Now(s)) && w.kept == Some(Now(s))
    ensures var k := Path(s);
            Steps(env, Put(s, e, w), [Write(e)] + ([Check2(e)] + rest))
            == Steps(env, Put(s, e, w.(phase := Rechecked(k, u, k, temp.(bytes := u)))), rest)
  {
    hide Accepted, Steps, Do;
    var k := Path(s);
    var w1 := w.(phase := Written(k, u, k, temp.(bytes := u)));
    DoIs(env, s, e, w, Write(e));
    DoIs(env, s, e, w1, Check2(e));
    PutStep(env, s, e, w, Write(e), w1, [Check2(e)] + rest);
    PutStep(env, s, e, w1, Check2(e), w.(phase := Rechecked(k, u, k, temp.(bytes := u))), rest);
  }

  lemma TempSteps(env: Env, s: State, e: nat, w: Editor, u: string, temp: Temp, rest: seq<Action>)
    requires s.files != [] && w.phase == Confirmed(Path(s), u, Path(s))
    requires Accepted(env, Now(s)) && w.kept == Some(Now(s))
    ensures var k, m := Path(s), Now(s);
            Steps(env, Put(s, e, w), TempActions(e, temp, rest))
            == Steps(env, Put(s, e, w.(phase := Rechecked(k, u, k, Temp(m.uid, m.gid, m.mode, u)))), rest)
  {
    hide Accepted, Steps, Do;
    var k, m := Path(s), Now(s);
    var owned := temp.(uid := m.uid, gid := m.gid, mode := m.mode);
    OwnSteps(env, s, e, w, u, temp, [Write(e)] + ([Check2(e)] + rest));
    WriteSteps(env, s, e, w.(phase := Owned(k, u, k, owned)), u, owned, rest);
  }

  function RenameActions(e: nat, dev: nat, ino: nat, modified: int, rest: seq<Action>): seq<Action> {
    [Rename(e, dev, ino, modified)] + ([SyncPolicy(e, true)] + rest)
  }

  /** The state with one more version. */
  function Replaced(s: State, e: nat, w: Editor, file: File): State
    requires s.files != []
  {
    Put(s, e, w.(phase := Succeeded(Path(s)))).(
      files := s.files + [file], origins := s.origins + [Origin(e, w.edit, w.revision)], locks := s.locks - {Path(s)})
  }

  lemma SameFresh(s: State, t: State, m: Meta)
    requires Fresh(s, m) && t.files == s.files
    ensures Fresh(t, m)
  {
  }

  lemma RenameSteps(env: Env, s: State, e: nat, w: Editor, u: string, dev: nat, ino: nat, modified: int,
                    rest: seq<Action>)
    requires s.files != [] && Fresh(s, NewFile(s, u, dev, ino, modified).meta)
    requires var m := Now(s); w.phase == Rechecked(Path(s), u, Path(s), Temp(m.uid, m.gid, m.mode, u))
    ensures Steps(env, Put(s, e, w), RenameActions(e, dev, ino, modified, rest))
            == Steps(env, Replaced(s, e, w, NewFile(s, u, dev, ino, modified)), rest)
  {
    hide Fresh, Steps, Do;
    var k, file := Path(s), NewFile(s, u, dev, ino, modified);
    var t := s.(files := s.files + [file], origins := s.origins + [Origin(e, w.edit, w.revision)]);
    var w1, w2 := w.(phase := Renamed(k, k)), w.(phase := Succeeded(k));
    PutTwice(s, e, w, w1);
    DoIs(env, s, e, w, Rename(e, dev, ino, modified));
    DoIs(env, t, e, w1, SyncPolicy(e, true));
    SameFresh(s, Put(s, e, w), file.meta);
    OneStep(env, Put(s, e, w), Rename(e, dev, ino, modified), [SyncPolicy(e, true)] + rest, Put(t, e, w1));
    PutTwice(t, e, w1, w2);
    OneStep(env, Put(t, e, w1), SyncPolicy(e, true), rest, Replaced(s, e, w, file));
  }

  lemma Nothing(env: Env, s: State)
    ensures Steps(env, s, []) == Some(s)
  {
  }

  /** The steps of one edit from start to finish. */
  function Whole(e: nat, edit: Edit, revision: string, now: int, temp: Temp, dev: nat, ino: nat, modified: int,
                 rest: seq<Action>): seq<Action>
  {
    ReadActions(e, edit, revision, PublishActions(e, edit, now, LockActions(e, TempActions(e, temp,
      RenameActions(e, dev, ino, modified, rest)))))
  }

  /**
   From any state in which nobody holds the lock of the current policy file, an edit that derives
   new bytes puts exactly these bytes in place, undisturbed and without system call failures. A
   removal whose ID is unbound and whose artifact fits first publishes its artifact.
   */
  lemma EditSucceeds(env: Env, s: State, e: nat, edit: Edit, revision: string, u: string,
                     now: int, temp: Temp, dev: nat, ino: nat, modified: int, rest: seq<Action>)
    requires MayEdit(env, s, e, edit, revision, u) && Path(s) !in s.locks
    requires edit.DropProject? ==> MayPublish(env, s, edit, now, u)
    requires Fresh(s, NewFile(s, u, dev, ino, modified).meta)
    ensures var w := Reader(s, edit, revision, None, Ready);
            var file := NewFile(s, u, dev, ino, modified);
            var t := Replaced(s, e, w, file).(artifacts := PublishedBy(env, s, edit, now, u));
            Steps(env, s, Whole(e, edit, revision, now, temp, dev, ino, modified, rest)) == Steps(env, t, rest)
  {
    hide Derive, MayStart, Accepted, Steps, Fresh, Do, PublishedBy, ReadActions, PublishActions, LockActions,
         TempActions, RenameActions, MayPublish;
    var k, m, file := Path(s), Now(s), NewFile(s, u, dev, ino, modified);
    var r4 := RenameActions(e, dev, ino, modified, rest);
    var r3 := TempActions(e, temp, r4);
    var r2 := LockActions(e, r3);
    var r1 := PublishActions(e, edit, now, r2);
    var w := Reader(s, edit, revision, None, Writing(k, u));
    ReadingSteps(env, s, e, edit, revision, u, r1);
    PublishSteps(env, s, e, edit, revision, now, u, r2);
    var s1 := s.(artifacts := PublishedBy(env, s, edit, now, u));
    LockSteps(env, s1, e, w, u, r3);
    var s2 := s1.(locks := s1.locks[k := e]);
    var w2 := w.(phase := Confirmed(k, u, k));
    TempSteps(env, s2, e, w2, u, temp, r4);
    SameFresh(s, s2, file.meta);
    var w3 := w2.(phase := Rechecked(k, u, k, Temp(m.uid, m.gid, m.mode, u)));
    RenameSteps(env, s2, e, w3, u, dev, ino, modified, rest);
    ReplacedSame(s, s2, e, w3, file);
  }

  lemma ReplacedSame(s: State, s2: State, e: nat, w: Editor, file: File)
    requires s.files != [] && Path(s) !in s.locks && s2 == s.(artifacts := s2.artifacts, locks := s.locks[Path(s) := e])
    ensures Replaced(s2, e, w, file) == Replaced(s, e, w.(phase := Ready), file).(artifacts := s2.artifacts)
  {
    assert s.locks[Path(s) := e] - {Path(s)} == s.locks - {Path(s)};
  }

  // ----- Removing and restoring -----

  lemma CurrentIsReadable(env: Env, s: State)
    requires Inv(env, s)
    ensures s.files != [] && Accepted(env, Now(s))
    ensures forall k :: 0 <= k < |s.files| ==> |s.files[k].bytes| <= MaxPolicyBytes
  {
    hide ChainOk, LocksOk, EditorsOk, MakersOk, Accepted, ReadPolicy;
    assert SameOwner(s.files[Path(s)].meta, s.files[0].meta);
    SameOwnerAccepted(env, s.files[Path(s)].meta, s.files[0].meta);
    forall k | 0 <= k < |s.files| ensures |s.files[k].bytes| <= MaxPolicyBytes {
      assert Sound(env.f, s.files[k].bytes);
    }
  }

  /** The removal of a project from the current policy, with an unbound ID and the lock free. */
  predicate Removing(env: Env, t: State, e: nat, edit: Edit, revision: string, u: string) {
    && t.files != [] && e !in t.editors && Path(t) !in t.locks
    && edit.DropProject? && edit.recoveryId !in t.artifacts && |u| <= MaxPolicyBytes
    && Derive(env.f, revision, edit, t.files[Path(t)].bytes) == Replace(u)
  }

  /**
   In any run: when the lock of the policy is free, a removal with an unbound ID that derives new
   bytes and whose artifact fits publishes the artifact, replaces the policy and succeeds.
   */
  lemma RemovalSucceeds(env: Env, s: State, actions: seq<Action>, e: nat, edit: Edit, revision: string, u: string,
                        now: int, temp: Temp, dev: nat, ino: nat, modified: int)
    requires Initial(env, s) && Run(env, s, actions).Some?
    requires Removing(env, Run(env, s, actions).value, e, edit, revision, u)
    requires var t := Run(env, s, actions).value;
             && Fits(env, ArtifactOf(env, edit, now, t.files[Path(t)].bytes, u))
             && Fresh(t, NewFile(t, u, dev, ino, modified).meta)
    ensures var t := Run(env, s, actions).value;
            var r := Run(env, s, actions + Whole(e, edit, revision, now, temp, dev, ino, modified, []));
            && r.Some? && r.value.files == t.files + [NewFile(t, u, dev, ino, modified)]
            && r.value.origins == t.origins + [Origin(e, edit, revision)]
            && r.value.artifacts
               == t.artifacts[edit.recoveryId := ArtifactOf(env, edit, now, t.files[Path(t)].bytes, u)]
            && e in r.value.editors && r.value.editors[e].phase == Succeeded(Path(t))
  {
    hide Run, Initial, Derive, Steps, Whole, Accepted, Inv, Fresh, MakeArtifact, Fits;
    var t := Run(env, s, actions).value;
    RunKeeps(env, s, actions);
    CurrentIsReadable(env, t);
    EditSucceeds(env, t, e, edit, revision, u, now, temp, dev, ino, modified, []);
    StepsAreRuns(env, s, actions, Whole(e, edit, revision, now, temp, dev, ino, modified, []));
    var w := Reader(t, edit, revision, None, Ready);
    Nothing(env, Replaced(t, e, w, NewFile(t, u, dev, ino, modified)).(artifacts := PublishedBy(env, t, edit, now, u)));
  }

  lemma RefusedStep(env: Env, s: State, e: nat, edit: Edit, revision: string, now: int, u: string)
    requires s.files != [] && edit.DropProject? && edit.recoveryId !in s.artifacts
    requires !Fits(env, ArtifactOf(env, edit, now, s.files[Path(s)].bytes, u))
    ensures Steps(env, Put(s, e, Reader(s, edit, revision, None, Linking(Path(s), u))), [Link(e, now)] + [])
            == Some(Put(s, e, Reader(s, edit, revision, None, PublishFailed)))
  {
    hide Steps, Do, MakeArtifact, Fits;
    var w := Reader(s, edit, revision, None, Linking(Path(s), u));
    var x := Reader(s, edit, revision, None, PublishFailed);
    DoIs(env, s, e, w, Link(e, now));
    PutStep(env, s, e, w, Link(e, now), x, []);
    Nothing(env, Put(s, e, x));
  }

  /**
   The same removal with an artifact that does not fit: no system call fails, and still the
   publication is refused. Policy and artifacts stay as they were.
   */
  lemma RemovalTooLarge(env: Env, s: State, actions: seq<Action>, e: nat, edit: Edit, revision: string, u: string,
                        now: int)
    requires Initial(env, s) && Run(env, s, actions).Some?
    requires Removing(env, Run(env, s, actions).value, e, edit, revision, u)
    requires var t := Run(env, s, actions).value;
             !Fits(env, ArtifactOf(env, edit, now, t.files[Path(t)].bytes, u))
    ensures var t := Run(env, s, actions).value;
            Run(env, s, actions + ReadActions(e, edit, revision, [Link(e, now)] + []))
            == Some(Put(t, e, Reader(t, edit, revision, None, PublishFailed)))
  {
    hide Run, Initial, Derive, Steps, Accepted, Inv, MakeArtifact, Fits, ReadActions;
    var t := Run(env, s, actions).value;
    RunKeeps(env, s, actions);
    CurrentIsReadable(env, t);
    ReadingSteps(env, t, e, edit, revision, u, [Link(e, now)] + []);
    RefusedStep(env, t, e, edit, revision, now, u);
    StepsAreRuns(env, s, actions, ReadActions(e, edit, revision, [Link(e, now)] + []));
  }

  /**
   In any careful run: if the last accepted edit removed a project, the lock of the policy is free
   and no system call fails, then restoring with the artifact under its ID succeeds and the policy
   is, byte for byte, what it was before the removal.
   */
  lemma RestoreSucceeds(env: Env, s: State, actions: seq<Action>, k: nat, e: nat, temp: Temp, dev: nat, ino: nat,
                        modified: int)
    requires Initial(env, s) && Run(env, s, actions).Some? && Careful(env, s, actions) && DigestLaw(env.f)
    requires k + 1 == |Run(env, s, actions).value.origins| && Run(env, s, actions).value.origins[k].edit.DropProject?
    requires var t := Run(env, s, actions).value;
             && e !in t.editors && |t.files| == k + 2 && (k + 1) !in t.locks
             && Fresh(t, NewFile(t, t.files[k].bytes, dev, ino, modified).meta)
    ensures var t := Run(env, s, actions).value;
            var drop := t.origins[k].edit;
            && drop.recoveryId in t.artifacts
            && var edit := Restore(t.artifacts[drop.recoveryId], drop.alias);
               var r := Run(env, s, actions + Whole(e, edit, "", 0, temp, dev, ino, modified, []));
               && r.Some? && |r.value.files| == k + 3 && r.value.files[k + 2].bytes == t.files[k].bytes
               && e in r.value.editors && r.value.editors[e].phase == Succeeded(k + 1)
  {
    hide Run, Initial, Derive, Steps, Whole, Accepted, DigestLaw, Inv, Fresh, Careful, Fits;
    var t := Run(env, s, actions).value;
    var drop := t.origins[k].edit;
    RunKeeps(env, s, actions);
    CurrentIsReadable(env, t);
    RemovalCanBeUndone(env, s, actions, k);
    RemovalsRecorded(env, s, actions, k);
    var edit := Restore(t.artifacts[drop.recoveryId], drop.alias);
    EditSucceeds(env, t, e, edit, "", t.files[k].bytes, 0, temp, dev, ino, modified, []);
    StepsAreRuns(env, s, actions, Whole(e, edit, "", 0, temp, dev, ino, modified, []));
    var w := Reader(t, edit, "", None, Ready);
    var file := NewFile(t, t.files[k].bytes, dev, ino, modified);
    Nothing(env, Replaced(t, e, w, file).(artifacts := PublishedBy(env, t, edit, 0, t.files[k].bytes)));
  }

  // ----- A run that is not careful -----

  /** Link, then the directory sync fails and the final name is removed for the first time. */
  function RollbackActions(e: nat, now: int, rest: seq<Action>): seq<Action> {
    [Link(e, now)] + ([Cleanup(e, true)] + ([SyncRecovery(e, false)] + rest))
  }

  lemma RollbackSteps(env: Env, s: State, e: nat, edit: Edit, revision: string, now: int, u: string, rest: seq<Action>)
    requires s.files != [] && edit.DropProject? && MayPublish(env, s, edit, now, u)
    ensures Steps(env, Put(s, e, Reader(s, edit, revision, None, Linking(Path(s), u))), RollbackActions(e, now, rest))
            == Steps(env, Put(s, e, Reader(s, edit, revision, None, Unlinked)), rest)
  {
    hide Steps, Do, MakeArtifact, Fits;
    var k := Path(s);
    var t := s.(artifacts := PublishedBy(env, s, edit, now, u));
    var w1, w2 := Reader(s, edit, revision, None, Linked(k, u)), Reader(s, edit, revision, None, Cleaned(k, u));
    var w3 := Reader(s, edit, revision, None, Unlinked);
    LinkStep(env, s, e, edit, revision, now, u, [Cleanup(e, true)] + ([SyncRecovery(e, false)] + rest));
    DoIs(env, t, e, w1, Cleanup(e, true));
    DoIs(env, t, e, w2, SyncRecovery(e, false));
    PutStep(env, t, e, w1, Cleanup(e, true), w2, [SyncRecovery(e, false)] + rest);
    PutTwice(t, e, w2, w3);
    assert s.artifacts[edit.recoveryId := ArtifactOf(env, edit, now, s.files[k].bytes, u)] - {edit.recoveryId}
           == s.artifacts;
    OneStep(env, Put(t, e, w2), SyncRecovery(e, false), rest, Put(s, e, w3));
  }

  lemma UnlinkStep(env: Env, s: State, e: nat, rest: seq<Action>)
    requires s.files != [] && e in s.editors && s.editors[e].phase.Unlinked? && s.editors[e].edit.DropProject?
    ensures Steps(env, s, [Unlink(e)] + rest)
            == Steps(env, Move(s, e, PublishFailed).(artifacts := s.artifacts - {s.editors[e].edit.recoveryId}), rest)
  {
    hide Steps, Do;
    UnlinkIs(env, s, e);
    OneStep(env, s, Unlink(e), rest,
            Move(s, e, PublishFailed).(artifacts := s.artifacts - {s.editors[e].edit.recoveryId}));
  }

  lemma UnlinkIs(env: Env, s: State, e: nat)
    requires s.files != [] && e in s.editors && s.editors[e].phase.Unlinked? && s.editors[e].edit.DropProject?
    ensures Do(env, s, Unlink(e))
            == Some(Move(s, e, PublishFailed).(artifacts := s.artifacts - {s.editors[e].edit.recoveryId}))
  {
  }

  /** A's failed publication around B's successful removal with the same ID. */
  function Colliding(a: nat, b: nat, edit: Edit, now: int, temp: Temp, dev: nat, ino: nat, modified: int): seq<Action> {
    ReadActions(a, edit, "",
                RollbackActions(a, now, Whole(b, edit, "", now, temp, dev, ino, modified, [Unlink(a)] + [])))
  }

  /**
   Without care the property fails: A links, fails to sync and removes the name; B links the same
   ID and its removal succeeds; then A's deferred removal deletes B's artifact. The policy B made
   has no artifact.
   */
  lemma ArtifactLost(env: Env, s: State, a: nat, b: nat, edit: Edit, u: string, now: int, temp: Temp, dev: nat,
                     ino: nat, modified: int)
    requires Initial(env, s) && a != b && edit.DropProject? && edit.recoveryId !in s.artifacts && |u| <= MaxPolicyBytes
    requires Derive(env.f, "", edit, s.files[0].bytes) == Replace(u)
    requires Fits(env, ArtifactOf(env, edit, now, s.files[0].bytes, u))
    requires Fresh(s, NewFile(s, u, dev, ino, modified).meta)
    ensures var r := Run(env, s, Colliding(a, b, edit, now, temp, dev, ino, modified));
            && r.Some? && |r.value.files| == 2 && r.value.files[1].bytes == u
            && r.value.origins == [Origin(b, edit, "")] && b in r.value.editors
            && r.value.editors[b].phase == Succeeded(0)
            && edit.recoveryId !in r.value.artifacts
            && !Careful(env, s, Colliding(a, b, edit, now, temp, dev, ino, modified))
  {
    hide Derive, Steps, Run, Whole, ReadActions, RollbackActions, Accepted, Fresh, MakeArtifact, Do, Careful, Fits;
    var all := Colliding(a, b, edit, now, temp, dev, ino, modified);
    StartReadable(env, s);
    ReadingSteps(env, s, a, edit, "", u,
                 RollbackActions(a, now, Whole(b, edit, "", now, temp, dev, ino, modified, [Unlink(a)] + [])));
    RollbackSteps(env, s, a, edit, "", now, u, Whole(b, edit, "", now, temp, dev, ino, modified, [Unlink(a)] + []));
    var s1 := Put(s, a, Reader(s, edit, "", None, Unlinked));
    SameFresh(s, s1, NewFile(s, u, dev, ino, modified).meta);
    EditSucceeds(env, s1, b, edit, "", u, now, temp, dev, ino, modified, [Unlink(a)] + []);
    var w := Reader(s1, edit, "", None, Ready);
    var file := NewFile(s1, u, dev, ino, modified);
    var s2 := Replaced(s1, b, w, file).(artifacts := PublishedBy(env, s1, edit, now, u));
    UnlinkStep(env, s2, a, []);
    var s3 := Move(s2, a, PublishFailed).(artifacts := s2.artifacts - {edit.recoveryId});
    Nothing(env, s3);
    NoSteps(env, s);
    StepsAreRuns(env, s, [], all);
    assert [] + all == all;
    if Careful(env, s, all) { RemovalsRecorded(env, s, all, 0); }
  }

  lemma NoSteps(env: Env, s: State)
    ensures Run(env, s, []) == Some(s)
  {
  }

  lemma StartReadable(env: Env, s: State)
    requires Initial(env, s)
    ensures s.files != [] && Accepted(env, Now(s)) && |s.files[0].bytes| <= MaxPolicyBytes
    ensures Path(s) == 0 && s.locks == map[] && s.editors == map[] && s.origins == []
  {
    hide ReadPolicy;
  }
}
