/**
 The editors of internal/admin/policy.go beside somebody who replaces the policy without their
 protocol, at any moment and with any bytes: no lock, no recheck. The second recheck of
 `writeAtomic` narrows what can then go wrong to the window between it and the rename.
 */
module Outsiders {
  import opened Basics
  import opened Edits
  import opened EditorMachine

  datatype Step = Protocol(a: Action) | Outside(file: File)

  function DoStep(env: Env, s: State, x: Step): Option<State> {
    match x
    case Protocol(a) => Do(env, s, a)
    case Outside(file) => if Fresh(s, file.meta) then Some(s.(files := s.files + [file])) else None
  }

  function RunAll(env: Env, s: State, steps: seq<Step>): Option<State> {
    if steps == [] then Some(s)
    else match RunAll(env, s, steps[..|steps| - 1])
      case None => None
      case Some(mid) => DoStep(env, mid, steps[|steps| - 1])
  }

  /** Some editor is between its second recheck and its rename. */
  predicate Window(s: State) { exists e :: e in s.editors && s.editors[e].phase.Rechecked? }

  /** Nobody acts from outside in such a window. */
  predicate Quiet(env: Env, s: State, steps: seq<Step>) {
    forall k :: 0 <= k < |steps| && steps[k].Outside? ==>
      RunAll(env, s, steps[..k]).Some? ==> !Window(RunAll(env, s, steps[..k]).value)
  }

  // ----- What every quiet step keeps -----

  predicate Distinct(files: seq<File>) { forall j, k :: 0 <= j < k < |files| ==> files[j].meta != files[k].meta }

  predicate Small(files: seq<File>, src: nat) { src < |files| && |files[src].bytes| <= MaxPolicyBytes }

  /** What an editor can still rely on. */
  predicate Mind(files: seq<File>, kept: Option<Meta>, p: Phase) {
    match p
    case Stated(before) => SeenBy(files, before, |files| - 1)
    case HaveBytes(before, src) => SeenBy(files, before, src) && Small(files, src)
    case HavePolicy(src) => Basis(files, kept, src) && Small(files, src)
    case Opened(src, _, target) => src <= target < |files|
    case Holding(src, _, target) => src <= target < |files|
    case Confirmed(src, _, target) => src == target
    case Temping(src, _, target, _) => src == target
    case Owned(src, _, target, _) => src == target
    case Written(src, u, target, temp) => src == target && temp.bytes == u
    case Rechecked(src, u, target, temp) => src == target && temp.bytes == u && src + 1 == |files|
    case _ => true
  }

  predicate MindOk(env: Env, files: seq<File>, w: Editor) {
    && Mind(files, w.kept, w.phase)
    && (Wants(w.phase).Some? ==>
          Small(files, Wants(w.phase).value.0)
          && Wanted(env, files, w.kept, w.revision, w.edit, Wants(w.phase).value.0, Wants(w.phase).value.1))
    && (w.phase.Rechecked? ==> files != [] && Accepted(env, files[|files| - 1].meta))
  }

  predicate Minds(env: Env, s: State) { forall e :: e in s.editors ==> MindOk(env, s.files, s.editors[e]) }

  predicate Orderly(env: Env, s: State) { s.files != [] && Distinct(s.files) && LocksOk(s) && Minds(env, s) }

  lemma Growing(files: seq<File>, file: File, m: Meta, last: int)
    requires SeenBy(files, m, last)
    ensures SeenBy(files + [file], m, last) && SeenBy(files + [file], m, |files|)
  {
    var j :| 0 <= j <= last < |files| && files[j].meta == m;
    assert (files + [file])[j] == files[j];
  }

  lemma MindGrows(env: Env, files: seq<File>, file: File, w: Editor)
    requires MindOk(env, files, w) && !w.phase.Rechecked?
    ensures MindOk(env, files + [file], w)
  {
    hide SeenBy, Derive;
    match w.phase
    case Stated(before) => Growing(files, file, before, |files| - 1);
    case HaveBytes(before, src) => Growing(files, file, before, src);
    case _ =>
  }

  lemma DistinctGrows(s: State, file: File)
    requires Distinct(s.files) && Fresh(s, file.meta)
    ensures Distinct(s.files + [file])
  {
  }

  lemma OutsideKeeps(env: Env, s: State, file: File)
    requires Orderly(env, s) && Fresh(s, file.meta) && !Window(s)
    ensures Orderly(env, s.(files := s.files + [file]))
  {
    hide MindOk, Distinct, Fresh, LocksOk;
    var s' := s.(files := s.files + [file]);
    DistinctGrows(s, file);
    assert LocksOk(s') by { SameLocks(s, s'); }
    forall e | e in s'.editors ensures MindOk(env, s'.files, s'.editors[e]) {
      MindGrows(env, s.files, file, s.editors[e]);
    }
  }

  lemma SameLocks(s: State, s': State)
    requires LocksOk(s) && s'.locks == s.locks && s'.editors == s.editors
    ensures LocksOk(s')
  {
    hide LockOf;
  }

  /** A step that changes one editor and no file. */
  lemma OneKeeps(env: Env, s: State, s': State, e: nat)
    requires Orderly(env, s) && Others(s, s', e) && s'.files == s.files && LocksOk(s')
    requires MindOk(env, s'.files, s'.editors[e])
    ensures Orderly(env, s')
  {
    hide MindOk, LocksOk, Distinct;
    forall x | x in s'.editors ensures MindOk(env, s'.files, s'.editors[x]) {
      if x != e { assert s'.editors[x] == s.editors[x]; }
    }
  }

  lemma StartOrderly(env: Env, s: State, e: nat, edit: Edit, revision: string)
    requires Orderly(env, s) && e !in s.editors
    ensures Orderly(env, Put(s, e, Editor(edit, revision, None, None, Ready)))
  {
    hide Distinct, LockOf;
    var w := Editor(edit, revision, None, None, Ready);
    var s' := Put(s, e, w);
    ReadyOk(env, s.files, w);
    assert MindOk(env, s.files, w);
    hide MindOk;
    forall k | k in s'.locks ensures s'.locks[k] in s'.editors && LockOf(s'.editors[s'.locks[k]].phase) == Some(k) {
      assert LockOf(s.editors[s.locks[k]].phase) == Some(k);
    }
  }

  /** Distinct identities: one seen earlier that is there again belongs to the current file. */
  lemma SeenIsLast(files: seq<File>, m: Meta, last: nat)
    requires Distinct(files) && SeenBy(files, m, last) && files != [] && files[|files| - 1].meta == m
    ensures last + 1 == |files|
  {
    var j :| 0 <= j <= last < |files| && files[j].meta == m;
  }

  lemma NowSeen(s: State)
    requires s.files != []
    ensures SeenBy(s.files, Now(s), |s.files| - 1)
  {
    assert s.files[|s.files| - 1].meta == Now(s);
  }

  lemma ReadMind(env: Env, s: State, a: Action, e: nat, s': State)
    requires Orderly(env, s) && ReadAction(a) && e in s.editors && DoRead(env, s, a, e, s.editors[e]) == Some(s')
    ensures e in s'.editors && MindOk(env, s.files, s'.editors[e])
    ensures LockOf(s'.editors[e].phase).None? && LockOf(s.editors[e].phase).None?
  {
    hide Orderly, MindOk, DoRead, LockOf;
    if a.Stat2? { SandwichMind(env, s, a, e, s'); } else { FetchMind(env, s, a, e, s'); }
  }

  /** The lstat after the read finds the identity of the one before it. */
  lemma SandwichMind(env: Env, s: State, a: Action, e: nat, s': State)
    requires Orderly(env, s) && a.Stat2? && e in s.editors && DoRead(env, s, a, e, s.editors[e]) == Some(s')
    ensures e in s'.editors && MindOk(env, s.files, s'.editors[e])
    ensures LockOf(s'.editors[e].phase).None? && LockOf(s.editors[e].phase).None?
  {
    hide Derive, SeenBy, LocksOk, Accepted, Distinct;
    var w := s.editors[e];
    assert MindOk(env, s.files, w);
    SeenIsLast(s.files, w.phase.before, w.phase.src);
  }

  lemma FetchMind(env: Env, s: State, a: Action, e: nat, s': State)
    requires Orderly(env, s) && ReadAction(a) && !a.Stat2?
    requires e in s.editors && DoRead(env, s, a, e, s.editors[e]) == Some(s')
    ensures e in s'.editors && MindOk(env, s.files, s'.editors[e])
    ensures LockOf(s'.editors[e].phase).None? && LockOf(s.editors[e].phase).None?
  {
    hide Derive, SeenBy, LocksOk, Accepted, Distinct, SameFile;
    assert MindOk(env, s.files, s.editors[e]);
    NowSeen(s);
  }

  lemma PublishMind(env: Env, s: State, a: Action, e: nat, s': State)
    requires Orderly(env, s) && e in s.editors && DoPublish(env, s, a, e, s.editors[e]) == Some(s')
    ensures e in s'.editors && MindOk(env, s.files, s'.editors[e])
    ensures LockOf(s'.editors[e].phase).None? && LockOf(s.editors[e].phase).None?
  {
    assert MindOk(env, s.files, s.editors[e]);
    PublishFrame(env, s, a, e, s');
    PublishWants(env, s, a, e, s');
    hide *;
    SameMind(env, s.files, s.editors[e], s'.editors[e]);
  }

  lemma PublishWants(env: Env, s: State, a: Action, e: nat, s': State)
    requires s.files != [] && e in s.editors && DoPublish(env, s, a, e, s.editors[e]) == Some(s')
    ensures var p, q := s.editors[e].phase, s'.editors[e].phase;
            && Wants(q) in {None, Wants(p)} && LockOf(p).None? && LockOf(q).None?
            && (q.PublishFailed? || q.Linked? || q.Cleaned? || q.Unlinked? || q.Writing?)
  {
    hide Bind, Unbind, Lookup, ArtifactOf, Fits;
  }

  lemma SameMind(env: Env, files: seq<File>, w: Editor, w': Editor)
    requires MindOk(env, files, w) && Wants(w'.phase) in {None, Wants(w.phase)}
    requires w'.(found := None, phase := Ready) == w.(found := None, phase := Ready)
    requires w'.phase.PublishFailed? || w'.phase.Linked? || w'.phase.Cleaned? || w'.phase.Unlinked? || w'.phase.Writing?
    ensures MindOk(env, files, w')
  {
    hide Wanted, Small, SeenBy;
  }

  lemma CurrentAgain(env: Env, s: State, w: Editor, src: nat)
    requires s.files != [] && Distinct(s.files) && Basis(s.files, w.kept, src) && SameFile(env, s, w.kept)
    ensures src + 1 == |s.files|
  {
    assert SeenBy(s.files, s.files[src].meta, src);
    SeenIsLast(s.files, s.files[src].meta, src);
  }

  lemma LockMind(env: Env, s: State, a: Action, e: nat, s': State)
    requires Orderly(env, s) && e in s.editors && DoLock(env, s, a, e, s.editors[e]) == Some(s')
    ensures e in s'.editors && MindOk(env, s.files, s'.editors[e])
  {
    hide Derive, Accepted, SameFile, SeenBy, LocksOk, Distinct;
    assert MindOk(env, s.files, s.editors[e]);
    if a.Check1? { CurrentAgain(env, s, s.editors[e], s.editors[e].phase.src); }
  }

  lemma TempMind(env: Env, s: State, a: Action, e: nat, s': State)
    requires Orderly(env, s) && e in s.editors && DoTemp(env, s, a, e, s.editors[e]) == Some(s')
    ensures e in s'.editors && MindOk(env, s.files, s'.editors[e])
    ensures LockOf(s'.editors[e].phase) == LockOf(s.editors[e].phase)
  {
    hide Orderly, MindOk, DoTemp, LockOf;
    if a.Check2? { RecheckMind(env, s, a, e, s'); } else { PrepareMind(env, s, a, e, s'); }
  }

  lemma PrepareMind(env: Env, s: State, a: Action, e: nat, s': State)
    requires Orderly(env, s) && e in s.editors && DoTemp(env, s, a, e, s.editors[e]) == Some(s') && !a.Check2?
    ensures e in s'.editors && MindOk(env, s.files, s'.editors[e])
    ensures LockOf(s'.editors[e].phase) == LockOf(s.editors[e].phase)
  {
    hide Wanted, Accepted, SeenBy, LocksOk, Distinct, Small, SameFile;
    assert MindOk(env, s.files, s.editors[e]);
  }

  /** The second recheck finds the file that was read at the path. */
  lemma RecheckMind(env: Env, s: State, a: Action, e: nat, s': State)
    requires Orderly(env, s) && e in s.editors && DoTemp(env, s, a, e, s.editors[e]) == Some(s') && a.Check2?
    ensures e in s'.editors && MindOk(env, s.files, s'.editors[e])
    ensures LockOf(s'.editors[e].phase) == LockOf(s.editors[e].phase)
  {
    hide Derive, Accepted, SeenBy, LocksOk, Distinct;
    assert MindOk(env, s.files, s.editors[e]);
    CurrentAgain(env, s, s.editors[e], s.editors[e].phase.src);
  }

  lemma ReadFrame(env: Env, s: State, a: Action, e: nat, s': State)
    requires s.files != [] && e in s.editors
    requires DoRead(env, s, a, e, s.editors[e]) == Some(s')
    ensures Others(s, s', e) && s' == s.(editors := s'.editors)
  {
    hide Derive, Accepted, SameFile;
  }

  lemma TempFrame(env: Env, s: State, a: Action, e: nat, s': State)
    requires s.files != [] && e in s.editors && DoTemp(env, s, a, e, s.editors[e]) == Some(s')
    ensures Others(s, s', e) && s' == s.(editors := s'.editors)
  {
    hide SameFile;
  }

  lemma LockFrame(env: Env, s: State, a: Action, e: nat, s': State)
    requires s.files != [] && e in s.editors && LocksOk(s) && DoLock(env, s, a, e, s.editors[e]) == Some(s')
    ensures Others(s, s', e) && s' == s.(editors := s'.editors, locks := s'.locks) && LocksOk(s')
  {
    hide Derive, Accepted, SameFile, LocksOk;
    if s'.editors[e].phase.Holding? {
      LocksTaken(s, s', e, s'.editors[e].phase.target);
    } else {
      LocksStay(s, s', e);
    }
  }

  lemma QuietlyKeeps(env: Env, s: State, a: Action, e: nat, s': State)
    requires Orderly(env, s) && Do(env, s, a) == Some(s') && a.e == e && e in s.editors
    requires ReadAction(a) || PublishAction(a) || LockAction(a) || TempAction(a)
    ensures Orderly(env, s')
  {
    hide DoRead, DoPublish, DoLock, DoTemp, MindOk, LocksOk, LockOf, Distinct, Minds;
    if ReadAction(a) {
      ReadMind(env, s, a, e, s');
      ReadFrame(env, s, a, e, s');
      LocksStay(s, s', e);
    } else if PublishAction(a) {
      PublishMind(env, s, a, e, s');
      PublishFrame(env, s, a, e, s');
      LocksStay(s, s', e);
    } else if LockAction(a) {
      LockMind(env, s, a, e, s');
      LockFrame(env, s, a, e, s');
    } else {
      TempMind(env, s, a, e, s');
      TempFrame(env, s, a, e, s');
      LocksStay(s, s', e);
    }
    OneKeeps(env, s, s', e);
  }

  lemma StopOrderly(env: Env, s: State, e: nat, w: Editor)
    requires Orderly(env, s) && e in s.editors && Final(w.phase)
    ensures Orderly(env, Stop(s, e, w))
  {
    assert MindOk(env, s.files, w) && LockOf(w.phase).None?;
    hide MindOk, LocksOk, LockOf, Distinct;
    LocksReleased(s, Stop(s, e, w), e);
    OneKeeps(env, s, Stop(s, e, w), e);
  }

  /** The lock of the current file admits one editor to the window. */
  lemma OneInWindow(env: Env, s: State, x: nat, y: nat)
    requires Orderly(env, s) && x in s.editors && s.editors[x].phase.Rechecked?
    requires y in s.editors && s.editors[y].phase.Rechecked?
    ensures x == y
  {
    hide Wanted, Distinct;
    assert MindOk(env, s.files, s.editors[x]) && MindOk(env, s.files, s.editors[y]);
    LockHolder(s, x, y);
  }

  lemma RenameOrderly(env: Env, s: State, e: nat, a: Action)
    requires Orderly(env, s) && e in s.editors && a.Rename? && a.e == e && s.editors[e].phase.Rechecked?
    requires Fresh(s, NewMeta(s.editors[e].phase.temp, a))
    ensures Do(env, s, a).Some? && Orderly(env, Do(env, s, a).value)
  {
    hide Derive, MindOk, Fresh, LocksOk, Distinct;
    var p := s.editors[e].phase;
    var file := File(p.temp.bytes, NewMeta(p.temp, a));
    var s' := DoReplace(env, s, a, e, s.editors[e]).value;
    DistinctGrows(s, file);
    LocksStay(s, s', e);
    assert MindOk(env, s'.files, s'.editors[e]) by { RenamedMind(env, s'.files, s'.editors[e]); }
    forall x | x in s'.editors ensures MindOk(env, s'.files, s'.editors[x]) {
      if x != e {
        if s.editors[x].phase.Rechecked? { OneInWindow(env, s, x, e); }
        MindGrows(env, s.files, file, s.editors[x]);
      }
    }
  }

  lemma RenamedMind(env: Env, files: seq<File>, w: Editor)
    requires w.phase.Renamed?
    ensures MindOk(env, files, w)
  {
  }

  lemma DoOrderly(env: Env, s: State, a: Action)
    requires Orderly(env, s) && Do(env, s, a).Some?
    ensures Orderly(env, Do(env, s, a).value)
  {
    hide Orderly, DoRead, DoPublish, DoLock, DoTemp, MayStart, Fresh, Derive;
    if a.Start? {
      NotYet(env, s, a.e, a.edit);
      StartOrderly(env, s, a.e, a.edit, a.revision);
    } else if ReadAction(a) || PublishAction(a) || LockAction(a) || TempAction(a) {
      QuietlyKeeps(env, s, a, a.e, Do(env, s, a).value);
    } else if a.Rename? {
      RenameOrderly(env, s, a.e, a);
    } else {
      EndOrderly(env, s, a, a.e, Do(env, s, a).value);
    }
  }

  lemma EndOrderly(env: Env, s: State, a: Action, e: nat, s': State)
    requires Orderly(env, s) && e in s.editors && s.files != []
    requires DoStop(s, a, e, s.editors[e]) == Some(s')
             || (a.SyncPolicy? && DoReplace(env, s, a, e, s.editors[e]) == Some(s'))
    ensures Orderly(env, s')
  {
    hide Orderly, Lookup, Fresh;
    StopOrderly(env, s, e, s'.editors[e]);
  }

  lemma InitialOrderly(env: Env, s: State)
    requires Initial(env, s)
    ensures Orderly(env, s)
  {
  }

  lemma {:induction false} RunOrderly(env: Env, s: State, steps: seq<Step>)
    requires Initial(env, s) && RunAll(env, s, steps).Some? && Quiet(env, s, steps)
    ensures Orderly(env, RunAll(env, s, steps).value)
  {
    hide Orderly, Do, Initial, Window;
    if steps == [] {
      InitialOrderly(env, s);
    } else {
      var n := |steps| - 1;
      QuietBefore(env, s, steps, n);
      RunOrderly(env, s, steps[..n]);
      var mid := RunAll(env, s, steps[..n]).value;
      match steps[n]
      case Protocol(a) => DoOrderly(env, mid, a);
      case Outside(file) => OutsideKeeps(env, mid, file);
    }
  }

  lemma QuietBefore(env: Env, s: State, steps: seq<Step>, n: nat)
    requires Quiet(env, s, steps) && n <= |steps|
    ensures Quiet(env, s, steps[..n])
  {
    hide RunAll, Window;
    forall k | 0 <= k < n && steps[..n][k].Outside?
      ensures RunAll(env, s, steps[..n][..k]).Some? ==> !Window(RunAll(env, s, steps[..n][..k]).value)
    {
      assert steps[..n][..k] == steps[..k];
    }
  }

  lemma {:induction false} RunBefore(env: Env, s: State, steps: seq<Step>, n: nat)
    requires RunAll(env, s, steps).Some? && n <= |steps|
    ensures RunAll(env, s, steps[..n]).Some?
    decreases |steps|
  {
    hide DoStep;
    if n == |steps| {
      assert steps[..n] == steps;
    } else {
      RunBefore(env, s, steps[..|steps| - 1], n);
      assert steps[..|steps| - 1][..n] == steps[..n];
    }
  }

  /** A policy file of the right owner that nobody else may write, of at most 1 MiB. */
  predicate Trusted(env: Env, file: File) {
    && file.meta.uid == env.owner && (file.meta.mode / 16) % 2 == 0 && (file.meta.mode / 2) % 2 == 0
    && |file.bytes| <= 1048576
  }

  /** The rename of an editor puts what its edit makes of the current policy in the place of that policy. */
  predicate Honest(env: Env, s: State, e: nat, t: State) {
    && e in s.editors && s.files != [] && |t.files| == |s.files| + 1 && t.files[..|s.files|] == s.files
    && Trusted(env, s.files[|s.files| - 1])
    && Derive(env.f, s.editors[e].revision, s.editors[e].edit, s.files[|s.files| - 1].bytes)
       == Replace(t.files[|s.files|].bytes)
  }

  lemma RenameHonest(env: Env, s: State, e: nat, a: Action)
    requires Orderly(env, s) && a.Rename? && a.e == e && Do(env, s, a).Some?
    ensures Honest(env, s, e, Do(env, s, a).value)
  {
    hide Derive, Fresh, LocksOk, Distinct;
    assert MindOk(env, s.files, s.editors[e]);
  }

  /**
   Whatever bytes are put at the path from outside, and whenever outside the windows: an edit is
   only ever made of the bytes it replaces, and those are of a trusted file. In particular an
   editor whose policy was replaced before its second recheck does not write.
   */
  lemma OverwritesRead(env: Env, s: State, steps: seq<Step>, k: nat)
    requires Initial(env, s) && RunAll(env, s, steps).Some? && Quiet(env, s, steps)
    requires k < |steps| && steps[k].Protocol? && steps[k].a.Rename?
    ensures RunAll(env, s, steps[..k]).Some? && RunAll(env, s, steps[..k + 1]).Some?
    ensures Honest(env, RunAll(env, s, steps[..k]).value, steps[k].a.e, RunAll(env, s, steps[..k + 1]).value)
  {
    hide Initial, Quiet, Orderly, Do, Honest;
    RunBefore(env, s, steps, k);
    RunBefore(env, s, steps, k + 1);
    QuietBefore(env, s, steps, k);
    RunOrderly(env, s, steps[..k]);
    assert steps[..k + 1][..k] == steps[..k];
    RenameHonest(env, RunAll(env, s, steps[..k]).value, steps[k].a.e, steps[k].a);
  }

  /** Inside a window the rename goes ahead and overwrites what was put there, unread. */
  lemma WindowLoses(env: Env, s: State, steps: seq<Step>, file: File, a: Action)
    requires Initial(env, s) && RunAll(env, s, steps).Some? && Quiet(env, s, steps) && a.Rename?
    requires var t := RunAll(env, s, steps).value;
             && a.e in t.editors && t.editors[a.e].phase.Rechecked? && Fresh(t, file.meta)
             && Fresh(t.(files := t.files + [file]), NewMeta(t.editors[a.e].phase.temp, a))
    ensures var t := RunAll(env, s, steps).value;
            var t' := DoStep(env, t, Outside(file));
            && t.files != [] && t'.Some? && t'.value.files == t.files + [file]
            && var u := DoStep(env, t'.value, Protocol(a));
               && u.Some? && |u.value.files| == |t.files| + 2 && u.value.files[..|t.files| + 1] == t.files + [file]
               && Derive(env.f, t.editors[a.e].revision, t.editors[a.e].edit, t.files[|t.files| - 1].bytes)
                  == Replace(u.value.files[|t.files| + 1].bytes)
  {
    hide Initial, Quiet, RunAll, Derive, Fresh, LocksOk, Distinct;
    RunOrderly(env, s, steps);
    var t := RunAll(env, s, steps).value;
    assert MindOk(env, t.files, t.editors[a.e]);
  }
}
