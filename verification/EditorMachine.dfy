/**
 Any number of administrators editing one policy file: `readPolicy`, `writeAtomic` and
 `lockPolicy` of internal/admin/policy.go and `Publish` of internal/admin/recovery.go, cut
 into the steps between which other processes can run, with a crash possible at every step.

 `files` lists the files that have stood at the policy path, the current one last. Files are
 never written in place, so an editor that has read file number `src` has its bytes.
 Assumed: every file placed at the path has an identity tuple that no earlier one had,
 everybody who writes follows this protocol, and flock is exclusive per file.
 */
module EditorMachine {
  import opened Basics
  import opened Edits
  import C = Config
  import Splice

  datatype Meta = Meta(dev: nat, ino: nat, uid: nat, gid: nat, mode: nat, size: nat, modified: int)

  datatype File = File(bytes: string, meta: Meta)

  datatype Temp = Temp(uid: nat, gid: nat, mode: nat, bytes: string)

  /** How far an editor has come. `src` is the file it read, `u` the bytes it wants to write. */
  datatype Phase =
    | Ready
    | Stated(before: Meta)                        // result of the first lstat
    | HaveBytes(before: Meta, src: nat)           // read file `src`
    | HavePolicy(src: nat)                        // second lstat gave the same identity
    | Linking(src: nat, u: string)                // recovery artifact written to a temporary file
    | Linked(src: nat, u: string)                 // and linked to its final name
    | Cleaned(src: nat, u: string)                // temporary name removed
    | Unlinked                                    // directory sync failed, final name removed once
    | Writing(src: nat, u: string)
    | Opened(src: nat, u: string, target: nat)    // opened file `target` for locking
    | Holding(src: nat, u: string, target: nat)   // and locked it
    | Confirmed(src: nat, u: string, target: nat) // first recheck passed
    | Temping(src: nat, u: string, target: nat, temp: Temp)
    | Owned(src: nat, u: string, target: nat, temp: Temp) // owner and mode copied
    | Written(src: nat, u: string, target: nat, temp: Temp)
    | Rechecked(src: nat, u: string, target: nat, temp: Temp) // second recheck passed
    | Renamed(src: nat, target: nat)              // replaced, directory not yet synced
    | Succeeded(src: nat)
    | NoChange
    | PublishFailed
    | Failed(made: Option<nat>)
    | Crashed(made: Option<nat>)

  /**
   `kept` is the metadata of the second lstat, the only thing both rechecks compare with.
   `found` is what the recovery ID was bound to when the publication tried to link it.
   */
  datatype Editor = Editor(edit: Edit, revision: string, kept: Option<Meta>, found: Option<Artifact>, phase: Phase)

  /** Who produced a version of the policy, and how. */
  datatype Origin = Origin(who: nat, edit: Edit, revision: string)

  datatype State = State(
    files: seq<File>, origins: seq<Origin>, locks: map<nat, nat>,
    artifacts: map<string, Artifact>, editors: map<nat, Editor>)

  /** `stamp` writes a time in UTC as RFC 3339 has it. */
  datatype Env = Env(f: C.Foreign, owner: nat, stamp: int -> string)

  datatype Action =
    | Start(e: nat, edit: Edit, revision: string)
    | Stat1(e: nat) | ReadBytes(e: nat) | Stat2(e: nat) | Compute(e: nat)
    | Link(e: nat, now: int) | Cleanup(e: nat, ok: bool) | SyncRecovery(e: nat, ok: bool) | Unlink(e: nat)
    | Open(e: nat) | Flock(e: nat) | Check1(e: nat)
    | MakeTemp(e: nat, temp: Temp) | Own(e: nat) | Write(e: nat) | Check2(e: nat)
    | Rename(e: nat, dev: nat, ino: nat, modified: int) | SyncPolicy(e: nat, ok: bool)
    | Fail(e: nat) | Crash(e: nat)

  // ----- The protocol -----

  function Path(s: State): nat
    requires s.files != []
  {
    |s.files| - 1
  }

  /** What lstat of the path reports. */
  function Now(s: State): Meta
    requires s.files != []
  {
    s.files[Path(s)].meta
  }

  /** What `metadata` demands of the file at the path. */
  predicate Accepted(env: Env, m: Meta) {
    m.uid == env.owner && (m.mode / 16) % 2 == 0 && (m.mode / 2) % 2 == 0
  }

  /** `metadata` succeeds and `sameFile` finds the given identity. */
  predicate SameFile(env: Env, s: State, m: Option<Meta>)
    requires s.files != []
  {
    Accepted(env, Now(s)) && m == Some(Now(s))
  }

  function Id(edit: Edit): Option<string> {
    match edit case DropProject(_, _, id) => Some(id) case _ => None
  }

  function Lookup(artifacts: map<string, Artifact>, id: Option<string>): Option<Artifact> {
    if id.Some? && id.value in artifacts then Some(artifacts[id.value]) else None
  }

  function Bind(artifacts: map<string, Artifact>, id: Option<string>, a: Artifact): map<string, Artifact> {
    if id.Some? then artifacts[id.value := a] else artifacts
  }

  function Unbind(artifacts: map<string, Artifact>, id: Option<string>): map<string, Artifact> {
    if id.Some? then artifacts - {id.value} else artifacts
  }

  /** The file an editor in this phase holds the lock of. */
  function LockOf(p: Phase): Option<nat> {
    match p
    case Holding(_, _, target) => Some(target)
    case Confirmed(_, _, target) => Some(target)
    case Temping(_, _, target, _) => Some(target)
    case Owned(_, _, target, _) => Some(target)
    case Written(_, _, target, _) => Some(target)
    case Rechecked(_, _, target, _) => Some(target)
    case Renamed(_, target) => Some(target)
    case _ => None
  }

  predicate Final(p: Phase) { p.Succeeded? || p.NoChange? || p.PublishFailed? || p.Failed? || p.Crashed? }

  /** The version an editor has put in place. */
  function Made(p: Phase): Option<nat> {
    match p
    case Renamed(src, _) => Some(src)
    case Succeeded(src) => Some(src)
    case Failed(made) => made
    case Crashed(made) => made
    case _ => None
  }

  function Put(s: State, e: nat, w: Editor): State { s.(editors := s.editors[e := w]) }

  /** A step that only moves the editor on. */
  function Move(s: State, e: nat, p: Phase): State
    requires e in s.editors
  {
    Put(s, e, s.editors[e].(phase := p))
  }

  /** The editor stops: every lock it holds is released. */
  function Stop(s: State, e: nat, w: Editor): State
    requires e in s.editors
  {
    var held := LockOf(s.editors[e].phase);
    Put(s, e, w).(locks := if held.Some? then s.locks - {held.value} else s.locks)
  }

  function Stamp(env: Env, at: Option<int>): string {
    match at case None => "0001-01-01T00:00:00Z" case Some(t) => env.stamp(t)
  }

  /** The encoded artifact is within the limit that both `Publish` and `Read` put on it. */
  predicate Fits(env: Env, a: Artifact) { EncodedSize(Stamp(env, a.createdAt), a) <= MaxArtifactBytes }

  /** A restore starts from an artifact read back from the recovery directory. */
  predicate MayStart(env: Env, s: State, e: nat, edit: Edit) {
    && e !in s.editors
    && (edit.Restore? ==>
          && edit.artifact.recoveryId in s.artifacts && s.artifacts[edit.artifact.recoveryId] == edit.artifact
          && Fits(env, edit.artifact))
  }

  function DoStart(env: Env, s: State, e: nat, edit: Edit, revision: string): Option<State> {
    if !MayStart(env, s, e, edit) then None else Some(Put(s, e, Editor(edit, revision, None, None, Ready)))
  }

  /** readPolicy and the computation of the update. */
  function DoRead(env: Env, s: State, a: Action, e: nat, w: Editor): Option<State>
    requires s.files != [] && e in s.editors && w == s.editors[e]
  {
    var p := w.phase;
    if a.Stat1? && p.Ready? && Accepted(env, Now(s)) then Some(Move(s, e, Stated(Now(s))))
    else if a.ReadBytes? && p.Stated? && |s.files[Path(s)].bytes| <= MaxPolicyBytes then
      Some(Move(s, e, HaveBytes(p.before, Path(s))))
    else if a.Stat2? && p.HaveBytes? && SameFile(env, s, Some(p.before)) then
      Some(Put(s, e, w.(kept := Some(Now(s)), phase := HavePolicy(p.src))))
    else if a.Compute? && p.HavePolicy? && p.src < |s.files| then
      match Derive(env.f, w.revision, w.edit, s.files[p.src].bytes)
      case Refused => Some(Move(s, e, Failed(None)))
      case Unchanged => Some(Move(s, e, NoChange))
      case Replace(u) => Some(Move(s, e, if w.edit.DropProject? then Linking(p.src, u) else Writing(p.src, u)))
    else None
  }

  /** The artifact a removal publishes. */
  function ArtifactOf(env: Env, edit: Edit, now: int, before: string, after: string): Artifact
    requires edit.DropProject?
  {
    MakeArtifact(env.f, edit.recoveryId, now, edit.alias, before, after)
  }

  /** RecoveryStore.Publish: the size check, then from the link on. */
  function DoPublish(env: Env, s: State, a: Action, e: nat, w: Editor): Option<State>
    requires s.files != [] && e in s.editors && w == s.editors[e]
  {
    var p, id := w.phase, Id(w.edit);
    var found := Lookup(s.artifacts, id);
    if a.Link? && p.Linking? && p.src < |s.files| && w.edit.DropProject? then
      var artifact := ArtifactOf(env, w.edit, a.now, s.files[p.src].bytes, p.u);
      if !Fits(env, artifact) || found.Some? then Some(Put(s, e, w.(found := found, phase := PublishFailed)))
      else
        Some(Put(s, e, w.(found := found, phase := Linked(p.src, p.u))).(artifacts := Bind(s.artifacts, id, artifact)))
    else if a.Cleanup? && p.Linked? then
      if a.ok then Some(Move(s, e, Cleaned(p.src, p.u)))
      else Some(Move(s, e, PublishFailed).(artifacts := Unbind(s.artifacts, id)))
    else if a.SyncRecovery? && p.Cleaned? then
      if a.ok then Some(Move(s, e, Writing(p.src, p.u)))
      else Some(Move(s, e, Unlinked).(artifacts := Unbind(s.artifacts, id)))
    else if a.Unlink? && p.Unlinked? then
      Some(Move(s, e, PublishFailed).(artifacts := Unbind(s.artifacts, id)))
    else None
  }

  /** lockPolicy and the first recheck. A guarded editor does not wait for the lock. */
  function DoLock(env: Env, s: State, a: Action, e: nat, w: Editor): Option<State>
    requires s.files != [] && e in s.editors && w == s.editors[e]
  {
    var p := w.phase;
    if a.Open? && p.Writing? && |p.u| <= MaxPolicyBytes then Some(Move(s, e, Opened(p.src, p.u, Path(s))))
    else if a.Flock? && p.Opened? then
      if p.target !in s.locks then Some(Move(s, e, Holding(p.src, p.u, p.target)).(locks := s.locks[p.target := e]))
      else if w.revision != "" then Some(Move(s, e, Failed(None)))
      else None
    else if a.Check1? && p.Holding? && SameFile(env, s, w.kept) then
      Some(Move(s, e, Confirmed(p.src, p.u, p.target)))
    else None
  }

  /** The temporary file and the second recheck. */
  function DoTemp(env: Env, s: State, a: Action, e: nat, w: Editor): Option<State>
    requires s.files != [] && e in s.editors && w == s.editors[e]
  {
    var p := w.phase;
    if a.MakeTemp? && p.Confirmed? then Some(Move(s, e, Temping(p.src, p.u, p.target, a.temp)))
    else if a.Own? && p.Temping? && w.kept.Some? then
      var m := w.kept.value;
      Some(Move(s, e, Owned(p.src, p.u, p.target, p.temp.(uid := m.uid, gid := m.gid, mode := m.mode))))
    else if a.Write? && p.Owned? then Some(Move(s, e, Written(p.src, p.u, p.target, p.temp.(bytes := p.u))))
    else if a.Check2? && p.Written? && SameFile(env, s, w.kept) then
      Some(Move(s, e, Rechecked(p.src, p.u, p.target, p.temp)))
    else None
  }

  /** The identity of the file that the rename puts in place. */
  function NewMeta(t: Temp, a: Action): Meta
    requires a.Rename?
  {
    Meta(a.dev, a.ino, t.uid, t.gid, t.mode, |t.bytes|, a.modified)
  }

  predicate Fresh(s: State, m: Meta) { forall k :: 0 <= k < |s.files| ==> s.files[k].meta != m }

  function DoReplace(env: Env, s: State, a: Action, e: nat, w: Editor): Option<State>
    requires s.files != [] && e in s.editors && w == s.editors[e]
  {
    var p := w.phase;
    if a.Rename? && p.Rechecked? && Fresh(s, NewMeta(p.temp, a)) then
      Some(Move(s, e, Renamed(p.src, p.target)).(
             files := s.files + [File(p.temp.bytes, NewMeta(p.temp, a))],
             origins := s.origins + [Origin(e, w.edit, w.revision)]))
    else if a.SyncPolicy? && p.Renamed? then
      Some(Stop(s, e, w.(phase := if a.ok then Succeeded(p.src) else Failed(Some(p.src)))))
    else None
  }

  /** An error return before the replacement, or the death of the process at any point. */
  function DoStop(s: State, a: Action, e: nat, w: Editor): Option<State>
    requires e in s.editors && w == s.editors[e]
  {
    var p := w.phase;
    if a.Fail? && p.Linking? then
      Some(Stop(s, e, w.(found := Lookup(s.artifacts, Id(w.edit)), phase := PublishFailed)))
    else if a.Fail? && !Final(p) && !p.Linked? && !p.Cleaned? && !p.Unlinked? && !p.Renamed? then
      Some(Stop(s, e, w.(phase := Failed(None))))
    else if a.Crash? && !Final(p) then Some(Stop(s, e, w.(phase := Crashed(Made(p)))))
    else None
  }

  predicate ReadAction(a: Action) { a.Stat1? || a.ReadBytes? || a.Stat2? || a.Compute? }

  predicate PublishAction(a: Action) { a.Link? || a.Cleanup? || a.SyncRecovery? || a.Unlink? }

  predicate LockAction(a: Action) { a.Open? || a.Flock? || a.Check1? }

  predicate TempAction(a: Action) { a.MakeTemp? || a.Own? || a.Write? || a.Check2? }

  /** One step; None if the action is not possible. */
  function Do(env: Env, s: State, a: Action): Option<State> {
    if s.files == [] then None
    else if a.Start? then DoStart(env, s, a.e, a.edit, a.revision)
    else if a.e !in s.editors then None
    else
      var w := s.editors[a.e];
      if ReadAction(a) then DoRead(env, s, a, a.e, w)
      else if PublishAction(a) then DoPublish(env, s, a, a.e, w)
      else if LockAction(a) then DoLock(env, s, a, a.e, w)
      else if TempAction(a) then DoTemp(env, s, a, a.e, w)
      else if a.Rename? || a.SyncPolicy? then DoReplace(env, s, a, a.e, w)
      else DoStop(s, a, a.e, w)
  }

  /** A run: any sequence of possible steps of any editors. */
  function Run(env: Env, s: State, actions: seq<Action>): Option<State> {
    if actions == [] then Some(s)
    else match Run(env, s, actions[..|actions| - 1])
      case None => None
      case Some(mid) => Do(env, mid, actions[|actions| - 1])
  }

  /** One valid policy, no administrator at work, any recovery artifacts. */
  predicate Initial(env: Env, s: State) {
    && |s.files| == 1 && Sound(env.f, s.files[0].bytes) && Accepted(env, s.files[0].meta)
    && s.origins == [] && s.locks == map[] && s.editors == map[]
  }

  // ----- What every step keeps -----

  predicate FilesOk(env: Env, s: State) {
    && s.files != []
    && (forall k :: 0 <= k < |s.files| ==>
          Sound(env.f, s.files[k].bytes) && SameOwner(s.files[k].meta, s.files[0].meta))
    && (forall j, k :: 0 <= j < k < |s.files| ==> s.files[j].meta != s.files[k].meta)
    && Accepted(env, s.files[0].meta)
  }

  predicate SameOwner(m: Meta, n: Meta) { m.uid == n.uid && m.gid == n.gid && m.mode == n.mode }

  /** Version k + 1 is what its edit makes of version k, and that editor knows it. */
  predicate LinkOk(env: Env, s: State, k: nat)
    requires k + 1 < |s.files| && k < |s.origins|
  {
    var o := s.origins[k];
    && Derive(env.f, o.revision, o.edit, s.files[k].bytes) == Replace(s.files[k + 1].bytes)
    && o.who in s.editors && s.editors[o.who].edit == o.edit && Made(s.editors[o.who].phase) == Some(k)
  }

  predicate ChainOk(env: Env, s: State) {
    && |s.files| == |s.origins| + 1
    && forall k :: 0 <= k < |s.origins| ==> LinkOk(env, s, k)
  }

  /** An editor that put a version in place is the one recorded for it. */
  predicate MakersOk(s: State) {
    forall e :: e in s.editors && Made(s.editors[e].phase).Some? ==>
      Made(s.editors[e].phase).value < |s.origins| && s.origins[Made(s.editors[e].phase).value].who == e
  }

  /** A lock belongs to the editor that is in a phase of holding it. */
  predicate LocksOk(s: State) {
    && (forall k :: k in s.locks ==> s.locks[k] in s.editors && LockOf(s.editors[s.locks[k]].phase) == Some(k))
    && (forall e :: e in s.editors && LockOf(s.editors[e].phase).Some? ==>
          LockOf(s.editors[e].phase).value in s.locks && s.locks[LockOf(s.editors[e].phase).value] == e)
  }

  /** Some file up to number `last` has this identity. */
  predicate SeenBy(files: seq<File>, m: Meta, last: int) {
    exists j :: 0 <= j <= last < |files| && files[j].meta == m
  }

  /** The identity the editor keeps is that of the file whose bytes it read. */
  predicate Basis(files: seq<File>, kept: Option<Meta>, src: nat) {
    src < |files| && kept == Some(files[src].meta)
  }

  predicate Wanted(env: Env, files: seq<File>, kept: Option<Meta>, revision: string, edit: Edit, src: nat, u: string) {
    Basis(files, kept, src) && Derive(env.f, revision, edit, files[src].bytes) == Replace(u)
  }

  /** The editor about to replace the policy has read the current one. */
  predicate Current(files: seq<File>, src: nat, target: nat, u: string) {
    src + 1 == |files| && target == src && |u| <= MaxPolicyBytes
  }

  predicate OwnedTemp(files: seq<File>, src: nat, t: Temp) {
    src < |files| && t.uid == files[src].meta.uid && t.gid == files[src].meta.gid && t.mode == files[src].meta.mode
  }

  /** The bytes an editor wants to write. */
  function Wants(p: Phase): Option<(nat, string)> {
    match p
    case Linking(src, u) => Some((src, u))
    case Linked(src, u) => Some((src, u))
    case Cleaned(src, u) => Some((src, u))
    case Writing(src, u) => Some((src, u))
    case Opened(src, u, _) => Some((src, u))
    case Holding(src, u, _) => Some((src, u))
    case Confirmed(src, u, _) => Some((src, u))
    case Temping(src, u, _, _) => Some((src, u))
    case Owned(src, u, _, _) => Some((src, u))
    case Written(src, u, _, _) => Some((src, u))
    case Rechecked(src, u, _, _) => Some((src, u))
    case _ => None
  }

  /** What else an editor knows in each phase. */
  predicate Knows(files: seq<File>, edit: Edit, kept: Option<Meta>, p: Phase) {
    match p
    case Stated(before) => SeenBy(files, before, |files| - 1)
    case HaveBytes(before, src) => SeenBy(files, before, src)
    case HavePolicy(src) => Basis(files, kept, src)
    case Linking(_, _) => edit.DropProject?
    case Linked(_, _) => edit.DropProject?
    case Cleaned(_, _) => edit.DropProject?
    case Unlinked => edit.DropProject?
    case Opened(src, u, target) => src <= target < |files| && |u| <= MaxPolicyBytes
    case Holding(src, u, target) => src <= target < |files| && |u| <= MaxPolicyBytes
    case Confirmed(src, u, target) => Current(files, src, target, u)
    case Temping(src, u, target, _) => Current(files, src, target, u)
    case Owned(src, u, target, temp) => Current(files, src, target, u) && OwnedTemp(files, src, temp)
    case Written(src, u, target, temp) =>
      Current(files, src, target, u) && OwnedTemp(files, src, temp) && temp.bytes == u
    case Rechecked(src, u, target, temp) =>
      Current(files, src, target, u) && OwnedTemp(files, src, temp) && temp.bytes == u
    case _ => true
  }

  predicate PhaseOk(env: Env, files: seq<File>, w: Editor) {
    && Knows(files, w.edit, w.kept, w.phase)
    && (Wants(w.phase).Some? ==>
          Wanted(env, files, w.kept, w.revision, w.edit, Wants(w.phase).value.0, Wants(w.phase).value.1))
  }

  predicate EditorsOk(env: Env, s: State) { forall e :: e in s.editors ==> PhaseOk(env, s.files, s.editors[e]) }

  /** Everything every step keeps. */
  predicate Inv(env: Env, s: State) {
    FilesOk(env, s) && ChainOk(env, s) && MakersOk(s) && LocksOk(s) && EditorsOk(env, s)
  }

  // ----- Steps that change one editor -----

  /** The other editors, the files and their origins stay. */
  predicate Others(s: State, s': State, e: nat) {
    && s'.editors.Keys == s.editors.Keys && e in s.editors
    && forall x :: x in s.editors && x != e ==> s'.editors[x] == s.editors[x]
  }

  lemma ChainStays(env: Env, s: State, s': State, e: nat)
    requires ChainOk(env, s) && MakersOk(s) && Others(s, s', e) && s'.files == s.files && s'.origins == s.origins
    requires s'.editors[e].edit == s.editors[e].edit && Made(s'.editors[e].phase) == Made(s.editors[e].phase)
    ensures ChainOk(env, s') && MakersOk(s')
  {
    hide Derive, Made;
    forall k | 0 <= k < |s'.origins| ensures LinkOk(env, s', k) { assert LinkOk(env, s, k); }
  }

  lemma LocksStay(s: State, s': State, e: nat)
    requires LocksOk(s) && Others(s, s', e) && s'.locks == s.locks
    requires LockOf(s'.editors[e].phase) == LockOf(s.editors[e].phase)
    ensures LocksOk(s')
  {
    hide LockOf;
    forall k | k in s'.locks ensures s'.locks[k] in s'.editors && LockOf(s'.editors[s'.locks[k]].phase) == Some(k) {
      assert LockOf(s.editors[s.locks[k]].phase) == Some(k);
    }
  }

  lemma LocksReleased(s: State, s': State, e: nat)
    requires LocksOk(s) && Others(s, s', e) && LockOf(s'.editors[e].phase).None?
    requires s'.locks == var held := LockOf(s.editors[e].phase); if held.Some? then s.locks - {held.value} else s.locks
    ensures LocksOk(s')
  {
    hide LockOf;
    forall k | k in s'.locks ensures s'.locks[k] in s'.editors && LockOf(s'.editors[s'.locks[k]].phase) == Some(k) {
      assert k in s.locks && LockOf(s.editors[s.locks[k]].phase) == Some(k);
    }
  }

  lemma LocksTaken(s: State, s': State, e: nat, target: nat)
    requires LocksOk(s) && Others(s, s', e) && target !in s.locks && s'.locks == s.locks[target := e]
    requires LockOf(s.editors[e].phase).None? && LockOf(s'.editors[e].phase) == Some(target)
    ensures LocksOk(s')
  {
    hide LockOf;
    forall k | k in s'.locks ensures s'.locks[k] in s'.editors && LockOf(s'.editors[s'.locks[k]].phase) == Some(k) {
      if k != target { assert LockOf(s.editors[s.locks[k]].phase) == Some(k); }
    }
  }

  lemma FilesStay(env: Env, s: State, s': State)
    requires FilesOk(env, s) && s'.files == s.files
    ensures FilesOk(env, s')
  {
    hide Sound, Accepted;
  }

  /** A step of one editor that leaves files and origins alone, and locks in order. */
  lemma PutKeeps(env: Env, s: State, s': State, e: nat)
    requires Inv(env, s) && Others(s, s', e) && s'.files == s.files && s'.origins == s.origins && LocksOk(s')
    requires s'.editors[e].edit == s.editors[e].edit && Made(s'.editors[e].phase) == Made(s.editors[e].phase)
    requires PhaseOk(env, s'.files, s'.editors[e])
    ensures Inv(env, s')
  {
    hide PhaseOk, Made, FilesOk, ChainOk, LocksOk, MakersOk;
    FilesStay(env, s, s');
    ChainStays(env, s, s', e);
    forall x | x in s'.editors ensures PhaseOk(env, s'.files, s'.editors[x]) {
      if x != e { assert s'.editors[x] == s.editors[x]; }
    }
  }

  lemma EditorFacts(env: Env, s: State, e: nat)
    requires Inv(env, s) && e in s.editors
    ensures PhaseOk(env, s.files, s.editors[e]) && s.files != []
  {
    hide PhaseOk;
  }

  lemma LocksFacts(env: Env, s: State)
    requires Inv(env, s)
    ensures LocksOk(s) && s.files != []
  {
    hide LocksOk, ChainOk, EditorsOk, MakersOk;
  }

  lemma ReadyOk(env: Env, files: seq<File>, w: Editor)
    requires w.phase.Ready?
    ensures PhaseOk(env, files, w) && LockOf(w.phase).None? && Made(w.phase).None?
  {
  }

  lemma NotYet(env: Env, s: State, e: nat, edit: Edit)
    requires MayStart(env, s, e, edit)
    ensures e !in s.editors
  {
  }

  lemma StartKeeps(env: Env, s: State, e: nat, edit: Edit, revision: string)
    requires Inv(env, s) && MayStart(env, s, e, edit)
    ensures Inv(env, Put(s, e, Editor(edit, revision, None, None, Ready)))
  {
    hide PhaseOk, LockOf, Made, Derive, FilesOk, MayStart;
    var w := Editor(edit, revision, None, None, Ready);
    var s' := Put(s, e, w);
    ReadyOk(env, s.files, w);
    NotYet(env, s, e, edit);
    FilesStay(env, s, s');
    forall k | 0 <= k < |s'.origins| ensures LinkOk(env, s', k) { assert LinkOk(env, s, k); }
    forall k | k in s'.locks ensures s'.locks[k] in s'.editors && LockOf(s'.editors[s'.locks[k]].phase) == Some(k) {
      assert LockOf(s.editors[s.locks[k]].phase) == Some(k);
    }
  }

  // ----- Reading -----

  /** Distinct identities: an identity seen earlier that is still there belongs to the current file. */
  lemma SeenIsCurrent(env: Env, s: State, m: Meta, last: nat)
    requires FilesOk(env, s) && SeenBy(s.files, m, last) && Now(s) == m
    ensures last == Path(s)
  {
    hide Sound, Accepted, SameOwner;
    var j :| 0 <= j <= last < |s.files| && s.files[j].meta == m;
  }

  /** The read between two equal lstat results read the file they describe. */
  lemma SandwichHolds(env: Env, s: State, w: Editor)
    requires FilesOk(env, s) && PhaseOk(env, s.files, w) && w.phase.HaveBytes? && SameFile(env, s, Some(w.phase.before))
    ensures Basis(s.files, Some(Now(s)), w.phase.src)
  {
    hide FilesOk, Accepted;
    SeenIsCurrent(env, s, w.phase.before, w.phase.src);
  }

  lemma NowIsSeen(s: State)
    requires s.files != []
    ensures SeenBy(s.files, Now(s), Path(s))
  {
  }

  lemma SeenLater(files: seq<File>, m: Meta, last: int, later: int)
    requires SeenBy(files, m, last) && last <= later < |files|
    ensures SeenBy(files, m, later)
  {
    var j :| 0 <= j <= last < |files| && files[j].meta == m;
  }

  predicate NeedsCurrent(p: Phase) { p.Confirmed? || p.Temping? || p.Owned? || p.Written? || p.Rechecked? }

  /** The phase after a reading step. */
  lemma ReadPhase(env: Env, s: State, a: Action, e: nat, s': State)
    requires Inv(env, s) && s.files != [] && e in s.editors && DoRead(env, s, a, e, s.editors[e]) == Some(s')
    ensures e in s'.editors && PhaseOk(env, s.files, s'.editors[e])
    ensures Made(s'.editors[e].phase).None? && LockOf(s'.editors[e].phase).None?
  {
    hide Derive, Accepted, Inv, SeenBy;
    EditorFacts(env, s, e);
    NowIsSeen(s);
    if a.Stat1? {
    } else if a.ReadBytes? {
      SeenLater(s.files, s.editors[e].phase.before, |s.files| - 1, Path(s));
    } else if a.Stat2? {
      InvFiles(env, s);
      SandwichHolds(env, s, s.editors[e]);
    } else {
      ComputePhase(env, s, a, e, s');
    }
  }

  lemma ComputePhase(env: Env, s: State, a: Action, e: nat, s': State)
    requires s.files != [] && e in s.editors && a.Compute? && DoRead(env, s, a, e, s.editors[e]) == Some(s')
    requires PhaseOk(env, s.files, s.editors[e])
    ensures e in s'.editors && PhaseOk(env, s.files, s'.editors[e])
    ensures Made(s'.editors[e].phase).None? && LockOf(s'.editors[e].phase).None?
  {
    hide Derive, Accepted, SeenBy;
  }

  lemma InvFiles(env: Env, s: State)
    requires Inv(env, s)
    ensures FilesOk(env, s)
  {
    hide FilesOk, ChainOk, LocksOk, EditorsOk, MakersOk;
  }

  lemma ReadKeeps(env: Env, s: State, a: Action, e: nat)
    requires Inv(env, s) && s.files != [] && e in s.editors && DoRead(env, s, a, e, s.editors[e]).Some?
    ensures Inv(env, DoRead(env, s, a, e, s.editors[e]).value)
  {
    hide Inv, PhaseOk, Derive, Accepted, SameFile, LocksOk, LockOf, Made;
    LocksFacts(env, s);
    var s' := DoRead(env, s, a, e, s.editors[e]).value;
    ReadPhase(env, s, a, e, s');
    EarlyPhase(s.editors[e].phase);
    LocksStay(s, s', e);
    PutKeeps(env, s, s', e);
  }

  lemma EarlyPhase(p: Phase)
    requires p.Ready? || p.Stated? || p.HaveBytes? || p.HavePolicy?
             || p.Linking? || p.Linked? || p.Cleaned? || p.Unlinked?
             || p.Writing? || p.Opened?
    ensures LockOf(p).None? && Made(p).None?
  {
  }

  // ----- Publishing -----

  lemma PublishFrame(env: Env, s: State, a: Action, e: nat, s': State)
    requires s.files != [] && e in s.editors && DoPublish(env, s, a, e, s.editors[e]) == Some(s')
    ensures Others(s, s', e) && s' == s.(editors := s'.editors, artifacts := s'.artifacts)
    ensures e in s'.editors
    ensures s'.editors[e].(found := None, phase := Ready) == s.editors[e].(found := None, phase := Ready)
  {
    hide Bind, Unbind, Lookup, MakeArtifact, Fits;
  }

  lemma PublishPhase(env: Env, s: State, a: Action, e: nat, s': State)
    requires Inv(env, s) && s.files != [] && e in s.editors && DoPublish(env, s, a, e, s.editors[e]) == Some(s')
    ensures e in s'.editors && PhaseOk(env, s.files, s'.editors[e])
    ensures Made(s'.editors[e].phase).None? && LockOf(s'.editors[e].phase).None?
    ensures Made(s.editors[e].phase).None? && LockOf(s.editors[e].phase).None?
  {
    hide Inv, Wanted, Bind, Unbind, Lookup, MakeArtifact, SeenBy, Fits;
    EditorFacts(env, s, e);
  }

  lemma PublishKeeps(env: Env, s: State, a: Action, e: nat)
    requires Inv(env, s) && s.files != [] && e in s.editors && DoPublish(env, s, a, e, s.editors[e]).Some?
    ensures Inv(env, DoPublish(env, s, a, e, s.editors[e]).value)
  {
    hide Inv, PhaseOk, LocksOk, LockOf, Made, DoPublish;
    LocksFacts(env, s);
    var s' := DoPublish(env, s, a, e, s.editors[e]).value;
    PublishPhase(env, s, a, e, s');
    PublishFrame(env, s, a, e, s');
    LocksStay(s, s', e);
    PutKeeps(env, s, s', e);
  }

  // ----- Locking -----

  lemma KeptIsCurrent(env: Env, s: State, w: Editor, src: nat)
    requires FilesOk(env, s) && Basis(s.files, w.kept, src) && SameFile(env, s, w.kept)
    ensures src == Path(s)
  {
    hide FilesOk, Accepted;
    var m := s.files[src].meta;
    assert SeenBy(s.files, m, src);
    SeenIsCurrent(env, s, m, src);
  }

  lemma LockPhase(env: Env, s: State, a: Action, e: nat, s': State)
    requires Inv(env, s) && s.files != [] && e in s.editors && DoLock(env, s, a, e, s.editors[e]) == Some(s')
    ensures e in s'.editors && PhaseOk(env, s.files, s'.editors[e])
    ensures Made(s'.editors[e].phase).None? && Made(s.editors[e].phase).None?
  {
    hide Inv, DoLock, PhaseOk, Made;
    if a.Check1? { CheckPhase(env, s, a, e, s'); } else { OpenPhase(env, s, a, e, s'); }
  }

  lemma OpenPhase(env: Env, s: State, a: Action, e: nat, s': State)
    requires Inv(env, s) && s.files != [] && e in s.editors && DoLock(env, s, a, e, s.editors[e]) == Some(s')
    requires !a.Check1?
    ensures e in s'.editors && PhaseOk(env, s.files, s'.editors[e])
    ensures Made(s'.editors[e].phase).None? && Made(s.editors[e].phase).None?
  {
    hide Derive, Accepted, Inv, SameFile, SeenBy;
    EditorFacts(env, s, e);
  }

  lemma CheckPhase(env: Env, s: State, a: Action, e: nat, s': State)
    requires Inv(env, s) && s.files != [] && e in s.editors && DoLock(env, s, a, e, s.editors[e]) == Some(s')
    requires a.Check1?
    ensures e in s'.editors && PhaseOk(env, s.files, s'.editors[e])
    ensures Made(s'.editors[e].phase).None? && Made(s.editors[e].phase).None?
  {
    hide Derive, Accepted, Inv, SameFile, SeenBy;
    EditorFacts(env, s, e);
    InvFiles(env, s);
    KeptIsCurrent(env, s, s.editors[e], s.editors[e].phase.src);
  }

  lemma LockKeeps(env: Env, s: State, a: Action, e: nat)
    requires Inv(env, s) && s.files != [] && e in s.editors && DoLock(env, s, a, e, s.editors[e]).Some?
    ensures Inv(env, DoLock(env, s, a, e, s.editors[e]).value)
  {
    hide Inv, PhaseOk, Derive, Accepted, SameFile, LocksOk, Made;
    LocksFacts(env, s);
    var s' := DoLock(env, s, a, e, s.editors[e]).value;
    LockPhase(env, s, a, e, s');
    if s'.editors[e].phase.Holding? {
      LocksTaken(s, s', e, s'.editors[e].phase.target);
    } else {
      LocksStay(s, s', e);
    }
    PutKeeps(env, s, s', e);
  }

  // ----- The temporary file -----

  lemma TempPhase(env: Env, s: State, a: Action, e: nat, s': State)
    requires Inv(env, s) && s.files != [] && e in s.editors && DoTemp(env, s, a, e, s.editors[e]) == Some(s')
    ensures e in s'.editors && PhaseOk(env, s.files, s'.editors[e])
    ensures Made(s'.editors[e].phase).None? && Made(s.editors[e].phase).None?
    ensures LockOf(s'.editors[e].phase) == LockOf(s.editors[e].phase)
  {
    hide Derive, Accepted, Inv, SameFile, SeenBy;
    EditorFacts(env, s, e);
  }

  lemma TempKeeps(env: Env, s: State, a: Action, e: nat)
    requires Inv(env, s) && s.files != [] && e in s.editors && DoTemp(env, s, a, e, s.editors[e]).Some?
    ensures Inv(env, DoTemp(env, s, a, e, s.editors[e]).value)
  {
    hide Inv, PhaseOk, Derive, Accepted, SameFile, LocksOk, Made, LockOf;
    LocksFacts(env, s);
    var s' := DoTemp(env, s, a, e, s.editors[e]).value;
    TempPhase(env, s, a, e, s');
    LocksStay(s, s', e);
    PutKeeps(env, s, s', e);
  }

  // ----- Replacing the policy -----

  lemma SeenGrows(files: seq<File>, file: File, m: Meta, last: int)
    requires SeenBy(files, m, last)
    ensures SeenBy(files + [file], m, last)
  {
    var j :| 0 <= j <= last < |files| && files[j].meta == m;
    assert (files + [file])[j] == files[j];
  }

  lemma KnowsGrows(files: seq<File>, file: File, w: Editor)
    requires Knows(files, w.edit, w.kept, w.phase) && !NeedsCurrent(w.phase)
    ensures Knows(files + [file], w.edit, w.kept, w.phase)
  {
    hide SeenBy;
    if w.phase.Stated? {
      SeenGrows(files, file, w.phase.before, |files| - 1);
      SeenLater(files + [file], w.phase.before, |files| - 1, |files|);
    } else if w.phase.HaveBytes? {
      SeenGrows(files, file, w.phase.before, w.phase.src);
    }
  }

  lemma PhaseGrows(env: Env, files: seq<File>, file: File, w: Editor)
    requires PhaseOk(env, files, w) && !NeedsCurrent(w.phase)
    ensures PhaseOk(env, files + [file], w)
  {
    hide Derive, Knows, Wants;
    KnowsGrows(files, file, w);
  }

  /** Only the holder of the current file's lock can be past the first recheck. */
  lemma OneReplacer(env: Env, s: State, x: nat, y: nat)
    requires Inv(env, s) && x in s.editors && y in s.editors
    requires NeedsCurrent(s.editors[x].phase) && NeedsCurrent(s.editors[y].phase)
    ensures x == y
  {
    hide Inv, LocksOk;
    EditorFacts(env, s, x);
    EditorFacts(env, s, y);
    LocksFacts(env, s);
    HoldsCurrent(env, s, s.editors[x]);
    HoldsCurrent(env, s, s.editors[y]);
    LockHolder(s, x, y);
  }

  lemma HoldsCurrent(env: Env, s: State, w: Editor)
    requires s.files != [] && PhaseOk(env, s.files, w) && NeedsCurrent(w.phase)
    ensures LockOf(w.phase) == Some(Path(s))
  {
    hide Derive;
  }

  lemma LockHolder(s: State, x: nat, y: nat)
    requires LocksOk(s) && x in s.editors && y in s.editors
    requires LockOf(s.editors[x].phase).Some? && LockOf(s.editors[x].phase) == LockOf(s.editors[y].phase)
    ensures x == y
  {
    hide LockOf;
  }

  lemma NewFileSound(env: Env, w: Editor, data: string, u: string)
    requires Derive(env.f, w.revision, w.edit, data) == Replace(u) && |u| <= MaxPolicyBytes
    ensures Sound(env.f, u)
  {
    DerivedReadable(env.f, w.revision, w.edit, data);
  }

  lemma FilesGrow(env: Env, s: State, file: File)
    requires FilesOk(env, s) && Sound(env.f, file.bytes) && SameOwner(file.meta, s.files[0].meta) && Fresh(s, file.meta)
    ensures FilesOk(env, s.(files := s.files + [file]))
  {
    hide Sound, Accepted;
  }

  /** What the invariant says about an editor that is about to rename. */
  lemma AboutToRename(env: Env, s: State, e: nat)
    requires Inv(env, s) && e in s.editors && s.editors[e].phase.Rechecked?
    ensures var w := s.editors[e]; var p := w.phase;
            && p.src + 1 == |s.files| == |s.origins| + 1 && p.target == p.src && p.temp.bytes == p.u
            && Derive(env.f, w.revision, w.edit, s.files[p.src].bytes) == Replace(p.u)
            && Sound(env.f, p.u)
            && p.temp.uid == s.files[0].meta.uid && p.temp.gid == s.files[0].meta.gid
            && p.temp.mode == s.files[0].meta.mode
  {
    hide Derive, Sound, LinkOk, Accepted, LocksOk, MakersOk;
    var w := s.editors[e];
    assert PhaseOk(env, s.files, w);
    NewFileSound(env, w, s.files[w.phase.src].bytes, w.phase.u);
    assert SameOwner(s.files[w.phase.src].meta, s.files[0].meta);
  }

  lemma ChainGrows(env: Env, s: State, s': State, e: nat, file: File, o: Origin)
    requires ChainOk(env, s) && MakersOk(s) && Others(s, s', e) && Made(s.editors[e].phase).None? && s.files != []
    requires s'.files == s.files + [file] && s'.origins == s.origins + [o]
    requires o.who == e && Made(s'.editors[e].phase) == Some(|s.origins|) && LinkOk(env, s', |s.origins|)
    ensures ChainOk(env, s') && MakersOk(s')
  {
    hide Derive, Made;
    forall k | 0 <= k < |s'.origins| ensures LinkOk(env, s', k) {
      if k < |s.origins| { assert LinkOk(env, s, k); }
    }
  }

  lemma RenamedPhase(env: Env, files: seq<File>, w: Editor)
    requires w.phase.Renamed?
    ensures PhaseOk(env, files, w) && Made(w.phase) == Some(w.phase.src)
  {
  }

  /** The rename overwrites the file whose bytes the editor read. */
  lemma RenameKeeps(env: Env, s: State, e: nat, a: Action)
    requires Inv(env, s) && e in s.editors && a.Rename? && s.editors[e].phase.Rechecked?
    requires Fresh(s, NewMeta(s.editors[e].phase.temp, a))
    ensures DoReplace(env, s, a, e, s.editors[e]).Some? && Inv(env, DoReplace(env, s, a, e, s.editors[e]).value)
    ensures s.editors[e].phase.src == Path(s)
  {
    hide Derive, Sound, PhaseOk, Accepted, Fresh, FilesOk, LocksOk, ChainOk, MakersOk;
    LocksFacts(env, s);
    var w := s.editors[e];
    var p := w.phase;
    var file, o := File(p.temp.bytes, NewMeta(p.temp, a)), Origin(e, w.edit, w.revision);
    var s' := DoReplace(env, s, a, e, w).value;
    AboutToRename(env, s, e);
    FilesGrow(env, s, file);
    FilesStay(env, s.(files := s.files + [file]), s');
    RenamedPhase(env, s'.files, s'.editors[e]);
    assert LinkOk(env, s', |s.origins|);
    ChainGrows(env, s, s', e, file, o);
    LocksStay(s, s', e);
    forall x | x in s'.editors ensures PhaseOk(env, s'.files, s'.editors[x]) {
      if x != e {
        if NeedsCurrent(s.editors[x].phase) { OneReplacer(env, s, x, e); }
        PhaseGrows(env, s.files, file, s.editors[x]);
      }
    }
  }

  lemma StopKeeps(env: Env, s: State, e: nat, w: Editor)
    requires Inv(env, s) && e in s.editors && w.edit == s.editors[e].edit
    requires Final(w.phase) && Made(w.phase) == Made(s.editors[e].phase)
    ensures Inv(env, Stop(s, e, w))
  {
    FinalOk(env, s.files, w);
    hide Inv, PhaseOk, LocksOk, LockOf, Made;
    LocksFacts(env, s);
    LocksReleased(s, Stop(s, e, w), e);
    PutKeeps(env, s, Stop(s, e, w), e);
  }

  lemma FinalOk(env: Env, files: seq<File>, w: Editor)
    requires Final(w.phase)
    ensures PhaseOk(env, files, w) && LockOf(w.phase).None?
  {
  }

  lemma ReplaceKeeps(env: Env, s: State, a: Action, e: nat)
    requires Inv(env, s) && s.files != [] && e in s.editors && DoReplace(env, s, a, e, s.editors[e]).Some?
    ensures Inv(env, DoReplace(env, s, a, e, s.editors[e]).value)
  {
    hide Inv, Fresh, Derive;
    EditorFacts(env, s, e);
    if a.Rename? {
      RenameKeeps(env, s, e, a);
    } else {
      var w := s.editors[e];
      StopKeeps(env, s, e, w.(phase := if a.ok then Succeeded(w.phase.src) else Failed(Some(w.phase.src))));
    }
  }

  lemma StopStepKeeps(env: Env, s: State, a: Action, e: nat)
    requires Inv(env, s) && e in s.editors && DoStop(s, a, e, s.editors[e]).Some?
    ensures Inv(env, DoStop(s, a, e, s.editors[e]).value)
  {
    hide Inv, Lookup;
    StopKeeps(env, s, e, DoStop(s, a, e, s.editors[e]).value.editors[e]);
  }

  // ----- Who moves -----

  /** A step of editor e moves no other, starts none, and leaves its edit and revision. */
  predicate Moves(s: State, s': State, e: nat) {
    && Others(s, s', e) && s'.editors[e].edit == s.editors[e].edit && s'.editors[e].revision == s.editors[e].revision
  }

  lemma ReadMoves(env: Env, s: State, a: Action, e: nat, s': State)
    requires s.files != [] && e in s.editors && DoRead(env, s, a, e, s.editors[e]) == Some(s')
    ensures Moves(s, s', e)
  {
    hide Derive, Accepted, SameFile;
  }

  lemma LockMoves(env: Env, s: State, a: Action, e: nat, s': State)
    requires s.files != [] && e in s.editors
    requires DoLock(env, s, a, e, s.editors[e]) == Some(s') || DoTemp(env, s, a, e, s.editors[e]) == Some(s')
    ensures Moves(s, s', e)
  {
    hide SameFile;
  }

  lemma EndMoves(env: Env, s: State, a: Action, e: nat, s': State)
    requires s.files != [] && e in s.editors
    requires DoReplace(env, s, a, e, s.editors[e]) == Some(s') || DoStop(s, a, e, s.editors[e]) == Some(s')
    ensures Moves(s, s', e)
  {
    hide Lookup, Fresh, LockOf, Made;
  }

  lemma DoMoves(env: Env, s: State, a: Action)
    requires Do(env, s, a).Some? && !a.Start?
    ensures a.e in s.editors && Moves(s, Do(env, s, a).value, a.e)
  {
    hide DoRead, DoPublish, DoLock, DoTemp, DoReplace, DoStop, Moves;
    var s' := Do(env, s, a).value;
    if ReadAction(a) {
      ReadMoves(env, s, a, a.e, s');
    } else if PublishAction(a) {
      PublishFrame(env, s, a, a.e, s');
      assert Moves(s, s', a.e) by { PublishMoves(s, s', a.e); }
    } else if LockAction(a) || TempAction(a) {
      LockMoves(env, s, a, a.e, s');
    } else {
      EndMoves(env, s, a, a.e, s');
    }
  }

  lemma PublishMoves(s: State, s': State, e: nat)
    requires Others(s, s', e)
    requires s'.editors[e].(found := None, phase := Ready) == s.editors[e].(found := None, phase := Ready)
    ensures Moves(s, s', e)
  {
  }

  // ----- Every step -----

  lemma DoKeeps(env: Env, s: State, a: Action)
    requires Inv(env, s) && Do(env, s, a).Some?
    ensures Inv(env, Do(env, s, a).value)
  {
    hide Inv, DoRead, DoPublish, DoLock, DoTemp, DoReplace, DoStop, MayStart;
    if a.Start? {
      StartKeeps(env, s, a.e, a.edit, a.revision);
    } else if ReadAction(a) {
      ReadKeeps(env, s, a, a.e);
    } else if PublishAction(a) {
      PublishKeeps(env, s, a, a.e);
    } else if LockAction(a) {
      LockKeeps(env, s, a, a.e);
    } else if TempAction(a) {
      TempKeeps(env, s, a, a.e);
    } else if a.Rename? || a.SyncPolicy? {
      ReplaceKeeps(env, s, a, a.e);
    } else {
      StopStepKeeps(env, s, a, a.e);
    }
  }

  lemma InitialInv(env: Env, s: State)
    requires Initial(env, s)
    ensures Inv(env, s)
  {
    hide Sound, Accepted;
  }

  /** The invariant holds after every run from a valid policy, crashes included. */
  lemma {:induction false} RunKeeps(env: Env, s: State, actions: seq<Action>)
    requires Initial(env, s) && Run(env, s, actions).Some?
    ensures Inv(env, Run(env, s, actions).value)
  {
    hide Do, Inv, Initial;
    if actions == [] {
      InitialInv(env, s);
    } else {
      RunKeeps(env, s, actions[..|actions| - 1]);
      DoKeeps(env, Run(env, s, actions[..|actions| - 1]).value, actions[|actions| - 1]);
    }
  }

  // ----- What every run guarantees -----

  /**
   At any moment of any run, crashes included, every version that ever stood at the path is a
   complete policy of at most 1 MiB that every reader accepts: it parses, is valid for the
   worker, has a project and unique aliases, and keeps owner, group and mode.
   */
  lemma VersionsSound(env: Env, s: State, actions: seq<Action>, k: nat)
    requires Initial(env, s) && Run(env, s, actions).Some? && k < |Run(env, s, actions).value.files|
    ensures var file := Run(env, s, actions).value.files[k];
            && |file.bytes| <= MaxPolicyBytes
            && Accepted(env, file.meta)
            && SameOwner(file.meta, s.files[0].meta)
            && ReadPolicy(env.f, "", file.bytes).Some?
            && var c := ReadPolicy(env.f, "", file.bytes).value;
               C.Valid(env.f, c) && C.WorkerConfig(c) && c.projects != [] && C.UniqueAliases(c.projects)
  {
    hide Run, Accepted, C.WorkerConfig, C.ValidSettings, ChainOk, LocksOk, EditorsOk, C.Defaulted, MakersOk;
    RunKeeps(env, s, actions);
    FirstFileStays(env, s, actions);
    var t := Run(env, s, actions).value;
    assert Sound(env.f, t.files[k].bytes) && SameOwner(t.files[k].meta, t.files[0].meta);
    SameOwnerAccepted(env, t.files[k].meta, t.files[0].meta);
  }

  lemma SameOwnerAccepted(env: Env, m: Meta, n: Meta)
    requires SameOwner(m, n) && Accepted(env, n)
    ensures Accepted(env, m)
  {
  }

  lemma DoAppends(env: Env, s: State, a: Action)
    requires Do(env, s, a).Some?
    ensures s.files != [] && s.files <= Do(env, s, a).value.files && s.origins <= Do(env, s, a).value.origins
  {
    hide Derive, Fresh, SameFile, Accepted, MakeArtifact, Fits;
  }

  lemma {:induction false} FirstFileStays(env: Env, s: State, actions: seq<Action>)
    requires s.files != [] && Run(env, s, actions).Some?
    ensures s.files <= Run(env, s, actions).value.files
  {
    hide Do;
    if actions != [] {
      FirstFileStays(env, s, actions[..|actions| - 1]);
      DoAppends(env, Run(env, s, actions[..|actions| - 1]).value, actions[|actions| - 1]);
    }
  }

  /**
   The accepted edits of any run form one chain: version k + 1 is what edit k makes of exactly
   the bytes of version k, and a guarded edit only ever replaced the revision it was given.
   */
  lemma OneChain(env: Env, s: State, actions: seq<Action>, k: nat)
    requires Initial(env, s) && Run(env, s, actions).Some? && k < |Run(env, s, actions).value.origins|
    ensures var t := Run(env, s, actions).value;
            && |t.files| == |t.origins| + 1
            && Derive(env.f, t.origins[k].revision, t.origins[k].edit, t.files[k].bytes)
               == Replace(t.files[k + 1].bytes)
            && (t.origins[k].revision != "" ==> env.f.digest(t.files[k].bytes) == t.origins[k].revision)
  {
    hide Run, Initial, LocksOk, EditorsOk, FilesOk, Apply, MakersOk;
    RunKeeps(env, s, actions);
    assert LinkOk(env, Run(env, s, actions).value, k);
  }

  /** Of all edits computed from the same version, at most one replaces it. */
  lemma OneWinner(env: Env, s: State, actions: seq<Action>, x: nat, y: nat)
    requires Initial(env, s) && Run(env, s, actions).Some?
    requires var t := Run(env, s, actions).value;
             && x in t.editors && y in t.editors
             && Made(t.editors[x].phase).Some? && Made(t.editors[x].phase) == Made(t.editors[y].phase)
    ensures x == y
  {
    hide Run, Initial, LocksOk, EditorsOk, FilesOk, ChainOk;
    RunKeeps(env, s, actions);
  }

  /** An edit that failed or died before its rename left no version behind. */
  lemma FailedLeavesNothing(env: Env, s: State, actions: seq<Action>, e: nat, k: nat)
    requires Initial(env, s) && Run(env, s, actions).Some? && k < |Run(env, s, actions).value.origins|
    requires e in Run(env, s, actions).value.editors && Made(Run(env, s, actions).value.editors[e].phase).None?
    ensures Run(env, s, actions).value.origins[k].who != e
  {
    hide Run, Initial, LocksOk, EditorsOk, FilesOk, Derive, MakersOk;
    RunKeeps(env, s, actions);
    assert LinkOk(env, Run(env, s, actions).value, k);
  }

  /** A version made by a restore is the saved policy; the one before it is that policy without the project. */
  lemma RestoresExact(env: Env, s: State, actions: seq<Action>, k: nat)
    requires Initial(env, s) && Run(env, s, actions).Some? && k < |Run(env, s, actions).value.origins|
    requires Run(env, s, actions).value.origins[k].edit.Restore?
    ensures var t := Run(env, s, actions).value;
            var a := t.origins[k].edit.artifact;
            && t.origins[k].edit.confirmation == a.project && a.project != ""
            && k + 1 < |t.files| && t.files[k + 1].bytes == a.policy && ReadPolicy(env.f, "", a.policy).Some?
            && var stored := ReadPolicy(env.f, "", a.policy).value;
               var i := C.IndexOf(stored.projects, a.project);
               Splice.RemoveProject(a.policy, |stored.projects|, i) == Some(t.files[k].bytes)
  {
    hide Run, Initial, Splice.RemoveProject;
    OneChain(env, s, actions, k);
    var t := Run(env, s, actions).value;
    var o := t.origins[k];
    RestoreExact(env.f, o.revision, o.edit.artifact, o.edit.confirmation, t.files[k].bytes);
  }

  /** These two texts are not a collision of the digest. */
  predicate NoCollision(f: C.Foreign, x: string, y: string) { f.digest(x) == f.digest(y) ==> x == y }

  /**
   An edit guarded by the revision of some bytes replaced bytes of the same digest: those very
   bytes, unless the two collide.
   */
  lemma GuardedReplaces(env: Env, s: State, actions: seq<Action>, k: nat, reviewed: string)
    requires Initial(env, s) && Run(env, s, actions).Some? && k < |Run(env, s, actions).value.origins|
    requires env.f.digest(reviewed) != ""
    requires Run(env, s, actions).value.origins[k].revision == env.f.digest(reviewed)
    ensures var t := Run(env, s, actions).value;
            && k + 1 < |t.files| && env.f.digest(t.files[k].bytes) == env.f.digest(reviewed)
            && (NoCollision(env.f, reviewed, t.files[k].bytes) ==>
                  && t.files[k].bytes == reviewed
                  && Derive(env.f, t.origins[k].revision, t.origins[k].edit, reviewed) == Replace(t.files[k + 1].bytes))
  {
    hide Run, Initial, Derive;
    OneChain(env, s, actions, k);
  }
}
