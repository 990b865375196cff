/**
 The edits of internal/admin/policy.go as functions of the bytes they read.

 `Derive` is what an `Editor` operation computes between `readPolicy` and `writeAtomic`:
 input checks, the splice, re-parsing, worker validation and the deep comparison with the
 intended configuration.
 */
module Edits {
  import opened Basics
  import opened TomlStrings
  import opened Layout
  import opened Splice
  import opened Removal
  import C = Config
  import Text

  const MaxPolicyBytes := 1048576

  const ModeAutomatic := "automatic"
  const ModeConfirm := "confirm"

  datatype MetadataUpdate = MetadataUpdate(projectId: Option<string>, tokenEntry: Option<string>,
                                           workingDir: Option<string>)

  datatype Artifact = Artifact(
    version: int, recoveryId: string, createdAt: Option<int>, project: string,
    before: string, after: string, policy: string)

  datatype Edit =
    | CreateProject(input: C.Project)
    | UpdateMetadata(alias: string, update: MetadataUpdate)
    | SetApproval(alias: string, mode: string)
    | AddAllow(alias: string, argv: seq<string>)
    | RemoveArgv(alias: string, argv: seq<string>)
    | DropProject(alias: string, confirmation: string, recoveryId: string)
    | Restore(artifact: Artifact, confirmation: string)

  /** What an edit makes of the bytes it read. */
  datatype Derived = Refused | Unchanged | Replace(bytes: string)

  // ----- Reading -----

  /** readPolicy after the bytes are in hand: revision, parse, worker validation. */
  function ReadPolicy(f: C.Foreign, revision: string, data: string): Option<C.Config> {
    if revision != "" && f.digest(data) != revision then None
    else match C.Parse(f, data)
      case None => None
      case Some(c) => if C.WorkerConfig(c) then Some(c) else None
  }

  /** Bytes that every later reader accepts. */
  predicate Sound(f: C.Foreign, data: string) {
    |data| <= MaxPolicyBytes && ReadPolicy(f, "", data).Some?
  }

  /** findProject. */
  method FindProject(c: C.Config, alias: string) returns (index: Option<nat>)
    ensures index.Some? ==> index.value < |c.projects| && index.value == C.IndexOf(c.projects, alias)
    ensures index.None? <==> C.IndexOf(c.projects, alias) == |c.projects|
  {
    for i := 0 to |c.projects|
      invariant forall k :: 0 <= k < i ==> c.projects[k].alias != alias
    {
      if c.projects[i].alias == alias { return Some(i); }
    }
    index := None;
  }

  // ----- The intended configurations -----

  function SetProject(c: C.Config, i: nat, p: C.Project): C.Config
    requires i < |c.projects|
  {
    c.(projects := c.projects[i := p])
  }

  function AddProject(c: C.Config, p: C.Project): C.Config { c.(projects := c.projects + [p]) }

  function WithoutProject(c: C.Config, i: nat): C.Config
    requires i < |c.projects|
  {
    c.(projects := c.projects[..i] + c.projects[i + 1..])
  }

  /** Re-parse, validate for the worker, compare with the intended configuration. */
  function Checked(f: C.Foreign, updated: Option<string>, expected: C.Config): Derived {
    match updated
    case None => Refused
    case Some(u) =>
      match C.Parse(f, u)
      case None => Refused
      case Some(c) => if C.WorkerConfig(c) && c == expected then Replace(u) else Refused
  }

  // ----- Create -----

  predicate ValidInput(p: C.Project) {
    p.alias != "" && p.bwsProjectId != "" && p.tokenEntry != "" && C.IsAbs(p.workingDir)
  }

  /** A new project starts in confirm mode without commands, whatever else the input says. */
  function NewProject(input: C.Project): C.Project {
    input.(approval := C.ApprovalAllowlistedPrompt, allow := [])
  }

  function DeriveCreate(f: C.Foreign, c: C.Config, data: string, input: C.Project): Derived {
    if !ValidInput(input) || C.IndexOf(c.projects, input.alias) < |c.projects| then Refused
    else Checked(f, Some(AppendProject(data, NewProject(input))), AddProject(c, NewProject(input)))
  }

  // ----- Metadata -----

  predicate ValidUpdate(u: MetadataUpdate) {
    && (u.projectId.Some? || u.tokenEntry.Some? || u.workingDir.Some?)
    && u.projectId != Some("") && u.tokenEntry != Some("")
    && (u.workingDir.Some? ==> C.IsAbs(u.workingDir.value))
  }

  datatype FieldValue = FieldValue(key: Key, value: string)

  function FieldChange(key: Key, current: string, value: Option<string>): seq<FieldValue> {
    if value.Some? && value.value != current then [FieldValue(key, value.value)] else []
  }

  /** The fields that change, in the order they are written. */
  function Changes(p: C.Project, u: MetadataUpdate): seq<FieldValue> {
    FieldChange(ProjectId, p.bwsProjectId, u.projectId)
    + FieldChange(TokenEntry, p.tokenEntry, u.tokenEntry)
    + FieldChange(WorkingDir, p.workingDir, u.workingDir)
  }

  function Or(value: Option<string>, current: string): string {
    match value case None => current case Some(v) => v
  }

  function Updated(p: C.Project, u: MetadataUpdate): C.Project {
    p.(bwsProjectId := Or(u.projectId, p.bwsProjectId),
       tokenEntry := Or(u.tokenEntry, p.tokenEntry),
       workingDir := Or(u.workingDir, p.workingDir))
  }

  function ReplaceFields(data: string, count: nat, i: nat, changes: seq<FieldValue>): Option<string>
    decreases |changes|
  {
    if changes == [] then Some(data)
    else match ReplaceField(data, count, i, KeyName(changes[0].key), changes[0].value)
      case None => None
      case Some(next) => ReplaceFields(next, count, i, changes[1..])
  }

  lemma {:induction false} ReplaceFieldsThen(data: string, count: nat, i: nat, a: seq<FieldValue>, b: seq<FieldValue>)
    ensures ReplaceFields(data, count, i, a + b) ==
            match ReplaceFields(data, count, i, a)
            case None => None
            case Some(next) => ReplaceFields(next, count, i, b)
    decreases |a|
  {
    hide ReplaceField, KeyName;
    if a == [] {
      assert a + b == b;
    } else {
      assert (a + b)[1..] == a[1..] + b;
      match ReplaceField(data, count, i, KeyName(a[0].key), a[0].value)
      case None =>
      case Some(next) => ReplaceFieldsThen(next, count, i, a[1..], b);
    }
  }

  /** The loop over the three fields in UpdateProjectMetadata. */
  method UpdateFields(data: string, count: nat, i: nat, project: C.Project, u: MetadataUpdate)
    returns (updated: Option<string>, p: C.Project, changed: bool)
    ensures updated == ReplaceFields(data, count, i, Changes(project, u))
    ensures updated.Some? ==> p == Updated(project, u) && (changed <==> Changes(project, u) != [])
  {
    hide ReplaceField, KeyName;
    p, changed, updated := project, false, Some(data);
    var keys := [ProjectId, TokenEntry, WorkingDir];
    var current := [project.bwsProjectId, project.tokenEntry, project.workingDir];
    var values := [u.projectId, u.tokenEntry, u.workingDir];
    ghost var done: seq<FieldValue> := [];
    for k := 0 to 3
      invariant updated == ReplaceFields(data, count, i, done) && updated.Some?
      invariant changed <==> done != []
      invariant k == 0 ==> done == [] && p == project
      invariant k == 1 ==> done == FieldChange(ProjectId, project.bwsProjectId, u.projectId)
                           && p == project.(bwsProjectId := Or(u.projectId, project.bwsProjectId))
      invariant k == 2 ==> done == FieldChange(ProjectId, project.bwsProjectId, u.projectId)
                                   + FieldChange(TokenEntry, project.tokenEntry, u.tokenEntry)
                           && p == project.(bwsProjectId := Or(u.projectId, project.bwsProjectId),
                                            tokenEntry := Or(u.tokenEntry, project.tokenEntry))
      invariant k == 3 ==> done == Changes(project, u) && p == Updated(project, u)
    {
      ghost var more := FieldChange(keys[k], current[k], values[k]);
      ReplaceFieldsThen(data, count, i, done, more);
      FieldsLeft(data, count, i, project, u, done, k);
      if values[k].Some? && values[k].value != current[k] {
        updated := ReplaceField(updated.value, count, i, KeyName(keys[k]), values[k].value);
        OneField(ReplaceFields(data, count, i, done).value, count, i, keys[k], values[k].value);
        if updated.None? { return; }
        if k == 0 {
          p := p.(bwsProjectId := values[k].value);
        } else if k == 1 {
          p := p.(tokenEntry := values[k].value);
        } else {
          p := p.(workingDir := values[k].value);
        }
        changed := true;
      } else {
        assert done + more == done;
      }
      done := done + more;
    }
  }

  lemma OneField(data: string, count: nat, i: nat, key: Key, v: string)
    ensures ReplaceFields(data, count, i, [FieldValue(key, v)]) == ReplaceField(data, count, i, KeyName(key), v)
  {
    hide ReplaceField, KeyName;
    assert [FieldValue(key, v)][1..] == [];
  }

  /** A field that cannot be written fails the whole update. */
  lemma FieldsLeft(data: string, count: nat, i: nat, p: C.Project, u: MetadataUpdate, done: seq<FieldValue>, k: nat)
    requires k < 3
    requires k == 0 ==> done == []
    requires k == 1 ==> done == FieldChange(ProjectId, p.bwsProjectId, u.projectId)
    requires k == 2 ==>
               done == FieldChange(ProjectId, p.bwsProjectId, u.projectId)
                       + FieldChange(TokenEntry, p.tokenEntry, u.tokenEntry)
    ensures var more := FieldChange([ProjectId, TokenEntry, WorkingDir][k],
                                    [p.bwsProjectId, p.tokenEntry, p.workingDir][k],
                                    [u.projectId, u.tokenEntry, u.workingDir][k]);
            ReplaceFields(data, count, i, done + more).None? ==> ReplaceFields(data, count, i, Changes(p, u)).None?
  {
    hide ReplaceFields, FieldChange;
    var a, b, c := FieldChange(ProjectId, p.bwsProjectId, u.projectId),
                   FieldChange(TokenEntry, p.tokenEntry, u.tokenEntry),
                   FieldChange(WorkingDir, p.workingDir, u.workingDir);
    ReplaceFieldsThen(data, count, i, a, b + c);
    ReplaceFieldsThen(data, count, i, a + b, c);
    assert a + (b + c) == a + b + c && [] + a == a;
  }

  function DeriveMetadata(f: C.Foreign, c: C.Config, data: string, alias: string, u: MetadataUpdate): Derived {
    var i := C.IndexOf(c.projects, alias);
    if !ValidUpdate(u) || i == |c.projects| then Refused
    else if Changes(c.projects[i], u) == [] then Unchanged
    else Checked(f, ReplaceFields(data, |c.projects|, i, Changes(c.projects[i], u)),
                 SetProject(c, i, Updated(c.projects[i], u)))
  }

  // ----- Approval mode -----

  function StoredApproval(mode: string): Option<string> {
    if mode == ModeAutomatic then Some(C.ApprovalNever)
    else if mode == ModeConfirm then Some(C.ApprovalAllowlistedPrompt)
    else None
  }

  function DeriveApproval(f: C.Foreign, c: C.Config, data: string, alias: string, mode: string): Derived {
    var i := C.IndexOf(c.projects, alias);
    if StoredApproval(mode).None? || i == |c.projects| then Refused
    else if c.projects[i].approval == StoredApproval(mode).value then Unchanged
    else Checked(f, ReplaceApproval(data, |c.projects|, i, StoredApproval(mode).value),
                 SetProject(c, i, c.projects[i].(approval := StoredApproval(mode).value)))
  }

  // ----- Allowlist -----

  function DeriveAdd(f: C.Foreign, c: C.Config, data: string, alias: string, argv: seq<string>): Derived {
    var i := C.IndexOf(c.projects, alias);
    if argv == [] || i == |c.projects| then Refused
    else if argv in c.projects[i].allow then Unchanged
    else Checked(f, InsertAllow(data, |c.projects|, i, |c.projects[i].allow|, argv),
                 SetProject(c, i, c.projects[i].(allow := c.projects[i].allow + [argv])))
  }

  function DeriveRemoveArgv(f: C.Foreign, c: C.Config, data: string, alias: string, argv: seq<string>): Derived {
    var i := C.IndexOf(c.projects, alias);
    if argv == [] || i == |c.projects| then Refused
    else if argv !in c.projects[i].allow then Unchanged
    else Checked(f, RemoveAllow(data, |c.projects|, i, |c.projects[i].allow|, Positions(c.projects[i].allow, argv)),
                 SetProject(c, i, c.projects[i].(allow := Without(c.projects[i].allow, argv))))
  }

  // ----- Removal and restoration of a project -----

  predicate LowerHex(s: string) { forall k :: 0 <= k < |s| ==> '0' <= s[k] <= '9' || 'a' <= s[k] <= 'f' }

  predicate ValidId(id: string) { |id| == 32 && LowerHex(id) }

  predicate ValidDigest(s: string) { |s| == 64 && LowerHex(s) }

  function DeriveDrop(f: C.Foreign, c: C.Config, data: string, alias: string, confirmation: string,
                      id: string): Derived {
    var i := C.IndexOf(c.projects, alias);
    if confirmation == "" || confirmation != alias || !ValidId(id) || i == |c.projects| || |c.projects| == 1
    then Refused
    else Checked(f, RemoveProject(data, |c.projects|, i), WithoutProject(c, i))
  }

  /** validateRecoveryArtifact. */
  predicate ValidArtifact(f: C.Foreign, a: Artifact, id: string) {
    && a.version == 1 && a.recoveryId == id && a.project != "" && a.createdAt.Some?
    && ValidDigest(a.before) && ValidDigest(a.after) && f.digest(a.policy) == a.before
  }

  /** The artifact that RemoveProject publishes. */
  function MakeArtifact(f: C.Foreign, id: string, now: int, project: string, data: string, updated: string): Artifact {
    Artifact(1, id, Some(now), project, f.digest(data), f.digest(updated), data)
  }

  const MaxArtifactBytes := 2097152

  /** Padded base64 of n bytes. */
  function Base64Size(n: nat): nat { (n + 2) / 3 * 4 }

  /** The length of json.Marshal of an artifact of version 1 whose creation time reads `stamp`. */
  function EncodedSize(stamp: string, a: Artifact): nat {
    |"{\"version\":1,\"recovery_id\":"| + |JsonString(a.recoveryId)|
    + |",\"created_at\":\""| + |stamp| + |"\",\"project\":"| + |JsonString(a.project)|
    + |",\"before_sha256\":"| + |JsonString(a.before)| + |",\"after_sha256\":"| + |JsonString(a.after)|
    + |",\"policy\":"| + (if a.policy == "" then |"null"| else 2 + Base64Size(|a.policy|)) + |"}"|
  }

  function DeriveRestore(f: C.Foreign, c: C.Config, data: string, a: Artifact, confirmation: string): Derived {
    if confirmation == "" || !ValidId(a.recoveryId) || !ValidArtifact(f, a, a.recoveryId) || confirmation != a.project
       || f.digest(data) != a.after
    then Refused
    else match ReadPolicy(f, "", a.policy)
      case None => Refused
      case Some(stored) =>
        var i := C.IndexOf(stored.projects, a.project);
        if i == |stored.projects| || WithoutProject(stored, i) != c then Refused
        else if RemoveProject(a.policy, |stored.projects|, i) != Some(data) then Refused
        else Replace(a.policy)
  }

  // ----- All edits -----

  function Apply(f: C.Foreign, c: C.Config, data: string, e: Edit): Derived {
    match e
    case CreateProject(input) => DeriveCreate(f, c, data, input)
    case UpdateMetadata(alias, update) => DeriveMetadata(f, c, data, alias, update)
    case SetApproval(alias, mode) => DeriveApproval(f, c, data, alias, mode)
    case AddAllow(alias, argv) => DeriveAdd(f, c, data, alias, argv)
    case RemoveArgv(alias, argv) => DeriveRemoveArgv(f, c, data, alias, argv)
    case DropProject(alias, confirmation, id) => DeriveDrop(f, c, data, alias, confirmation, id)
    case Restore(a, confirmation) => DeriveRestore(f, c, data, a, confirmation)
  }

  function Derive(f: C.Foreign, revision: string, e: Edit, data: string): Derived {
    match ReadPolicy(f, revision, data)
    case None => Refused
    case Some(c) => Apply(f, c, data, e)
  }

  /** Whatever an edit wants to write, a later reader accepts it: parsed, validated, worker-ready. */
  lemma DerivedReadable(f: C.Foreign, revision: string, e: Edit, data: string)
    requires Derive(f, revision, e, data).Replace?
    ensures ReadPolicy(f, "", Derive(f, revision, e, data).bytes).Some?
  {
    hide ReplaceFields, RemoveProject, RemoveAllow, InsertAllow, ReplaceApproval, AppendProject, C.Valid, C.Defaulted,
         C.WorkerConfig;
  }

  // ----- Restore is the inverse of removal -----

  lemma {:induction false} NonEmptyHeader()
    ensures !IsProjectHeader("")
  {
  }

  /** Removing a project removes at least its header line. */
  lemma RemovalShortens(data: string, count: nat, i: int)
    requires RemoveProject(data, count, i).Some?
    ensures |RemoveProject(data, count, i).value| < |data|
  {
    SpansInText(IsProjectHeader, data);
    HeaderSpanNonEmpty(data, i);
    hide FindAll, IsProjectHeader;
    var headers := FindAll(IsProjectHeader, data);
    if i + 1 < |headers| { assert headers[i].end < headers[i + 1].start; }
  }

  lemma HeaderSpanNonEmpty(data: string, i: int)
    requires 0 <= i < |FindAll(IsProjectHeader, data)|
    ensures FindAll(IsProjectHeader, data)[i].start < FindAll(IsProjectHeader, data)[i].end
  {
    HitsMatch(IsProjectHeader, Text.Split(data), 0);
    NonEmptyHeader();
    hide IsProjectHeader, Hits;
  }

  /**
   Exactly when a restore is accepted: the policy can be read (under the revision, if one is
   given), the confirmation names the artifact's project, the artifact is intact, and taking
   that project out of the saved policy gives the current one, bytes and configuration.
   */
  lemma RestoreAccepted(f: C.Foreign, revision: string, a: Artifact, confirmation: string, current: string)
    ensures Derive(f, revision, Restore(a, confirmation), current).Replace? <==>
              && (revision == "" || f.digest(current) == revision) && ReadPolicy(f, "", current).Some?
              && confirmation == a.project && a.project != ""
              && a.version == 1 && |a.recoveryId| == 32 && LowerHex(a.recoveryId) && a.createdAt.Some?
              && |a.before| == 64 && LowerHex(a.before) && |a.after| == 64 && LowerHex(a.after)
              && f.digest(a.policy) == a.before && f.digest(current) == a.after
              && ReadPolicy(f, "", a.policy).Some?
              && exists i :: TakenOut(ReadPolicy(f, "", a.policy).value, a.policy, i, a.project,
                                      ReadPolicy(f, "", current).value, current)
    ensures Derive(f, revision, Restore(a, confirmation), current).Replace? ==>
              Derive(f, revision, Restore(a, confirmation), current) == Replace(a.policy)
  {
    hide RemoveProject, C.Parse, C.WorkerConfig, LowerHex;
    if ReadPolicy(f, "", a.policy).Some? && ReadPolicy(f, "", current).Some? {
      var stored, c := ReadPolicy(f, "", a.policy).value, ReadPolicy(f, "", current).value;
      ReadIsUnique(f, a.policy, stored);
      if i :| TakenOut(stored, a.policy, i, a.project, c, current) {
        assert i == C.IndexOf(stored.projects, a.project);
      }
      var i := C.IndexOf(stored.projects, a.project);
      if i < |stored.projects| {
        assert TakenOut(stored, a.policy, i, a.project, c, current)
               <==> WithoutProject(stored, i) == c && RemoveProject(a.policy, |stored.projects|, i) == Some(current);
      }
    }
  }

  /** Project i, of this alias, taken out of a policy leaves the other policy. */
  predicate TakenOut(stored: C.Config, saved: string, i: int, alias: string, c: C.Config, current: string) {
    && 0 <= i < |stored.projects| && stored.projects[i].alias == alias
    && c.settings == stored.settings && c.projects == stored.projects[..i] + stored.projects[i + 1..]
    && RemoveProject(saved, |stored.projects|, i) == Some(current)
  }

  lemma ReadIsUnique(f: C.Foreign, data: string, c: C.Config)
    requires ReadPolicy(f, "", data) == Some(c)
    ensures C.UniqueAliases(c.projects)
  {
    hide C.Defaulted, C.WorkerConfig, C.ValidSettings;
  }

  /**
   A successful restore takes the policy from the saved bytes without the project to the
   saved bytes, byte for byte. No property of the digest is used.
   */
  lemma RestoreExact(f: C.Foreign, revision: string, a: Artifact, confirmation: string, current: string)
    requires Derive(f, revision, Restore(a, confirmation), current).Replace?
    ensures confirmation == a.project && a.project != ""
    ensures Derive(f, revision, Restore(a, confirmation), current).bytes == a.policy
    ensures ReadPolicy(f, "", a.policy).Some?
    ensures var stored := ReadPolicy(f, "", a.policy).value;
            RemoveProject(a.policy, |stored.projects|, C.IndexOf(stored.projects, a.project)) == Some(current)
  {
    hide RemoveProject, C.Valid, C.Defaulted, C.WorkerConfig;
  }

  /** What a digest looks like: 64 lower-case hexadecimal characters. */
  ghost predicate DigestLaw(f: C.Foreign) { forall data :: ValidDigest(f.digest(data)) }

  /** After a removal and no later edit, restoring with the published artifact gives back the old bytes. */
  lemma RestoreUndoesRemoval(f: C.Foreign, revision: string, alias: string, id: string, now: int, data: string,
                             u: string)
    requires DigestLaw(f)
    requires Derive(f, revision, DropProject(alias, alias, id), data) == Replace(u)
    ensures Derive(f, "", Restore(MakeArtifact(f, id, now, alias, data, u), alias), u) == Replace(data)
  {
    hide RemoveProject, C.Valid, C.Defaulted, C.WorkerConfig, LowerHex;
    var a := MakeArtifact(f, id, now, alias, data, u);
    assert ValidDigest(f.digest(data)) && ValidDigest(f.digest(u));
    assert ValidArtifact(f, a, id);
    var c := ReadPolicy(f, revision, data).value;
    assert ReadPolicy(f, "", data) == Some(c);
    assert ReadPolicy(f, "", u) == Some(WithoutProject(c, C.IndexOf(c.projects, alias)));
  }

  /** Removing the restored project again gives back the bytes before the restore. */
  lemma RemovalUndoesRestore(f: C.Foreign, revision: string, a: Artifact, id: string, current: string, restored: string)
    requires Derive(f, revision, Restore(a, a.project), current) == Replace(restored) && ValidId(id)
    ensures Derive(f, "", DropProject(a.project, a.project, id), restored) == Replace(current)
  {
    hide RemoveProject, C.WorkerConfig, LowerHex;
    assert restored == a.policy;
    var stored := ReadPolicy(f, "", a.policy).value;
    var c := ReadPolicy(f, revision, current).value;
    var i := C.IndexOf(stored.projects, a.project);
    assert c == WithoutProject(stored, i);
    assert C.Valid(f, c) && c.projects != [];
    assert |stored.projects| > 1;
  }

  /** Restoring a second time right after a success is refused, whatever the digests are. */
  lemma RestoreOnce(f: C.Foreign, revision: string, a: Artifact, confirmation: string)
    ensures Derive(f, revision, Restore(a, confirmation), a.policy) == Refused
  {
    hide RemoveProject, C.Valid, C.Defaulted, C.WorkerConfig;
    var d := Derive(f, revision, Restore(a, confirmation), a.policy);
    if d.Replace? {
      RestoreExact(f, revision, a, confirmation, a.policy);
      var stored := ReadPolicy(f, "", a.policy).value;
      RemovalShortens(a.policy, |stored.projects|, C.IndexOf(stored.projects, a.project));
    }
  }

  /** What the operations demand of their input, whatever the policy is. */
  lemma BadInputRefused(f: C.Foreign, revision: string, e: Edit, data: string)
    requires match e
             case CreateProject(p) =>
               || p.alias == "" || p.bwsProjectId == "" || p.tokenEntry == ""
               || p.workingDir == "" || p.workingDir[0] != '/'
             case UpdateMetadata(_, u) =>
               || u == MetadataUpdate(None, None, None) || u.projectId == Some("") || u.tokenEntry == Some("")
               || (u.workingDir.Some? && (u.workingDir.value == "" || u.workingDir.value[0] != '/'))
             case SetApproval(_, mode) => mode != "automatic" && mode != "confirm"
             case AddAllow(_, argv) => argv == []
             case RemoveArgv(_, argv) => argv == []
             case DropProject(alias, confirmation, id) =>
               confirmation != alias || alias == "" || |id| != 32
               || exists k :: 0 <= k < |id| && !('0' <= id[k] <= '9' || 'a' <= id[k] <= 'f')
             case Restore(a, confirmation) => confirmation != a.project || a.project == ""
    ensures Derive(f, revision, e, data) == Refused
  {
    hide ReplaceFields, RemoveProject, RemoveAllow, InsertAllow, ReplaceApproval, AppendProject, C.Valid, C.Defaulted,
         C.WorkerConfig;
  }

  /** An edit of a project that is not there is refused, and so is a second project of the same alias. */
  lemma AliasDecides(f: C.Foreign, revision: string, e: Edit, data: string, c: C.Config, alias: string)
    requires ReadPolicy(f, revision, data) == Some(c)
    requires match e
             case CreateProject(p) =>
               p.alias == alias && exists k :: 0 <= k < |c.projects| && c.projects[k].alias == alias
             case Restore(_, _) => false
             case _ => e.alias == alias && forall k :: 0 <= k < |c.projects| ==> c.projects[k].alias != alias
    ensures Derive(f, revision, e, data) == Refused
  {
    hide ReplaceFields, RemoveProject, RemoveAllow, InsertAllow, ReplaceApproval, AppendProject, ReadPolicy, Checked;
  }
}
