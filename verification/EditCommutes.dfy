/**
 What the editor answers on a canonical policy, for values that their encoding represents
 faithfully: exactly when it writes the spliced text and when it refuses.

 The only assumption about the TOML library is that it agrees with the canonical reading on
 every text that the canonical reading accepts.
 */
module EditCommutes {
  import opened Basics
  import opened TomlStrings
  import opened Layout
  import opened Splice
  import opened Removal
  import opened EntryReading
  import opened DocReading
  import opened Reading
  import opened Commutes
  import opened ApprovalCommutes
  import opened ProjectCommutes
  import opened AllowCommutes
  import opened CleanText
  import opened Repeats
  import E = Edits
  import C = Config

  type SettingsReader = seq<string> -> Option<C.Settings>

  ghost predicate Agrees(f: C.Foreign, settingsOf: SettingsReader) {
    forall data :: CanonicalToml(settingsOf, data).Some? ==> f.toml(data) == CanonicalToml(settingsOf, data)
  }

  predicate Canonical(settingsOf: SettingsReader, data: string) { CanonicalToml(settingsOf, data).Some? }

  /** What a project table means once defaults are filled in. */
  function Final(p: RawProject): C.Project { C.DefaultedProject(ProjectOf(p)) }

  predicate Means(projects: seq<C.Project>, raw: seq<RawProject>) {
    |projects| == |raw| && forall i :: 0 <= i < |raw| ==> projects[i] == Final(raw[i])
  }

  /** The policy as the editor reads it, and the canonical reading behind it. */
  ghost predicate Editing(f: C.Foreign, settingsOf: SettingsReader, revision: string, data: string, c: C.Config) {
    && Agrees(f, settingsOf) && Canonical(settingsOf, data) && E.ReadPolicy(f, revision, data) == Some(c)
    && ReadText(data).Some?
  }

  lemma EditingMeans(f: C.Foreign, settingsOf: SettingsReader, revision: string, data: string, c: C.Config)
    requires Editing(f, settingsOf, revision, data, c)
    ensures Means(c.projects, ReadText(data).value.projects)
    ensures C.Valid(f, c) && C.WorkerConfig(c) && Clean(data)
  {
    hide ReadDoc, DocOf, C.Valid, C.WorkerConfig, ProjectOf, C.DefaultedProject;
    assert f.toml(data) == CanonicalToml(settingsOf, data);
  }

  /** The settings once defaults are filled in. */
  function FinalSettings(settings: C.Settings): C.Settings { C.Defaulted(C.Config(settings, [])).settings }

  /**
   What the run-time checks make of a canonical text: they pass it exactly if it reads as the
   intended projects and, defaults filled in, the same settings.
   */
  lemma EditChecked(f: C.Foreign, settingsOf: SettingsReader, revision: string, data: string, c: C.Config,
                    u: string, settings: C.Settings, expected: C.Config)
    requires Editing(f, settingsOf, revision, data, c)
    requires Clean(u) && ReadText(u).Some? && settingsOf(ReadText(u).value.rest) == Some(settings)
    requires expected.settings == c.settings && C.ValidProjects(expected.projects)
    requires forall i :: 0 <= i < |expected.projects| ==> C.IsAbs(expected.projects[i].workingDir)
    ensures E.Checked(f, Some(u), expected)
            == if FinalSettings(settings) == c.settings && Means(expected.projects, ReadText(u).value.projects)
               then E.Replace(u) else E.Refused
  {
    hide ReadDoc, DocOf, C.WorkerSettings, C.ValidProjects, C.ValidSettings, ProjectOf, C.DefaultedProject, C.IsAbs,
         Clean;
    assert f.toml(data) == CanonicalToml(settingsOf, data);
    assert f.toml(u) == CanonicalToml(settingsOf, u);
    var parsed := C.Defaulted(f.toml(u).value);
    assert parsed.settings == FinalSettings(settings);
    assert parsed.projects == expected.projects <==> Means(expected.projects, ReadText(u).value.projects);
  }

  /** An edit that reads as intended, of a policy that stays valid, passes the run-time checks. */
  lemma EditAccepted(f: C.Foreign, settingsOf: SettingsReader, revision: string, data: string, c: C.Config,
                     u: string, raw: seq<RawProject>, expected: C.Config)
    requires Editing(f, settingsOf, revision, data, c)
    requires Clean(u) && ReadText(u) == Some(Read(ReadText(data).value.rest, raw))
    requires expected.settings == c.settings && Means(expected.projects, raw)
    requires C.ValidProjects(expected.projects)
    requires forall i :: 0 <= i < |expected.projects| ==> C.IsAbs(expected.projects[i].workingDir)
    ensures E.Checked(f, Some(u), expected) == E.Replace(u)
  {
    hide C.ValidProjects, Means, C.IsAbs, Clean, E.Checked, FinalSettings;
    SettingsOfPolicy(f, settingsOf, revision, data, c);
    EditChecked(f, settingsOf, revision, data, c, u, settingsOf(ReadText(data).value.rest).value, expected);
  }

  /** Off the canonical layout the library decides: accepted exactly if it reads what is intended. */
  lemma LibraryDecides(f: C.Foreign, c: C.Config, u: string, expected: C.Config)
    requires C.WorkerConfig(c) && expected.settings == c.settings
    requires forall i :: 0 <= i < |expected.projects| ==> C.IsAbs(expected.projects[i].workingDir)
    ensures E.Checked(f, Some(u), expected) == ByLibrary(f, u, expected)
  {
    hide C.Parse, C.IsAbs, C.WorkerSettings;
  }

  function ByLibrary(f: C.Foreign, u: string, expected: C.Config): E.Derived {
    if C.Parse(f, u) == Some(expected) then E.Replace(u) else E.Refused
  }

  lemma SettingsOfPolicy(f: C.Foreign, settingsOf: SettingsReader, revision: string, data: string, c: C.Config)
    requires Editing(f, settingsOf, revision, data, c)
    ensures settingsOf(ReadText(data).value.rest).Some?
    ensures FinalSettings(settingsOf(ReadText(data).value.rest).value) == c.settings
  {
    hide ReadDoc, DocOf, C.Valid, C.WorkerConfig, ProjectOf, C.DefaultedProject;
    assert f.toml(data) == CanonicalToml(settingsOf, data);
  }

  // ----- Create -----

  lemma CreateValid(f: C.Foreign, c: C.Config, p: C.Project)
    requires C.Valid(f, c) && C.WorkerConfig(c) && E.ValidInput(p) && C.IndexOf(c.projects, p.alias) == |c.projects|
    ensures var projects := c.projects + [E.NewProject(p)];
            C.ValidProjects(projects) && forall i :: 0 <= i < |projects| ==> C.IsAbs(projects[i].workingDir)
  {
    hide C.ValidSettings, C.WorkerSettings, C.IsAbs;
  }

  lemma NewFinal(input: C.Project)
    ensures Final(NewRaw(E.NewProject(input))) == E.NewProject(input)
  {
  }

  /** Creating a project is refused only for invalid input or a taken alias. */
  lemma CreateAccepted(f: C.Foreign, settingsOf: SettingsReader, revision: string, data: string, c: C.Config,
                       input: C.Project)
    requires Editing(f, settingsOf, revision, data, c) && WritableProject(input)
    ensures E.Derive(f, revision, E.CreateProject(input), data)
            == if E.ValidInput(input) && forall i :: 0 <= i < |c.projects| ==> c.projects[i].alias != input.alias
               then E.Replace(AppendProject(data, E.NewProject(input))) else E.Refused
  {
    hide ReadText, AppendProject, Writable, C.Valid, C.WorkerConfig, E.Checked, Final, NewRaw, Clean;
    EditingMeans(f, settingsOf, revision, data, c);
    var p := E.NewProject(input);
    if E.ValidInput(input) && C.IndexOf(c.projects, input.alias) == |c.projects| {
      AppendProjectCommutes(data, p);
      AppendProjectClean(data, p);
      CreateValid(f, c, input);
      NewFinal(input);
      EditAccepted(f, settingsOf, revision, data, c, AppendProject(data, p),
                   ReadText(data).value.projects + [NewRaw(p)], E.AddProject(c, p));
    }
  }

  // ----- One project replaced -----

  lemma SetValid(f: C.Foreign, c: C.Config, i: nat, p: C.Project)
    requires C.Valid(f, c) && C.WorkerConfig(c) && i < |c.projects|
    requires C.ValidProject(p) && p.alias == c.projects[i].alias && C.IsAbs(p.workingDir)
    ensures var projects := c.projects[i := p];
            C.ValidProjects(projects) && forall k :: 0 <= k < |projects| ==> C.IsAbs(projects[k].workingDir)
  {
    hide C.ValidSettings, C.WorkerSettings, C.IsAbs, C.ValidProject;
  }

  lemma ProjectAt(f: C.Foreign, c: C.Config, i: nat)
    requires C.Valid(f, c) && C.WorkerConfig(c) && i < |c.projects|
    ensures C.ValidProject(c.projects[i]) && C.IsAbs(c.projects[i].workingDir)
  {
  }

  lemma MeansSet(projects: seq<C.Project>, raw: seq<RawProject>, i: nat, p: C.Project, r: RawProject)
    requires Means(projects, raw) && i < |raw| && p == Final(r)
    ensures Means(projects[i := p], raw[i := r])
  {
    hide Final;
  }

  /** The general case of an edit of one project. */
  lemma SetAccepted(f: C.Foreign, settingsOf: SettingsReader, revision: string, data: string, c: C.Config,
                    i: nat, p: C.Project, r: RawProject, u: string)
    requires Editing(f, settingsOf, revision, data, c) && i < |c.projects| && i < |ReadText(data).value.projects|
    requires Clean(u) && ReadText(u) == Some(Read(ReadText(data).value.rest, ReadText(data).value.projects[i := r]))
    requires p == Final(r) && C.ValidProject(p) && p.alias == c.projects[i].alias && C.IsAbs(p.workingDir)
    ensures E.Checked(f, Some(u), E.SetProject(c, i, p)) == E.Replace(u)
  {
    hide ReadText, C.Valid, C.WorkerConfig, E.Checked, Final, Means, C.ValidProject, C.IsAbs, C.ValidProjects, Clean;
    EditingMeans(f, settingsOf, revision, data, c);
    SetValid(f, c, i, p);
    MeansSet(c.projects, ReadText(data).value.projects, i, p, r);
    EditAccepted(f, settingsOf, revision, data, c, u, ReadText(data).value.projects[i := r], E.SetProject(c, i, p));
  }

  lemma AllowFinal(r: RawProject, argv: seq<string>)
    ensures Final(r.(allow := r.allow + [Some(argv)])) == Final(r).(allow := Final(r).allow + [argv])
  {
    var r' := r.(allow := r.allow + [Some(argv)]);
    assert ProjectOf(r').allow == ProjectOf(r).allow + [argv];
  }

  lemma AllowCount(r: RawProject)
    ensures |Final(r).allow| == |r.allow|
  {
  }

  lemma AddIs(f: C.Foreign, revision: string, data: string, c: C.Config, alias: string, argv: seq<string>)
    requires E.ReadPolicy(f, revision, data) == Some(c) && argv != []
    ensures var i := C.IndexOf(c.projects, alias);
            E.Derive(f, revision, E.AddAllow(alias, argv), data)
            == if i == |c.projects| then E.Refused
               else if argv in c.projects[i].allow then E.Unchanged
               else E.Checked(f, InsertAllow(data, |c.projects|, i, |c.projects[i].allow|, argv),
                              E.SetProject(c, i, c.projects[i].(allow := c.projects[i].allow + [argv])))
  {
    hide InsertAllow, E.Checked, E.ReadPolicy;
  }

  /** Adding a command is refused only for an empty argv or an unknown project. */
  lemma AddAccepted(f: C.Foreign, settingsOf: SettingsReader, revision: string, data: string, c: C.Config,
                    alias: string, argv: seq<string>)
    requires Editing(f, settingsOf, revision, data, c) && AllWritable(argv)
    ensures var i := C.IndexOf(c.projects, alias);
            && i <= |c.projects|
            && (i == |c.projects| ==> E.Derive(f, revision, E.AddAllow(alias, argv), data) == E.Refused)
            && (i < |c.projects| && argv in c.projects[i].allow ==>
                  E.Derive(f, revision, E.AddAllow(alias, argv), data) == E.Unchanged)
            && (i < |c.projects| && argv !in c.projects[i].allow ==>
                  InsertAllow(data, |c.projects|, i, |c.projects[i].allow|, argv).Some?
                  && E.Derive(f, revision, E.AddAllow(alias, argv), data)
                     == E.Replace(InsertAllow(data, |c.projects|, i, |c.projects[i].allow|, argv).value))
  {
    hide ReadText, InsertAllow, Writable, C.Valid, C.WorkerConfig, E.Checked, Final, C.ValidProject, C.IsAbs, Clean,
         E.Derive, E.ReadPolicy, Canonical, Agrees;
    EditingMeans(f, settingsOf, revision, data, c);
    AddIs(f, revision, data, c, alias, argv);
    var i := C.IndexOf(c.projects, alias);
    if i < |c.projects| && argv !in c.projects[i].allow {
      var r := ReadText(data).value.projects[i];
      AllowCount(r);
      InsertAllowSucceeds(data, i, argv);
      var u := InsertAllow(data, |c.projects|, i, |c.projects[i].allow|, argv).value;
      InsertAllowCommutes(data, i, argv, u);
      InsertAllowClean(data, |c.projects|, i, |c.projects[i].allow|, argv, u);
      AllowFinal(r, argv);
      AddStaysValid(f, c, i, argv);
      SetAccepted(f, settingsOf, revision, data, c, i, c.projects[i].(allow := c.projects[i].allow + [argv]),
                  r.(allow := r.allow + [Some(argv)]), u);
    }
  }

  lemma AddStaysValid(f: C.Foreign, c: C.Config, i: nat, argv: seq<string>)
    requires C.Valid(f, c) && C.WorkerConfig(c) && i < |c.projects| && argv != []
    ensures var p := c.projects[i].(allow := c.projects[i].allow + [argv]); C.ValidProject(p) && C.IsAbs(p.workingDir)
  {
    ProjectAt(f, c, i);
  }

  // ----- Removing a command -----

  lemma {:induction false} KeepIsWithout(raw: seq<Option<seq<string>>>, allow: seq<seq<string>>, argv: seq<string>,
                                         remove: set<int>)
    requires |allow| == |raw| && forall k :: 0 <= k < |raw| ==> allow[k] == ArgvOr(raw[k])
    requires forall k: int :: 0 <= k < |raw| ==> (k in remove <==> allow[k] == argv)
    ensures |Keep(raw, remove)| == |Without(allow, argv)|
    ensures forall k :: 0 <= k < |Keep(raw, remove)| ==> Without(allow, argv)[k] == ArgvOr(Keep(raw, remove)[k])
  {
    if raw != [] {
      var n := |raw| - 1;
      KeepIsWithout(raw[..n], allow[..n], argv, remove);
    }
  }

  lemma WithoutFinal(r: RawProject, argv: seq<string>)
    ensures Final(r.(allow := Keep(r.allow, Chosen(Positions(Final(r).allow, argv)))))
            == Final(r).(allow := Without(Final(r).allow, argv))
  {
    var allow := Final(r).allow;
    PositionsExact(allow, argv);
    var remove := Chosen(Positions(allow, argv));
    KeepIsWithout(r.allow, allow, argv, remove);
    hide Keep, Without, Positions;
    var r' := r.(allow := Keep(r.allow, remove));
    assert ProjectOf(r').allow == Without(allow, argv);
  }

  lemma PositionsHaveEntries(r: RawProject, argv: seq<string>)
    requires argv != []
    ensures HasEntries(r, Positions(Final(r).allow, argv))
  {
    var allow := Final(r).allow;
    PositionsExact(allow, argv);
    var ps := Positions(allow, argv);
    hide Positions;
    forall j | 0 <= j < |ps| ensures 0 <= ps[j] < |r.allow| && r.allow[ps[j]].Some? {
      assert ps[j] in ps;
      assert allow[ps[j]] == ArgvOr(r.allow[ps[j]]);
    }
  }

  lemma {:induction false} WithoutFrom(allow: seq<seq<string>>, argv: seq<string>)
    requires forall k :: 0 <= k < |allow| ==> allow[k] != []
    ensures forall k :: 0 <= k < |Without(allow, argv)| ==> Without(allow, argv)[k] != []
  {
    if allow != [] { WithoutFrom(allow[..|allow| - 1], argv); }
  }

  lemma RemoveStaysValid(f: C.Foreign, c: C.Config, i: nat, argv: seq<string>)
    requires C.Valid(f, c) && C.WorkerConfig(c) && i < |c.projects|
    ensures var p := c.projects[i].(allow := Without(c.projects[i].allow, argv));
            C.ValidProject(p) && C.IsAbs(p.workingDir)
  {
    ProjectAt(f, c, i);
    WithoutFrom(c.projects[i].allow, argv);
  }

  lemma RemoveIs(f: C.Foreign, revision: string, data: string, c: C.Config, alias: string, argv: seq<string>, i: nat)
    requires E.ReadPolicy(f, revision, data) == Some(c) && argv != []
    requires i == C.IndexOf(c.projects, alias) && i < |c.projects| && argv in c.projects[i].allow
    ensures E.Derive(f, revision, E.RemoveArgv(alias, argv), data)
            == E.Checked(f, RemoveAllow(data, |c.projects|, i, |c.projects[i].allow|,
                                        Positions(c.projects[i].allow, argv)),
                         E.SetProject(c, i, c.projects[i].(allow := Without(c.projects[i].allow, argv))))
  {
    hide RemoveAllow, E.Checked, Positions, Without, E.ReadPolicy;
  }

  /**
   Removing a command: refused exactly if another table inside the section of one of its
   entries holds an argv line of its own.
   */
  lemma RemoveAccepted(f: C.Foreign, settingsOf: SettingsReader, revision: string, data: string, c: C.Config,
                       alias: string, argv: seq<string>, i: nat, u: Option<string>)
    requires Editing(f, settingsOf, revision, data, c) && argv != []
    requires i == C.IndexOf(c.projects, alias) && i < |c.projects| && argv in c.projects[i].allow
    requires u == RemoveAllow(data, |c.projects|, i, |c.projects[i].allow|, Positions(c.projects[i].allow, argv))
    ensures i < |DocOf(data).blocks|
    ensures u.Some? <==> Unrepeated(BlockLines(data, i), c.projects[i].allow, argv)
    ensures E.Derive(f, revision, E.RemoveArgv(alias, argv), data) == if u.Some? then E.Replace(u.value) else E.Refused
  {
    hide ReadText, RemoveAllow, C.Valid, C.WorkerConfig, E.Checked, Final, C.ValidProject, C.IsAbs, Positions, Without,
         Keep, HasEntries, E.Derive, E.ReadPolicy, Canonical, Agrees, Clean, DocOf, BlockLines, NoRepeatedArgvs,
         Unrepeated, Increasing;
    EditingMeans(f, settingsOf, revision, data, c);
    RemoveIs(f, revision, data, c, alias, argv, i);
    CheckedNone(f, c);
    var r := ReadText(data).value.projects[i];
    var remove := Positions(c.projects[i].allow, argv);
    AllowCount(r);
    PositionsHaveEntries(r, argv);
    PositionsOf(c.projects[i].allow, argv);
    RemoveAllowSucceeds(data, i, remove);
    EachPosition(BlockLines(data, i), c.projects[i].allow, argv);
    if u.Some? {
      RemoveAllowCommutes(data, i, remove, u.value);
      RemoveAllowClean(data, |c.projects|, i, |c.projects[i].allow|, remove, u.value);
      WithoutFinal(r, argv);
      RemoveStaysValid(f, c, i, argv);
      SetAccepted(f, settingsOf, revision, data, c, i, c.projects[i].(allow := Without(c.projects[i].allow, argv)),
                  r.(allow := Keep(r.allow, Chosen(remove))), u.value);
    }
  }

  /** No other table inside the section of an entry with this argv holds an argv line. */
  predicate Unrepeated(lines: seq<string>, allow: seq<seq<string>>, argv: seq<string>) {
    forall e: int :: 0 <= e < |allow| && allow[e] == argv ==> NoRepeatedArgv(lines, e)
  }

  lemma EachPosition(lines: seq<string>, allow: seq<seq<string>>, argv: seq<string>)
    ensures NoRepeatedArgvs(lines, Positions(allow, argv)) <==> Unrepeated(lines, allow, argv)
  {
    hide NoRepeatedArgv, Positions;
    PositionsOf(allow, argv);
    var remove := Positions(allow, argv);
    if NoRepeatedArgvs(lines, remove) {
      forall e: int | 0 <= e < |allow| && allow[e] == argv ensures NoRepeatedArgv(lines, e) {
        assert e in remove;
      }
    }
    if Unrepeated(lines, allow, argv) {
      forall j | 0 <= j < |remove| ensures NoRepeatedArgv(lines, remove[j]) {
        assert remove[j] in remove;
      }
    }
  }

  lemma PositionsOf(allow: seq<seq<string>>, argv: seq<string>)
    ensures Increasing(Positions(allow, argv))
    ensures forall e: int :: e in Positions(allow, argv) <==> 0 <= e < |allow| && allow[e] == argv
  {
    PositionsExact(allow, argv);
  }

  lemma CheckedNone(f: C.Foreign, c: C.Config)
    ensures forall expected :: E.Checked(f, None, expected) == E.Refused
  {
  }

  // ----- Metadata -----

  predicate WritableChanges(changes: seq<E.FieldValue>) {
    forall k :: 0 <= k < |changes| ==> Writable(changes[k].value)
  }

  function WithFields(fields: map<Key, string>, changes: seq<E.FieldValue>): map<Key, string>
    decreases |changes|
  {
    if changes == [] then fields else WithFields(fields[changes[0].key := changes[0].value], changes[1..])
  }

  /** Replacing fields one after the other. */
  lemma {:induction false} ReplaceFieldsCommutes(data: string, i: nat, changes: seq<E.FieldValue>, u: string)
    requires ReadText(data).Some? && i < |ReadText(data).value.projects| && WritableChanges(changes)
    requires forall k :: 0 <= k < |changes| ==> changes[k].key in ReadText(data).value.projects[i].fields
    requires E.ReplaceFields(data, |ReadText(data).value.projects|, i, changes) == Some(u)
    ensures var r := ReadText(data).value;
            ReadText(u)
            == Some(Read(r.rest, r.projects[i := r.projects[i].(fields := WithFields(r.projects[i].fields, changes))]))
    decreases |changes|
  {
    hide ReadText, ReplaceField, KeyName, Writable;
    var r := ReadText(data).value;
    if changes == [] {
      assert r.projects[i := r.projects[i]] == r.projects;
    } else {
      var first := changes[0];
      var next := ReplaceField(data, |r.projects|, i, KeyName(first.key), first.value).value;
      assert SelectedField(data, i, first.key);
      ReplaceFieldCommutes(data, i, first.key, first.value, next);
      ReplaceFieldsCommutes(next, i, changes[1..], u);
      var after := r.projects[i].(fields := r.projects[i].fields[first.key := first.value]);
      var all := after.(fields := WithFields(after.fields, changes[1..]));
      assert r.projects[i := after][i := all] == r.projects[i := all];
    }
  }

  lemma {:induction false} UpdateFinal(r: RawProject, up: E.MetadataUpdate)
    requires ProjectId in r.fields && TokenEntry in r.fields && WorkingDir in r.fields
    ensures Final(r.(fields := WithFields(r.fields, E.Changes(Final(r), up)))) == E.Updated(Final(r), up)
  {
    var p := Final(r);
    var a := E.FieldChange(ProjectId, p.bwsProjectId, up.projectId);
    var b := E.FieldChange(TokenEntry, p.tokenEntry, up.tokenEntry);
    var d := E.FieldChange(WorkingDir, p.workingDir, up.workingDir);
    FieldsThen(r.fields, a, b + d);
    FieldsThen(WithFields(r.fields, a), b, d);
    assert a + (b + d) == E.Changes(p, up);
    OneChange(r.fields, ProjectId, p.bwsProjectId, up.projectId);
    OneChange(WithFields(r.fields, a), TokenEntry, p.tokenEntry, up.tokenEntry);
    OneChange(WithFields(WithFields(r.fields, a), b), WorkingDir, p.workingDir, up.workingDir);
    hide WithFields, E.FieldChange;
  }

  lemma {:induction false} FieldsThen(fields: map<Key, string>, a: seq<E.FieldValue>, b: seq<E.FieldValue>)
    ensures WithFields(fields, a + b) == WithFields(WithFields(fields, a), b)
    decreases |a|
  {
    if a == [] {
      assert a + b == b;
    } else {
      assert (a + b)[1..] == a[1..] + b;
      FieldsThen(fields[a[0].key := a[0].value], a[1..], b);
    }
  }

  lemma OneChange(fields: map<Key, string>, key: Key, current: string, value: Option<string>)
    requires key in fields && fields[key] == current
    ensures WithFields(fields, E.FieldChange(key, current, value)) == fields[key := E.Or(value, current)]
  {
    assert fields[key := current] == fields;
  }

  lemma FieldsPresent(f: C.Foreign, c: C.Config, i: nat, r: RawProject)
    requires C.Valid(f, c) && C.WorkerConfig(c) && i < |c.projects| && c.projects[i] == Final(r)
    ensures ProjectId in r.fields && TokenEntry in r.fields && WorkingDir in r.fields
  {
    ProjectAt(f, c, i);
  }

  lemma ChangedKeys(p: C.Project, up: E.MetadataUpdate)
    ensures forall k :: 0 <= k < |E.Changes(p, up)| ==> E.Changes(p, up)[k].key in {ProjectId, TokenEntry, WorkingDir}
  {
  }

  lemma UpdateStaysValid(f: C.Foreign, c: C.Config, i: nat, up: E.MetadataUpdate)
    requires C.Valid(f, c) && C.WorkerConfig(c) && i < |c.projects| && E.ValidUpdate(up)
    ensures var p := E.Updated(c.projects[i], up); C.ValidProject(p) && C.IsAbs(p.workingDir)
  {
    ProjectAt(f, c, i);
  }

  /** Replacing several fields fails exactly if another table in the block repeats one of them. */
  lemma {:induction false} ReplaceFieldsSucceeds(data: string, i: nat, changes: seq<E.FieldValue>)
    requires ReadText(data).Some? && i < |ReadText(data).value.projects| && WritableChanges(changes)
    requires forall k :: 0 <= k < |changes| ==> changes[k].key in ReadText(data).value.projects[i].fields
    ensures i < |DocOf(data).blocks|
    ensures E.ReplaceFields(data, |ReadText(data).value.projects|, i, changes).Some?
            <==> forall k :: 0 <= k < |changes| ==> NoRepeatedField(BlockLines(data, i), KeyName(changes[k].key))
    decreases |changes|
  {
    hide ReadText, ReplaceField, KeyName, Writable, DocOf, BlockLines, NoRepeatedField;
    BlockLinesRead(data, i);
    if changes != [] {
      var first, rest, n := changes[0], changes[1..], |ReadText(data).value.projects|;
      assert SelectedField(data, i, first.key);
      ReplaceFieldSucceeds(data, i, first.key, first.value);
      if ReplaceField(data, n, i, KeyName(first.key), first.value).Some? {
        var next := ReplaceField(data, n, i, KeyName(first.key), first.value).value;
        ReplaceFieldCommutes(data, i, first.key, first.value, next);
        ReplaceFieldsSucceeds(next, i, rest);
        forall k | 0 <= k < |rest|
          ensures NoRepeatedField(BlockLines(next, i), KeyName(rest[k].key))
                  <==> NoRepeatedField(BlockLines(data, i), KeyName(rest[k].key))
        {
          RepeatsStay(data, i, first.key, first.value, next, KeyName(rest[k].key));
        }
        assert forall k :: 0 <= k < |rest| ==> rest[k] == changes[k + 1];
        assert forall k :: 1 <= k < |changes| ==> changes[k] == rest[k - 1];
      }
    }
  }

  lemma {:induction false} ReplaceFieldsClean(data: string, count: nat, i: nat, changes: seq<E.FieldValue>, u: string)
    requires Clean(data) && WritableChanges(changes) && E.ReplaceFields(data, count, i, changes) == Some(u)
    ensures Clean(u)
    decreases |changes|
  {
    hide Clean, ReplaceField, KeyName, Writable;
    if changes != [] {
      var next := ReplaceField(data, count, i, KeyName(changes[0].key), changes[0].value).value;
      ReplaceFieldClean(data, count, i, KeyName(changes[0].key), changes[0].value, next);
      ReplaceFieldsClean(next, count, i, changes[1..], u);
    }
  }

  /** Updating metadata: refused exactly if another table inside the block repeats a changed field. */
  lemma MetadataAccepted(f: C.Foreign, settingsOf: SettingsReader, revision: string, data: string, c: C.Config,
                         alias: string, up: E.MetadataUpdate, i: nat, u: Option<string>)
    requires Editing(f, settingsOf, revision, data, c) && E.ValidUpdate(up)
    requires i == C.IndexOf(c.projects, alias) && i < |c.projects|
    requires E.Changes(c.projects[i], up) != [] && WritableChanges(E.Changes(c.projects[i], up))
    requires u == E.ReplaceFields(data, |c.projects|, i, E.Changes(c.projects[i], up))
    ensures i < |DocOf(data).blocks|
    ensures u.Some? <==> forall k :: 0 <= k < |E.Changes(c.projects[i], up)| ==>
                           NoRepeatedField(BlockLines(data, i), KeyName(E.Changes(c.projects[i], up)[k].key))
    ensures E.Derive(f, revision, E.UpdateMetadata(alias, up), data)
            == if u.Some? then E.Replace(u.value) else E.Refused
  {
    hide ReadText, E.ReplaceFields, C.Valid, C.WorkerConfig, E.Checked, Final, C.ValidProject, C.IsAbs, E.Changes,
         WithFields, WritableChanges, E.ValidUpdate, Clean, DocOf, BlockLines, NoRepeatedField, KeyName;
    EditingMeans(f, settingsOf, revision, data, c);
    CheckedNone(f, c);
    var r := ReadText(data).value.projects[i];
    var changes := E.Changes(c.projects[i], up);
    FieldsPresent(f, c, i, r);
    ChangedKeys(c.projects[i], up);
    ReplaceFieldsSucceeds(data, i, changes);
    if u.Some? {
      ReplaceFieldsCommutes(data, i, changes, u.value);
      ReplaceFieldsClean(data, |c.projects|, i, changes, u.value);
      UpdateFinal(r, up);
      UpdateStaysValid(f, c, i, up);
      SetAccepted(f, settingsOf, revision, data, c, i, E.Updated(c.projects[i], up),
                  r.(fields := WithFields(r.fields, changes)), u.value);
    }
  }

  // ----- Approval mode -----

  lemma ApprovalFinal(r: RawProject, approval: string)
    requires approval != ""
    ensures Final(r.(fields := r.fields[Approval := approval])) == Final(r).(approval := approval)
  {
  }

  lemma ApprovalStaysValid(f: C.Foreign, c: C.Config, i: nat, approval: string)
    requires C.Valid(f, c) && C.WorkerConfig(c) && i < |c.projects|
    requires approval in {C.ApprovalNever, C.ApprovalAllowlistedPrompt}
    ensures var p := c.projects[i].(approval := approval); C.ValidProject(p) && C.IsAbs(p.workingDir)
  {
    ProjectAt(f, c, i);
  }

  lemma StoredIsPlain(mode: string)
    requires E.StoredApproval(mode).Some?
    ensures PlainWord(E.StoredApproval(mode).value)
    ensures E.StoredApproval(mode).value in {C.ApprovalNever, C.ApprovalAllowlistedPrompt}
    ensures E.StoredApproval(mode).value != ""
  {
  }

  lemma ApprovalIs(f: C.Foreign, revision: string, data: string, c: C.Config, alias: string, mode: string, i: nat)
    requires E.ReadPolicy(f, revision, data) == Some(c) && E.StoredApproval(mode).Some?
    requires i == C.IndexOf(c.projects, alias) && i < |c.projects|
    requires c.projects[i].approval != E.StoredApproval(mode).value
    ensures E.Derive(f, revision, E.SetApproval(alias, mode), data)
            == E.Checked(f, ReplaceApproval(data, |c.projects|, i, E.StoredApproval(mode).value),
                         E.SetProject(c, i, c.projects[i].(approval := E.StoredApproval(mode).value)))
  {
    hide ReplaceApproval, E.Checked, E.ReadPolicy, E.StoredApproval;
  }

  /** What the run-time checks make of an approval line that is not the project's own. */
  lemma AstrayRefused(f: C.Foreign, settingsOf: SettingsReader, revision: string, data: string, c: C.Config,
                      i: nat, approval: string, u: string)
    requires Editing(f, settingsOf, revision, data, c) && i < |c.projects| && c.projects[i].approval != approval
    requires approval in {C.ApprovalNever, C.ApprovalAllowlistedPrompt}
    requires Clean(u) && SameProjects(data, u) && settingsOf(ReadText(u).value.rest).Some?
    ensures E.Checked(f, Some(u), E.SetProject(c, i, c.projects[i].(approval := approval))) == E.Refused
  {
    hide ReadText, C.Valid, C.WorkerConfig, E.Checked, Final, C.ValidProject, C.ValidProjects, C.IsAbs, Clean,
         Canonical, Agrees, FinalSettings;
    EditingMeans(f, settingsOf, revision, data, c);
    ApprovalStaysValid(f, c, i, approval);
    var p := c.projects[i].(approval := approval);
    SetValid(f, c, i, p);
    var expected := E.SetProject(c, i, p);
    assert expected.projects[i] != Final(ReadText(u).value.projects[i]);
    EditChecked(f, settingsOf, revision, data, c, u, settingsOf(ReadText(u).value.rest).value, expected);
  }

  /**
   Setting the mode: with several approval lines in the block the edit is refused. With at
   most one it is accepted if the rewritten or inserted line belongs to the project's own
   table, and refused if it does not and the table it goes to stays readable; if that table is
   no longer canonical, the library decides.
   */
  lemma ApprovalAccepted(f: C.Foreign, settingsOf: SettingsReader, revision: string, data: string, c: C.Config,
                         alias: string, mode: string, i: nat, u: Option<string>)
    requires Editing(f, settingsOf, revision, data, c) && E.StoredApproval(mode).Some?
    requires i == C.IndexOf(c.projects, alias) && i < |c.projects| && i < |ReadText(data).value.projects|
    requires c.projects[i].approval != E.StoredApproval(mode).value
    requires u == ReplaceApproval(data, |c.projects|, i, E.StoredApproval(mode).value)
    ensures i < |DocOf(data).blocks|
    ensures u.Some? <==> |FieldHits("approval", BodyText(DocOf(data), i))| <= 1
    ensures u.None? ==> E.Derive(f, revision, E.SetApproval(alias, mode), data) == E.Refused
    ensures u.Some? ==> ReadText(u.value).Some?
    ensures u.Some? && (OwnApproval(data, i) || settingsOf(ReadText(u.value).value.rest).Some?) ==>
              E.Derive(f, revision, E.SetApproval(alias, mode), data)
              == if OwnApproval(data, i) then E.Replace(u.value) else E.Refused
    ensures u.Some? && !OwnApproval(data, i) && settingsOf(ReadText(u.value).value.rest).None? ==>
              E.Derive(f, revision, E.SetApproval(alias, mode), data)
              == ByLibrary(f, u.value, E.SetProject(c, i, c.projects[i].(approval := E.StoredApproval(mode).value)))
  {
    hide ByLibrary, ReadText, ReplaceApproval, OwnApproval, C.Valid, C.WorkerConfig, E.Checked, Final, C.ValidProject,
         C.IsAbs, PlainWord, E.StoredApproval, E.Derive, E.ReadPolicy, Canonical, Agrees, Clean, DocOf, BodyText,
         FieldHits;
    EditingMeans(f, settingsOf, revision, data, c);
    ApprovalIs(f, revision, data, c, alias, mode, i);
    CheckedNone(f, c);
    var approval := E.StoredApproval(mode).value;
    StoredIsPlain(mode);
    ReplaceApprovalSucceeds(data, i, approval);
    if u.Some? {
      ReplaceApprovalExact(data, i, approval, u.value);
      ReplaceApprovalClean(data, |c.projects|, i, approval, u.value);
      if OwnApproval(data, i) {
        OwnAccepted(f, settingsOf, revision, data, c, i, approval, u.value);
      } else if settingsOf(ReadText(u.value).value.rest).Some? {
        AstrayRefused(f, settingsOf, revision, data, c, i, approval, u.value);
      }
      ModeByLibrary(f, c, i, approval, u.value);
    }
  }

  lemma ModeByLibrary(f: C.Foreign, c: C.Config, i: nat, approval: string, u: string)
    requires C.Valid(f, c) && C.WorkerConfig(c) && i < |c.projects|
    requires approval in {C.ApprovalNever, C.ApprovalAllowlistedPrompt}
    ensures var expected := E.SetProject(c, i, c.projects[i].(approval := approval));
            E.Checked(f, Some(u), expected) == ByLibrary(f, u, expected)
  {
    hide C.Valid, C.WorkerConfig, E.Checked, C.ValidProject, C.ValidProjects, C.IsAbs, ByLibrary;
    ApprovalStaysValid(f, c, i, approval);
    SetValid(f, c, i, c.projects[i].(approval := approval));
    LibraryDecides(f, c, u, E.SetProject(c, i, c.projects[i].(approval := approval)));
  }

  lemma OwnAccepted(f: C.Foreign, settingsOf: SettingsReader, revision: string, data: string, c: C.Config,
                    i: nat, approval: string, u: string)
    requires Editing(f, settingsOf, revision, data, c) && i < |c.projects| && i < |ReadText(data).value.projects|
    requires approval in {C.ApprovalNever, C.ApprovalAllowlistedPrompt} && approval != ""
    requires Clean(u) && ReadText(u) == Some(WithField(ReadText(data).value, i, Approval, approval))
    ensures E.Checked(f, Some(u), E.SetProject(c, i, c.projects[i].(approval := approval))) == E.Replace(u)
  {
    hide ReadText, C.Valid, C.WorkerConfig, E.Checked, Final, C.ValidProject, C.IsAbs, Canonical, Agrees, Clean;
    EditingMeans(f, settingsOf, revision, data, c);
    var r := ReadText(data).value.projects[i];
    ApprovalFinal(r, approval);
    ApprovalStaysValid(f, c, i, approval);
    SetAccepted(f, settingsOf, revision, data, c, i, c.projects[i].(approval := approval),
                r.(fields := r.fields[Approval := approval]), u);
  }

  // ----- Removing a project -----

  lemma DropMeans(projects: seq<C.Project>, raw: seq<RawProject>, i: nat)
    requires Means(projects, raw) && i < |raw|
    ensures Means(projects[..i] + projects[i + 1..], DropAt(raw, i))
  {
    hide Final;
  }

  lemma DropStaysValid(f: C.Foreign, c: C.Config, i: nat)
    requires C.Valid(f, c) && C.WorkerConfig(c) && i < |c.projects| && |c.projects| > 1
    ensures var projects := c.projects[..i] + c.projects[i + 1..];
            C.ValidProjects(projects) && forall k :: 0 <= k < |projects| ==> C.IsAbs(projects[k].workingDir)
  {
    hide C.ValidSettings, C.WorkerSettings, C.IsAbs, C.ValidProject;
  }

  lemma DropIs(f: C.Foreign, revision: string, data: string, c: C.Config, alias: string, id: string, i: nat)
    requires E.ReadPolicy(f, revision, data) == Some(c) && alias != "" && E.ValidId(id)
    requires i == C.IndexOf(c.projects, alias) && i < |c.projects| && |c.projects| > 1
    ensures E.Derive(f, revision, E.DropProject(alias, alias, id), data)
            == E.Checked(f, RemoveProject(data, |c.projects|, i), E.WithoutProject(c, i))
  {
    hide RemoveProject, E.Checked, E.ReadPolicy, E.ValidId;
  }

  /**
   Removing a project that is not the last one takes the tables inside its span along. If what
   is left of the other tables reads at all, the removal is accepted exactly if they still
   give the same settings, defaults filled in; so it is when there are no such tables. If it is
   no longer canonical, the library decides.
   */
  lemma DropAccepted(f: C.Foreign, settingsOf: SettingsReader, revision: string, data: string, c: C.Config,
                     alias: string, id: string, i: nat)
    requires Editing(f, settingsOf, revision, data, c) && alias != "" && E.ValidId(id)
    requires i == C.IndexOf(c.projects, alias) && i < |c.projects| && |c.projects| > 1
    ensures i < |ReadText(data).value.projects| && RemoveProject(data, |c.projects|, i).Some?
    ensures settingsOf(RestOutside(data, i)).Some? ==>
              E.Derive(f, revision, E.DropProject(alias, alias, id), data)
              == if FinalSettings(settingsOf(RestOutside(data, i)).value) == c.settings
                 then E.Replace(RemoveProject(data, |c.projects|, i).value) else E.Refused
    ensures settingsOf(RestOutside(data, i)).None? ==>
              E.Derive(f, revision, E.DropProject(alias, alias, id), data)
              == ByLibrary(f, RemoveProject(data, |c.projects|, i).value, E.WithoutProject(c, i))
    ensures i < |DocOf(data).blocks| && ReadBlock(DocOf(data).blocks[i]).Some?
    ensures NoTableInside(data, i) ==>
              E.Derive(f, revision, E.DropProject(alias, alias, id), data)
              == E.Replace(RemoveProject(data, |c.projects|, i).value)
  {
    hide ByLibrary, ReadText, RemoveProject, DocOf, ReadBlock, NoTableInside, RestOutside, C.Valid, C.WorkerConfig,
         E.Checked, Means, C.ValidProjects, C.IsAbs, E.ValidId, E.Derive, E.ReadPolicy, Canonical, Agrees, Clean,
         FinalSettings;
    EditingMeans(f, settingsOf, revision, data, c);
    DropIs(f, revision, data, c, alias, id, i);
    SameCount(c.projects, ReadText(data).value.projects);
    var raw := ReadText(data).value.projects;
    RemoveProjectExact(data, i);
    var u := RemoveProject(data, |c.projects|, i).value;
    RemoveProjectClean(data, |c.projects|, i, u);
    DropMeans(c.projects, raw, i);
    DropStaysValid(f, c, i);
    SettingsOfPolicy(f, settingsOf, revision, data, c);
    if settingsOf(RestOutside(data, i)).Some? {
      EditChecked(f, settingsOf, revision, data, c, u, settingsOf(RestOutside(data, i)).value, E.WithoutProject(c, i));
    }
    LibraryDecides(f, c, u, E.WithoutProject(c, i));
  }

  lemma SameCount(projects: seq<C.Project>, raw: seq<RawProject>)
    requires Means(projects, raw)
    ensures |projects| == |raw|
  {
  }
}
