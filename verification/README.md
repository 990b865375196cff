# Verified model of secrets-broker

secrets-broker runs commands with injected secrets on behalf of untrusted callers. A policy
file says which project may run which exact argv, in which directory, and when a human has to
approve. This project models the parts of the broker in which mistakes would be hardest to
see, and proves what they are for:

- **The policy editor** (`internal/admin`). Text splices that edit a TOML file in place, the
  read / derive / lock / recheck / rename protocol by which several administrators replace
  it, and the recovery artifacts of project removal.
- **The approval protocol** (`internal/broker`, `internal/approval`, `internal/relay`). From a
  request to an execution, through a relay and a human.
- **Two printers whose output has to determine their input**: the approval prompt and the
  quoted command line of the runner.
- **The administrator web server** (`internal/adminweb`): form tokens, review and commit, the
  cache of check results, and the connection slots.

`dafny verify dfyconfig.toml` checks everything.

## How the model is built

| files | content |
|---|---|
| `Basics`, `Text`, `Utf8` | options, lines of a text, bytes and runes |
| `Config` | the policy configuration: defaults, validation, lookup, exact argv matching |
| `Prompt`, `PromptShown`, `Shell` | Go string quoting and the prompt, and what of a command it shows; the runner's arguments and the shell's reading of them |
| `TomlStrings`, `Layout` | the JSON writer and the TOML string reader; the line patterns and the canonical reading of a policy text |
| `Splice`, `Removal` | the byte splices of `policy.go`, function by function |
| `Reading`, `BlockReading`, `EntryReading`, `DocReading` | how edited lines, blocks and documents are read |
| `Commutes`, `ApprovalCommutes`, `ProjectCommutes`, `AllowCommutes`, `Repeats`, `CleanText`, `LineEnds`, `Outside` | each splice edits exactly what it should, when it refuses, that its result is again legal TOML text with the same line endings, and that it touches nothing else |
| `Edits`, `EditCommutes`, `Misplaced` | the operations of `Editor` as functions of the bytes read; removal and restoration; exactly when the editor writes and when it refuses, and two edits that go wrong |
| `EditorMachine`, `Contention`, `Outsiders`, `RecoveryIds`, `ArtifactSize`, `LoneEdit` | any number of editors on one path, step by step, with crashes; what a held lock does to them, and a writer outside their protocol; the recovery artifacts of their removals and their size limit; an undisturbed edit succeeds |
| `Audit`, `AuditedRuns` | the audit wrapper, and its records against what the editors did to the policy |
| `RelayStore`, `Approver`, `Broker`, `ApprovalProtocol`, `ProtocolSteps` | the relay's table, the polling loop, `Run` and `DryRun`, all of them running together, that the broker's steps there are those of the code, and that an approved request runs |
| `Controls`, `WebTokens`, `WebMachine`, `FormRounds`, `WebEdits`, `FormLaws`, `CheckCache`, `PeerListener` | the web server's state, request by request; what it lets through; what its editor calls do to the policy, and that this is what the form asked for |

Go strings and byte slices are Dafny strings with one character per byte. Nil and empty
slices are the same sequence. Times are integers.

Code that is not part of the repository enters as parameters. `Config.Foreign` holds the TOML
library, the URL check and the SHA-256 digest as arbitrary functions. The regular expressions
are given by the lines they match. For the results about the canonical layout, `Layout` defines
a reading of `[[projects]]` and `[[projects.allow]]` lines (TOML v1.0.0, sections "String",
"Array" and "Array of Tables"), and the library is assumed to agree with it on every text that
the reading accepts (`EditCommutes.Agrees`); it may do anything on other texts. The reading
accepts only valid UTF-8 without control characters, in comments too (sections "Spec" and
"Comment"); `CleanText` proves that the splices keep this. The lines of all other tables go to
a parameter `settingsOf`, which refuses what it cannot read line by line.

Assumptions, stated where they are used:

- *Editors*: every file placed at the path has an identity tuple no earlier one had; everybody
  who writes follows the protocol (`Outsiders` does without this); `flock` is exclusive per file
  and released by close or crash; removing a name during cleanup works.
- *Recovery artifacts* (`RecoveryIds`): runs are careful, that is, whenever a publication
  removes its name for the second time, nobody has linked the ID since the first. Otherwise
  removals may share IDs at will. `RecoveryIds.CarefulExact` shows that exactly the careful
  steps leave the artifacts of others alone, and `LoneEdit.ArtifactLost` is the run that fails.
- *Digests*: no property is assumed globally except, where stated, the form of a digest
  (`Edits.DigestLaw`). That bytes with a given revision are the reviewed bytes is stated for
  texts that do not collide.
- *Approval*: the clock does not run backwards and request IDs are not used twice. Messages may
  be lost, delayed, repeated and reordered, and the relay may restart.
- *Web server*: tokens are never issued twice and cannot be guessed before they are shown; one
  clock reading per critical section; a review attaches its change before the new token
  expires (`WebTokens.AttachBounded` shows exactly what this is needed for); a policy that
  changed between a review's read and its revision check has not changed back.

Where the model shows that a splice does not always do what is meant, the exact condition is
proved:

- A removed span that contains lines of another table takes them with it
  (`ProjectCommutes.RemoveProjectExact`). The comparison after re-parsing does not always
  notice: the TOML library ignores tables and keys that Config does not know
  (`internal/config/config.go:151`), and a known table may only repeat defaults.
  `EditCommutes.DropAccepted` proves that the removal is accepted exactly if the lines left
  give the same settings, and `Misplaced.RemovalTakesTable` is a family of valid policies on
  which a table is lost.
- An approval line can land in another table (`ApprovalCommutes.ReplaceApprovalExact`). Then
  no project changes, and the comparison refuses the edit (`EditCommutes.ApprovalAccepted`,
  `Misplaced.ApprovalGoesAstray`).
- A value with U+007F or invalid UTF-8 does not survive its JSON encoding
  (`TomlStrings.WriteReadExact`).
- A field or argv line repeated in another table inside the block makes the splice refuse
  (`Repeats.ReplaceFieldSucceeds`, `Repeats.RemoveAllowSucceeds`).
- When the recovery directory cannot be synced, `Publish` removes the final name twice
  (`internal/admin/recovery.go:160-164` and the deferred removal). The second removal can take
  away an artifact that another removal linked in between (`LoneEdit.ArtifactLost`).
- A removal is refused, with no system call failing, when its encoded artifact exceeds 2 MiB
  (`LoneEdit.RemovalTooLarge`). `ArtifactSize` gives the size exactly: a policy within its
  limit always fits with an alias of up to 116,458 bytes, and a policy of the full 1 MiB never
  with one of 698,781 bytes or more.
- `commit` reads the project again to decide which metadata fields to send, without the
  guard of the revision (`internal/adminweb/controls.go:212-217`). The result has the fields of
  the form if and only if every field that looked up to date then is up to date in the policy
  the editor reads (`FormLaws.MetadataExactly`). Because the edit itself is guarded, it takes a
  policy that changed and changed back for this to fail; `FormLaws.StaleCommit` is a form that
  then leaves an old identifier behind.
- A writer outside the protocol who replaces the policy between an editor's second recheck and
  its rename is overwritten unread (`Outsiders.WindowLoses`). At any other moment no update is
  lost (`Outsiders.OverwritesRead`).

An error after the rename is reported as a failure although the policy was replaced
(`internal/admin/policy.go:731-738`); the machine keeps the two kinds of failure apart.

## Model

| member | source | states |
|---|---|---|
| `EditorMachine.VersionsSound` | internal/admin/policy.go:661-740 | in every run of any editors, crashes included, every version that ever stood at the path is at most 1 MiB, parses, is valid and worker-ready, has a project and unique aliases, and keeps owner, group and mode |
| `EditorMachine.OneChain` | internal/admin/policy.go:594-630 | accepted edits form one chain: version k + 1 is what its edit makes of exactly the bytes of version k, although the policy may be replaced between the two lstats and the read; a guarded edit only replaced a policy with its revision |
| `EditorMachine.OneWinner` | internal/admin/policy.go:742-760 | of all edits computed from the same version at most one replaces it |
| `EditorMachine.OneReplacer` | internal/admin/policy.go:661-680 | at any moment at most one editor is between its first recheck and its rename |
| `Contention.GuardedFails` | internal/admin/policy.go:742-760 | in every run an editor with a revision that finds the lock taken fails at once, and nothing else changes |
| `Contention.UnguardedWaits` | internal/admin/policy.go:742-760 | an editor without a revision that finds the lock taken waits: the attempt is no step |
| `Contention.FreeIsTaken` | internal/admin/policy.go:742-760 | whoever finds the lock free takes it, with or without a revision |
| `Contention.WaitEnds` | internal/admin/policy.go:742-760 | the step with which the holder ends, in success, failure or a crash, leaves a waiting editor where it was and lets it take the lock |
| `Contention.FailsAtLockExactly` | internal/admin/policy.go:742-760 | the lock attempt makes an editor fail if and only if it has a revision and another editor holds the file |
| `Contention.LockedExactly` | internal/admin/policy.go:661-680 | in every run an editor that opened the file finds it locked if and only if another editor is in a phase of holding it |
| `Outsiders.OverwritesRead` | internal/admin/policy.go:661-729 | in every run of editors and of writers outside their protocol, who replace the policy with any bytes at any moment except between a second recheck and its rename, an edit is only ever made of exactly the bytes it replaces, and those are of a file of the right owner, not writable by others, of at most 1 MiB |
| `Outsiders.WindowLoses` | internal/admin/policy.go:719-729 | in that window it is not: after every such run the rename goes ahead and overwrites what was put there, unread |
| `EditorMachine.FailedLeavesNothing` | internal/admin/policy.go:661-726 | an edit that failed or crashed before its rename produced no version |
| `EditorMachine.RunKeeps` | internal/admin/policy.go:594-760 | the invariant of the protocol (identities, chain, locks, and for each phase what the identity kept by the editor says about the bytes it read) after every run |
| `EditorMachine.RenameKeeps` | internal/admin/policy.go:719-729 | the rename keeps the invariant, and the overwritten file is the one whose bytes were read |
| `EditorMachine.SandwichHolds` | internal/admin/policy.go:594-630 | if the lstat after the read finds the identity of the lstat before it, the bytes were read from the file with that identity |
| `EditorMachine.KeptIsCurrent` | internal/admin/policy.go:1012-1020 | a recheck that finds the kept identity means that the file that was read is still the current one |
| `RecoveryIds.RemovalsRecorded` | internal/admin/policy.go:449-466 | in every careful run every version made by a removal has a published artifact, within the size limit, holding exactly the bytes before it |
| `RecoveryIds.FailedPublishKeepsId` | internal/admin/recovery.go:87-167 | when a publication fails, its ID is bound to what the publication found at its link: nothing, or an earlier artifact, untouched |
| `RecoveryIds.FoundAtLink` | internal/admin/recovery.go:141-159 | what a publication found is what the ID was bound to when it tried to link it |
| `RecoveryIds.BoundStays` | internal/admin/recovery.go:141-166 | over any careful continuation of a run an artifact whose publication is not under way stays bound to its ID, unchanged |
| `RecoveryIds.ArtifactsFinal` | internal/admin/recovery.go:141-166 | no careful step overwrites an artifact; only the unfinished publication that linked it takes one away |
| `RecoveryIds.CarefulExact` | internal/admin/recovery.go:147-164 | a step is careful if and only if it touches no artifact but the one that its own unfinished publication has linked |
| `EditorMachine.RestoresExact` | internal/admin/policy.go:475-531 | a version made by a restore is the saved policy, the version before it is that policy without the project, and the restore was confirmed with the project's alias |
| `RecoveryIds.RemovalCanBeUndone` | internal/admin/policy.go:405-531 | in every careful run, while the policy is what a removal left, the artifact under its ID restores the bytes before it |
| `LoneEdit.EditSucceeds` | internal/admin/policy.go:594-740 | from any state in which nobody holds the lock of the current file, an undisturbed edit of any kind, a removal with an unbound ID and a fitting artifact included, puts exactly the bytes it derived in place and publishes exactly its own artifact |
| `LoneEdit.RemovalSucceeds` | internal/admin/policy.go:405-466 | in any run an undisturbed removal with an unbound ID and an artifact of at most 2 MiB publishes it, replaces the policy and succeeds |
| `LoneEdit.RemovalTooLarge` | internal/admin/recovery.go:107-113 | the same removal with a larger artifact is refused at its publication; policy and artifacts stay as they were |
| `ArtifactSize.RestoresFit` | internal/admin/recovery.go:199-220 | in every run a restore works with an artifact of at most 2 MiB |
| `ArtifactSize.SizeExact` | internal/admin/recovery.go:98-113 | the artifact of a removal fits if and only if 266 bytes, its timestamp, the JSON-encoded alias and the base64 of the policy are at most 2 MiB together |
| `ArtifactSize.Base64Exact` | internal/admin/recovery.go:98-113 | the base64 of n bytes is the least multiple of four with room for them |
| `ArtifactSize.ShortAliasFits` | internal/admin/recovery.go:98-113 | with an alias of at most 116,458 bytes it fits for every policy within its limit |
| `ArtifactSize.LongAliasRefused` | internal/admin/recovery.go:98-113 | with an alias of at least 698,781 bytes it never fits for a policy of the full size |
| `LoneEdit.ArtifactLost` | internal/admin/recovery.go:141-166 | the run that is not careful: the deferred removal of a failed publication takes the artifact of another removal, which then succeeds without one |
| `LoneEdit.RestoreSucceeds` | internal/admin/policy.go:475-531 | in any careful run, while the last accepted edit is a removal, an undisturbed restore with its artifact succeeds and gives back the bytes before the removal |
| `EditorMachine.GuardedReplaces` | internal/admin/policy.go:615-620 | an edit guarded by the revision of some bytes replaced bytes of the same digest, and exactly those bytes if the reviewed policy and the replaced one do not collide |
| `Edits.RestoreExact` | internal/admin/policy.go:475-531 | a successful restore takes the policy from the saved bytes without the project to the saved bytes, confirmed with the project's alias, without any property of the digest |
| `Edits.RestoreAccepted` | internal/admin/policy.go:475-531 | a restore is accepted if and only if it is confirmed with the alias of a well-formed artifact, the policy has the digest recorded as left by the removal, and it is, in bytes and in meaning, the saved policy without that project |
| `Edits.RestoreUndoesRemoval` | internal/admin/policy.go:405-531 | after a removal and no later edit, restoring gives back the old bytes |
| `Edits.RemovalUndoesRestore` | internal/admin/policy.go:405-531 | removing the restored project again gives back the bytes before the restore |
| `Edits.RestoreOnce` | internal/admin/policy.go:516-522 | repeating a restore right after its success is refused, whatever the digests are |
| `Edits.RemovalShortens` | internal/admin/policy.go:911-925 | the removed span is never empty |
| `Edits.DerivedReadable` | internal/admin/policy.go:184-201 | whatever an edit wants to write parses, is valid and worker-ready |
| `Edits.BadInputRefused` | internal/admin/policy.go:161-531 | whatever the policy is, an edit with missing or empty fields, a relative directory, an unknown mode, an empty argv, a missing confirmation or a malformed ID is refused |
| `Edits.AliasDecides` | internal/admin/policy.go:161-448 | so is an edit of a project that is not there, and a second project of the same alias |
| `Edits.FindProject` | internal/admin/policy.go:969-976 | the first project with the alias, none exactly if there is none |
| `Edits.UpdateFields` | internal/admin/policy.go:230-254 | the field loop writes exactly the fields that differ, one after the other, and updates the project alike |
| `EditCommutes.CreateAccepted` | internal/admin/policy.go:161-202 | on a canonical policy creating a project is refused only for invalid input or a taken alias |
| `EditCommutes.MetadataAccepted` | internal/admin/policy.go:204-278 | on a canonical policy a metadata update is refused exactly if another table inside the project's block repeats a changed field; otherwise the spliced text is written |
| `EditCommutes.ApprovalAccepted` | internal/admin/policy.go:280-322 | a mode change is refused with several approval lines in the block; with at most one it is accepted if the line belongs to the project's own table, refused if it does not and the table it lands in stays canonical, and otherwise accepted exactly if the library reads the intended configuration |
| `EditCommutes.AddAccepted` | internal/admin/policy.go:324-362 | adding a command is refused only for an unknown project, and changes nothing exactly if the command is there |
| `EditCommutes.RemoveAccepted` | internal/admin/policy.go:364-403 | removing a command is refused exactly if another table inside the section of one of its entries holds an argv line; otherwise the spliced text is written |
| `EditCommutes.DropAccepted` | internal/admin/policy.go:405-448 | removing a project that is not the last: if the lines of other tables outside its span can be read, accepted exactly if they give the same settings, defaults filled in; if not, exactly if the library reads the intended configuration; always accepted if no other table stands in the span |
| `EditCommutes.EditAccepted` | internal/admin/policy.go:949-967 | a text that reads as the intended, valid configuration passes re-parsing, worker validation and deep comparison |
| `EditCommutes.EditChecked` | internal/admin/policy.go:949-967 | a canonical text passes these checks exactly if it reads as the intended projects and the same settings, defaults filled in |
| `Commutes.ReplaceFieldCommutes` | internal/admin/policy.go:802-823 | the spliced text is canonical and is read as that field replaced |
| `Commutes.InsertAllowCommutes` | internal/admin/policy.go:825-857 | the spliced text is canonical and is read as the project with the argv added at the end |
| `AllowCommutes.InsertAllowSucceeds` | internal/admin/policy.go:825-832 | inserting an entry never refuses a canonical text: headers and entries agree in number |
| `AllowCommutes.RemoveAllowCommutes` | internal/admin/policy.go:864-909 | when it succeeds, the result is read as the project without exactly the selected entries |
| `AllowCommutes.CutLines` | internal/admin/policy.go:896-908 | the copying pass over spans of whole lines leaves exactly the other lines |
| `EntryReading.ReadWithoutEntries` | internal/admin/policy.go:872-894 | dropping the header and argv lines of some entries removes exactly those entries from what the block means |
| `ApprovalCommutes.ReplaceApprovalExact` | internal/admin/policy.go:762-800 | the result sets the mode of the selected project if and only if the line rewritten or inserted belongs to its own table; otherwise all projects read as before |
| `ApprovalCommutes.ReplaceApprovalSucceeds` | internal/admin/policy.go:762-783 | fails exactly on a block that holds several approval lines |
| `Repeats.ReplaceFieldSucceeds` | internal/admin/policy.go:802-811 | on a field the project has, fails exactly if another table inside the block repeats the field |
| `Repeats.RepeatsStay` | internal/admin/policy.go:802-823 | replacing one field does not change which fields another table repeats |
| `Repeats.RemoveAllowSucceeds` | internal/admin/policy.go:864-894 | on entries that have an argv, fails exactly if another table inside the section of one of them holds an argv line |
| `CleanText.ReplaceFieldClean` | internal/admin/policy.go:802-823 | valid UTF-8 without control characters stays so when a faithful value is spliced in |
| `CleanText.ReplaceApprovalClean` | internal/admin/policy.go:762-800 | the same for an approval line |
| `CleanText.InsertAllowClean` | internal/admin/policy.go:825-857 | the same for an allow entry |
| `CleanText.RemoveAllowClean` | internal/admin/policy.go:864-909 | the same for the cut of entries: no span ends inside a character |
| `CleanText.AppendProjectClean` | internal/admin/policy.go:552-582 | the same for a new project |
| `CleanText.RemoveProjectClean` | internal/admin/policy.go:911-925 | the same for a removed project |
| `ProjectCommutes.RemoveProjectExact` | internal/admin/policy.go:911-925 | removal always succeeds on a canonical text; the result reads as the policy without that project and without the lines of other tables inside its span, so exactly the project is gone if and only if there are none |
| `ProjectCommutes.AppendProjectCommutes` | internal/admin/policy.go:552-582 | the result is read as the policy with exactly that project added at the end, whatever line endings and final newline the text has |
| `Misplaced.RemovalTakesTable` | internal/admin/policy.go:911-925 | on every policy with a readable preamble and two given projects, the first with a table `[x]` in its span that Config ignores, removing the first project is accepted and `[x]` is lost |
| `Misplaced.ApprovalGoesAstray` | internal/admin/policy.go:784-799 | on the same policies setting the mode of the first project writes the line into `[x]`, and the editor refuses |
| `Outside.ReplaceFieldOutside` | internal/admin/policy.go:802-823 | on any text, bytes outside the project's block are unchanged |
| `Outside.ReplaceApprovalOutside` | internal/admin/policy.go:762-800 | on any text, bytes outside the project's block are unchanged |
| `Outside.InsertAllowOutside` | internal/admin/policy.go:825-857 | on any text, bytes outside the project's block are unchanged |
| `Outside.RemoveAllowOutside` | internal/admin/policy.go:864-909 | on any text, bytes outside the project's block are unchanged |
| `Outside.AppendOutside` | internal/admin/policy.go:552-582 | the old text is a prefix of the new one |
| `Outside.HeadersCounted` | internal/admin/policy.go:762-940 | on any text, every splice refuses unless there are as many project headers as projects, and the allowlist splices unless there are as many allow headers in the block as entries |
| `LineEnds.InsertAllowEnds` | internal/admin/policy.go:825-857 | a text with uniform line endings, with or without carriage returns, keeps them |
| `LineEnds.ReplaceApprovalEnds` | internal/admin/policy.go:762-800 | the same, whether the line is rewritten or inserted |
| `LineEnds.AppendProjectEnds` | internal/admin/policy.go:552-582 | the same for a new project |
| `Removal.RemoveAllowEntries` | internal/admin/policy.go:864-909 | the span-collecting loop and the copying loop compute `RemoveAllow` |
| `Removal.RemoveAllowExact` | internal/admin/policy.go:864-909 | the overlap error is unreachable; the output is the input without exactly the bytes of the spans, shorter by their total length |
| `Removal.AllSpansSorted` | internal/admin/policy.go:874-894 | increasing indices give sorted, disjoint spans inside the file |
| `Removal.CutSpans` | internal/admin/policy.go:896-908 | the cursor loop computes the recursive cut, error included |
| `Removal.CutExact` | internal/admin/policy.go:896-908 | cutting sorted disjoint spans keeps exactly the uncovered bytes, in order |
| `Removal.CollectRemovals` | internal/admin/policy.go:378-389 | the caller's loop collects the positions of the argv and what stays |
| `Removal.PositionsExact` | internal/admin/policy.go:378-389 | the positions are increasing and are exactly those of the argv |
| `Splice.BoundsFound` | internal/admin/policy.go:927-940 | on grouped lines the block bounds select exactly the text between a header and the next |
| `Layout.DocOfText` | internal/admin/policy.go:30-31 | grouping the lines of a text by project headers and writing them back is the identity |
| `TomlStrings.WriteReadExact` | internal/admin/policy.go:812-815 | a JSON-encoded value is read back as a TOML string unchanged if and only if it is valid UTF-8 without U+007F |
| `TomlStrings.ArrayRoundTrip` | internal/admin/policy.go:834-837 | a JSON-encoded argv of such values is read back as that argv |
| `TomlStrings.NoSurrogates` | internal/config/config.go:151 | the reading refuses escapes of surrogates, as TOML does |
| `Config.ApplyDefaults` | internal/config/config.go:164-182 | fills exactly the missing approval modes with "never", the missing backend with "kdialog", and for the relay a missing poll interval and timeout with 2 and 300 seconds |
| `Config.Validate` | internal/config/config.go:184-257 | accepts exactly the valid configurations |
| `Config.ValidateProjects` | internal/config/config.go:224-256 | the pass with the set of seen aliases accepts exactly non-empty lists of valid projects with unique aliases |
| `Config.ValidateWorker` | internal/config/config.go:263-293 | accepts exactly the worker configurations |
| `Config.PathListSplit` | internal/config/config.go:278-284 | the entries of the command path hold no separator, and joined give the path back |
| `Config.LookupProject` | internal/config/config.go:296-303 | finds the only project with the alias, none exactly if there is none |
| `Config.Match` | internal/policy/policy.go:11-18 | matches exactly if the argv is one of the entries |
| `Config.ArgvEqual` | internal/policy/policy.go:20-30 | equal exactly if same length and same elements |
| `Prompt.PromptRoundTrip` | internal/broker/broker.go:170-181 | the command can be read back from its prompt, every field unchanged |
| `Prompt.PromptInjective` | internal/broker/broker.go:170-181 | equal prompts imply equal project, directory and argv |
| `Prompt.FormatPrompt` | internal/broker/broker.go:170-181 | the line loop builds the prompt text, from which the command can be read back |
| `Prompt.UnquoteEscaped` | internal/broker/broker.go:173-180 | a Go-quoted string is self-delimiting: unquoting it gives the string and what follows it |
| `PromptShown.QuotedShowable` | internal/broker/broker.go:170-181 | a quoted value holds no control character, and an argument or directory nothing but printable ASCII |
| `PromptShown.ShownVerbatim` | internal/broker/broker.go:170-181 | an argument is shown as it is if and only if it is printable ASCII without quotes and backslashes |
| `PromptShown.OneLineEach` | internal/broker/broker.go:170-181 | the prompt has three line breaks up to the first argument and one between two arguments, whatever the values contain |
| `Shell.BuildCommand` | internal/runner/bws.go:37-72 | refused exactly for an incomplete specification; otherwise the arguments are those of `CommandArgs`, and the inner shell reads what follows `--` as sudo's fixed prefix and the argv |
| `Shell.ArgumentsExact` | internal/runner/bws.go:61-72 | it does so if and only if no argument holds a NUL byte |
| `Shell.QuotingExact` | internal/runner/bws.go:91-93 | the shell reads the joined quoted arguments as exactly those arguments, all characters literal, if and only if none has a NUL byte |
| `Shell.ReadArgument` | internal/runner/bws.go:91-93 | one quoted argument is read as one word, empty ones included |
| `Shell.LiteralsInjective` | internal/runner/bws.go:84-93 | literal words determine the arguments: nothing is split, merged or dropped |
| `RelayStore.Store.constructor` | internal/relay/store.go:53-55 | an empty, valid table |
| `RelayStore.Store.Create` | internal/relay/store.go:61-81 | succeeds exactly for an unused ID while there is room; the request is then open exactly until its time to live has passed |
| `RelayStore.Store.Get` | internal/relay/store.go:87-101 | the record, reported as expired exactly if pending past its deadline; nothing is stored |
| `RelayStore.Store.PendingList` | internal/relay/store.go:105-123 | lists exactly the live requests, ordered by deadline and then ID |
| `RelayStore.Store.Decide` | internal/relay/store.go:129-150 | succeeds exactly on a pending request up to its deadline, and then records the decision |
| `RelayStore.Store.Sweep` | internal/relay/store.go:157-170 | removes exactly the requests whose deadline lies before the cutoff, and counts them |
| `RelayStore.ViewsAgree` | internal/relay/store.go:87-150 | at any instant listed as pending, reported as pending and open to a decision are the same |
| `RelayStore.OpenUntil` | internal/relay/store.go:61-150 | over any run that neither decides nor sweeps it, a created request is reported with its prompt and creation time, pending and decidable up to and including its time to live, and expired after that |
| `RelayStore.ListedOnce` | internal/relay/store.go:105-123 | each live request is listed once |
| `RelayStore.OneList` | internal/relay/store.go:116-121 | there is only one ordered list with given elements |
| `RelayStore.ClosedStays` | internal/relay/store.go:87-150 | over any run, a decided or expired request keeps its record while it is in the table: later reads agree, later decisions fail |
| `RelayStore.DecidedOnce` | internal/relay/store.go:129-150 | between creation and sweep at most one decision succeeds, and later reads report it |
| `RelayStore.SweepSparesLive` | internal/relay/store.go:157-170 | sweeping never removes a live request if and only if the age is not negative |
| `Approver.TailscaleApprover.Approve` | internal/approval/tailscale.go:43-109 | approved exactly if the first event that ends the loop is an approval; when each cause is reported |
| `Broker.Run` | internal/broker/broker.go:90-153 | start, then optionally approve, resolve and run in that order, then one finish; it gets as far as resolving exactly when the dry run allows, or asks and the approval came without error; it then resolves the token entry of the project of that alias, whose directory, if it has one, is the canonical directory of the request |
| `Broker.Reasons` | internal/broker/broker.go:90-153 | the reason of every denial, in terms of the request and the project: unknown alias, other directory, unlisted argv, rejection, token, start of the runner |
| `Broker.Matrix` | internal/broker/broker.go:212-227 | for a valid project, exactly which modes and argvs are allowed, asked about and denied |
| `Broker.Decided` | internal/broker/broker.go:212-227 | the search through the allowlist computes the verdict of the matrix |
| `ApprovalProtocol.EndToEnd` | internal/broker/broker.go:90-153 | in every run an execution has an earlier audit start and an existing project whose directory, if it has one, is the canonical directory of the request, and either the argv is allowlisted in mode never or prompt, or the mode asks about it and it was registered, arrived at the relay and was approved there within the time to live of its arrival, under an ID of its own with a prompt that determines exactly this command |
| `ApprovalProtocol.AnswerMeansYes` | internal/approval/tailscale.go:93-96 | an approved reply means that the relay accepted an in-time approval of that request's prompt |
| `ApprovalProtocol.ExecutedOnce` | internal/broker/broker.go:90-153 | no request is executed twice |
| `ApprovalProtocol.ApprovedIsRun` | internal/runner/bws.go:61-72 | in every run, behind every execution cleared by a human stands an approved prompt such that the shell reads the runner's arguments as sudo's prefix and the argv read from that prompt, if and only if it holds no NUL |
| `ProtocolSteps.LoopDecides` | internal/approval/tailscale.go:60-109 | for any events, failed polls and unrecognized answers included, and whatever others do in between, the protocol's steps end as the loop does: cleared exactly if the first decisive event is an approval, over otherwise |
| `ProtocolSteps.LoopPossible` | internal/approval/tailscale.go:60-109 | these steps are possible whenever the answers are ones the relay gave |
| `ProtocolSteps.ApproveIsSteps` | internal/approval/tailscale.go:43-109 | every outcome of `Approve`, without an ID or a confirmed registration too, is what its steps in the protocol lead to |
| `ProtocolSteps.RunIsSteps` | internal/broker/broker.go:90-153 | `Broker.Run` with the answers of `Approve` gets as far as resolving the token exactly if its steps leave the broker free to execute |
| `ProtocolSteps.ApprovedRuns` | internal/broker/broker.go:90-153 | from any state with room on the relay, a request that is asked about, registered, approved and polled is executed |
| `ApprovalProtocol.RunKeeps` | internal/relay/store.go:61-170 | the invariant of the protocol after every run |
| `Controls.UnconfirmedNarrows` | internal/adminweb/controls.go:83-159 | a change that needs no confirmation makes no argv of the project easier to run and keeps its identifiers |
| `Controls.UnconfirmedCommitNarrows` | internal/adminweb/controls.go:160-228 | a change that a review builds from a form and the policy it read, and that needs no confirmation, makes no command of any project easier to run |
| `Controls.CommitEffect` | internal/adminweb/controls.go:205-228 | when the editor accepts the edit of a commit, the policy differs in exactly that project |
| `Controls.MetadataChangeExact` | internal/adminweb/controls.go:182-197 | the partial update is always valid input and gives exactly the reviewed fields |
| `FormLaws.ReviewExact` | internal/adminweb/controls.go:72-158 | exactly which forms a review lets through, and for exactly which of them it demands a confirmation |
| `FormLaws.AcceptedDoes` | internal/adminweb/controls.go:72-228 | when the editor accepts the edit of a reviewed form on the reviewed policy, the policy is read as before with exactly what the form asks for: the project added, the mode set, the command appended, or all entries equal to the chosen one gone; for identifiers, if and only if what the commit read again was up to date |
| `FormLaws.NothingToDo` | internal/adminweb/controls.go:72-228 | when the editor finds nothing to do on the reviewed policy, it already is as the form asks, and the form is no creation and no removal |
| `FormLaws.MetadataExactly` | internal/adminweb/controls.go:182-217 | the update that a commit computes from the project it read again gives the fields of the form if and only if every field that looked up to date then is up to date in the policy that is edited |
| `FormLaws.StaleCommit` | internal/adminweb/controls.go:205-217 | a form, a project and a project read again for which it does not: the old identifier stays |
| `FormLaws.CommitDoesAsAsked` | internal/adminweb/controls.go:160-228 | over a run of the web server and a run of the editors, the version a commit makes is read as the version before it with exactly what the reviewed form asks for; for identifiers, if and only if what the commit read again was up to date |
| `WebTokens.TokenTable.constructor` | internal/adminweb/server.go:44-48 | an empty table |
| `WebTokens.TokenTable.Prune` | internal/adminweb/server.go:103-109 | deletes exactly the expired tokens |
| `WebTokens.TokenTable.Issue` | internal/adminweb/server.go:87-101 | refused exactly when 128 unexpired tokens are open; otherwise bound to action, revision and target for ten minutes |
| `WebTokens.TokenTable.Take` | internal/adminweb/server.go:111-118 | gives the entry only for its action and login, and consumes the token either way |
| `WebTokens.TableBounded` | internal/adminweb/server.go:87-118 | issuing, pruning and taking keep the table within 128 |
| `WebTokens.IssuedLives` | internal/adminweb/server.go:87-118 | a token can be issued exactly while fewer than 128 are unexpired, and is then taken exactly by a submission for its action and login within ten minutes |
| `WebTokens.AttachBounded` | internal/adminweb/controls.go:174-178 | attaching keeps the bound if and only if the token is still there or there is room |
| `WebTokens.LateAttachExceeds` | internal/adminweb/controls.go:174-178 | when a review's token has expired and any 128 other tokens were issued since, attaching its change makes the table one larger than the bound |
| `WebTokens.RevivedIsDead` | internal/adminweb/controls.go:174-178 | an entry revived by a late attachment can never be taken and goes with the next pruning |
| `WebMachine.TokensSingleUse` | internal/adminweb/server.go:120-172 | over any run a token reaches at most one handler, only for its action, target and revision and before its expiry; the table stays within 128 |
| `WebMachine.CommitsReviewed` | internal/adminweb/controls.go:160-228 | every editor call has exactly one earlier review, is the only call for it, carries the change that the review builds from its form and the policy it read, is guarded by the digest of that policy, and is confirmed whenever the change widens |
| `WebMachine.SubmissionConsumes` | internal/adminweb/server.go:111-118 | over any run a submission consumes its token whatever comes of it: an invocation belongs to the first submission of its token |
| `FormRounds.ReachesHandler` | internal/adminweb/server.go:120-172 | from any state a submission reaches its handler if and only if its token is unexpired and fits login, action, alias and the revision of the policy |
| `FormRounds.ReviewedAsInvoked` | internal/adminweb/controls.go:72-158 | over any run a review belongs to an invocation for its kind and the alias of its form |
| `FormRounds.ReachesEditor` | internal/adminweb/controls.go:199-228 | a commit calls the editor if and only if a change was attached that does not widen or is confirmed |
| `FormRounds.WholeRound` | internal/adminweb/controls.go:72-228 | from any state with room for a token, page, form, review and commit bring the change that the form and the policy define to the editor, under the revision of that policy |
| `WebEdits.CallOnReviewed` | internal/adminweb/controls.go:199-228 | whatever bytes the editor accepts a commit's edit on are the bytes of its review, if the reviewed policy and those bytes do not collide |
| `WebEdits.UnconfirmedCallNarrows` | internal/adminweb/controls.go:199-228 | in every run an accepted editor call without confirmation, on bytes that collide with no reviewed policy, makes no command of any project easier to run |
| `WebEdits.CallReplacesReviewed` | internal/adminweb/controls.go:199-228 | over a run of the web server and a run of the editors: if the reviewed policy and the replaced one do not collide, the version a commit replaced is, byte for byte, the reviewed policy, and an unconfirmed commit makes no command easier to run |
| `WebMachine.RunKeeps` | internal/adminweb/server.go:87-172 | the invariant of the web server after every run |
| `CheckCache.Cache.StoreCheck` | internal/adminweb/checks.go:20-46 | prunes, evicts one entry if full, overwrites one kind of result; at most 128 entries |
| `CheckCache.ShownIsCurrent` | internal/adminweb/pages.go:133-142 | over any run, what a page shows is the latest result of that kind for that alias, stored under the page's revision, less than ten minutes old |
| `CheckCache.StoredIsShown` | internal/adminweb/checks.go:35-45 | after a store a page of that revision shows it for ten minutes and no longer |
| `CheckCache.OthersStayShown` | internal/adminweb/checks.go:20-46 | a store hides no other unexpired result of its revision, neither the other kind for the alias nor those of other aliases, except the ones of an alias dropped from a full cache |
| `CheckCache.OneDropped` | internal/adminweb/checks.go:24-39 | at most one alias of the revision is dropped, and only if 128 others hold results and the stored one does not |
| `PeerListener.SlotsConserved` | internal/adminweb/listener_linux.go:76-124 | in every interleaving occupied slots are accepts in flight plus connections not released, at most 8, and a connection releases nothing while it is open and exactly once when it is closed |
| `PeerListener.ReleaseNeverBlocks` | internal/adminweb/listener_linux.go:88-124 | giving a slot back always finds a token to take out |
| `PeerListener.SlotsUsable` | internal/adminweb/listener_linux.go:76-124 | a waiting accept can go on exactly while fewer than 8 slots are occupied, and can return exactly once the listener is closed; a rejected peer gives its slot back and the accept waits again |
| `Audit.Mutate` | internal/admin/audit.go:205-260 | the policy is touched only after the start record; one finish record says what happened; a change is reported even if the log then fails |
| `AuditedRuns.VersionsAudited` | internal/admin/audit.go:205-230 | in every run of audited mutations, crashes included, every version of the policy was made after a start record with exactly its edit and revision and before the finish record of its mutation |
| `AuditedRuns.RecordsTrue` | internal/admin/audit.go:205-230 | a "changed" record means that the mutation made a version, "no change" that it made none, and a "failed" mutation made one exactly if the sync after its rename failed |
| `AuditedRuns.FailedSyncs` | internal/admin/policy.go:729-739 | an editor ends as failed after its rename if and only if it took a failed sync of the directory |

## Left out

- The TOML library, JSON decoding, base64, SHA-256 and the regexp engine are parameters or are described by what they accept; multi-line strings, inline tables and dotted keys are outside the canonical layout.
- ApprovalAccepted: where a misplaced approval line makes the other table leave the canonical layout, the outcome is stated in terms of what the TOML library reads, because nothing is assumed about it there.
- DropAccepted: where the lines left of other tables leave the canonical layout, the outcome is stated in terms of what the TOML library reads, for the same reason.
- Real system calls: ownership probing, `EvalSymlinks`, permission bits of directories, and the recovery directory's own checks are conditions or parameters of a step.
- Writing the temporary policy file is one step that completes or fails; a partly written temporary file is never renamed, so its contents do not matter.
- `RecoveryStore.List`, `ListProjects`, `GetProject` and `ListAllowlist` would only add easy members.
- `sort.Slice` is replaced by an insertion sort with the same order, on a sequence instead of a slice in place; the order is strict on distinct IDs, so the result is the same list.
- The channel of the listener and the sync.Once flags are modelled as counters and flags of a step machine, not as Go objects.
- HTTP handlers, headers, templates, `validFields` and the printable-text checks of forms (a form field `clean` stands for them), command-line parsing and Tailscale configuration are plumbing.
- The page functions `view` and `discover`: a page token is issued for the policy of the moment.
- The legacy approvers and token resolvers, access classification, and deployment scripts are not modelled.
- Liveness: that a step is possible and where it leads is proved, fairness is not modelled; the polling loop ends at the timeout.
