# InferenceRig control plane: a Dafny model

InferenceRig runs inference engines behind one control daemon. This project models
the parts of that daemon whose correctness does not show in any single function, and
proves what they promise over every input and every run.

- **The runtime slot** (`RuntimeSlot`, `SlotProtocol`, `SlotCalls`, `Lifecycle`,
  `Recovery`). Any number of clients start, stop, reset, restart and reload one shared
  engine slot. A call reserves the slot under a lock, blocks with the lock released, and
  commits or fails under the lock again. `RuntimeSlot.Manager` is the locked code;
  `SlotProtocol` interleaves the calls, one step per locked region or blocking call, and
  `SlotCalls` says what each call is answered. The supervisor is an interface with an
  assumed contract: a stop without error leaves the process dead, a start with an error
  leaves nothing running, and a process may die at any time, also while it is being
  probed. Every start brings the address its profile says at that moment; only a reload,
  which reads a held profile again, assumes that the profile's address was not edited
  while it is held.
- **The generated `models.ini`** (`Text`, `Rekey`, `ModelKeys`, `ModelsIni`,
  `IniParser`, `IniRoundTrip`, `IniEditing`, `Scalars`, `ImportMerge`, `ImportSections`).
  The renderer, the hand-written parser, the round trip between them, what edits by hand
  mean, and their three-way import into a profile.
- **The YAML node merge** (`YamlMerge`, `YamlNodes`). It makes one tree mean what
  another means while it keeps order and comments: as a function on trees, as the
  in-place compaction of one mapping's content, and as the update of shared nodes.
- **Downloads** (`Transfer`, `DownloadJobs`, `DownloadProtocol`, `DownloadParts`,
  `DownloadCalls`, `DownloadRuns`). One transfer with HTTP range resume under a byte cap;
  the job tables; the step system of starts, cancels, transfers, record writes, crashes and
  restarts; what becomes of the partial files in it; what its answers mean; and runs that
  reach its rare outcomes.
- **Logs, events and installs** (`LogTail`, `LogFollow`, `Events`, `Install`). The
  backwards chunked tail against the last lines of the whole file, the follower's byte
  conservation, the event ring with its subscribers, and the two retained engine
  generations.

Where a property fails for the code as it stands, the code is modelled as it is and
the exact condition is proved:

- A restart conflicts exactly when the router holds other profiles too and listens
  somewhere else than the profile says (`Lifecycle.RestartNeedsNoReplace`; a case:
  `Lifecycle.ARestartCanConflict`).
- Boot recovery hands over a safe slot exactly when every survivor belongs to a PID file
  before which no other leaves a slot behind (`Recovery.RecoveryEstablishesInv`; a case
  that fails: `Recovery.AnOrphanCanHideASurvivor`).
- A value comes back from `models.ini` exactly when it is trimmed and has no blank
  before `;` or `#`; the file reads back at all exactly when no two names trim alike
  (`IniRoundTrip.StoredIffRepresentable`, `IniRoundTrip.RoundTrip`).
- A boolean or decimal edit comes back from an import as it was written exactly when it
  has no plus sign and is not a negative zero (`Scalars.SurvivesIff`).
- A second import before the file is rewritten adopts nothing, unless an adopted
  `model` edit resolves to the path the baseline already had; every other touched key is
  then reported as a conflict (`ImportMerge.SecondImportAdoptsNothing`; a case that
  adopts again: `ImportMerge.AnImportCanAdoptAgain`).
- An edited section that the baseline lacks makes the import panic on a nil map
  (`ImportSections.ImportDocument`; a case: `ImportSections.AKeyByHandPanics`).
- Writing a profile back makes its YAML decode to what is wanted exactly when every scalar
  whose text is already right also has a form that decodes to it: a quoted number stays a
  string (`YamlMerge.MergeMeansWantIff`; a case: `YamlMerge.AQuotedNumberStaysAString`).
- A complete `.part` file, as a crash after the last byte leaves it
  (`Transfer.ACrashLeavesACompletePart`), is answered with 416 by a range server, and no
  attempt gets past that (`Transfer.CompletePartNeverFinishes`). Once the job has failed,
  the next restart discards the file, which frees it (`Transfer.ADiscardFreesIt`).
- That discard can also hit a transfer that the same restart has queued again for the
  target (`DownloadParts.PartGoesIff`). An attempt reads the size of the partial file,
  waits for the reply and only then opens the file; a file discarded in between is
  created anew and receives `artifact[k..]` alone, while the checks count the `k` bytes
  that are gone. The partial file is a prefix throughout exactly if no such bytes tear it
  (`Transfer.PrefixThroughoutIff`). Over every history, torn or not, the landed targets are
  the artifact exactly if no attempt lands that resumed a file discarded that way, or a
  file that was no prefix to begin with (`Transfer.LandedTargetsAreWholeIff`). It lands, at the size
  the plan states, when the plan has no digest, and the job completes
  (`Transfer.ADiscardCanLandASuffix`, `DownloadRuns.ARestartCanLandASuffix`); a digest
  that tells the two apart removes it (`Transfer.ADigestCatchesTheSuffix`). A file discarded
  after the open never lands (`DownloadParts.ALostPartNeverLands`). A restart reconciles
  records in the order of their names, `dl_<date>_<time>_<random>`, so the finished record
  is of a newer job than the interrupted one, as when an older job's last record was
  never written, or both ids were made within one second;
  `DownloadRuns.APartCanBeLostFromBoot` is a run of the first kind from an empty disk.
- A partial reply to another range than the one asked for starts the file over, and what it
  brings is taken for the artifact's beginning; it lands exactly if the plan's size and
  digest, where it has them, do not tell the two apart (`Transfer.AMisplacedRangeLandsIff`).
- A forced download removes the old target before its rename, so a crash in between leaves
  neither (`DownloadCalls.AForcedDownloadCanLoseItsTarget`), and a job whose record cannot
  be read is never known again (`DownloadCalls.AForgottenJobStaysForgotten`).
- A finished download job comes back unfinished after a crash exactly when neither its
  record nor its target was on disk and no record reconciled before it runs again for
  the same target (`DownloadProtocol.CrashForgetsAFinishIff`; a case:
  `DownloadRuns.ACancelCanBeForgotten`).
- The tail of a file within the read budget cuts its first line exactly when a whole
  number of chunks from the end holds exactly the wanted number of newlines, the last of
  them ends the file, and the chunks begin within a line (`LogTail.FirstLineIsCutIff`; a
  case: `LogTail.ALongLineIsCut`).
- A forced install into the active directory overwrites what a rollback would bring
  back (`Install.RollbackUndoesInstallIff`; a run: `Install.AForcedInstallOverwrites`).
  An install that breaks off after touching the disk, or whose removal of the oldest
  directory fails, keeps retention only in the stated cases
  (`Install.FailedMoveRetainsIff`, `Install.FailedWriteRetainsIff`,
  `Install.InstallRetainsIff`; runs: `Install.AFailedMoveLosesTheActive`,
  `Install.AFailedWriteLeavesADirectory`).

`dafny verify dfyconfig.toml` checks the whole project.

## Model

| member | source | states |
|---|---|---|
| `RuntimeSlot.Reserve` | core/control/slot.go:59-64 | the new operation owns the slot under an id above every earlier one |
| `RuntimeSlot.Without` | core/control/slot.go:178-190 | exactly the other profiles remain |
| `RuntimeSlot.WithoutHeld` | core/control/slot.go:178-190 | dropping a held profile removes one entry and keeps the rest distinct |
| `RuntimeSlot.Manager.constructor` | core/control/manager.go:91-109 | a new manager has no slot and no issued id |
| `RuntimeSlot.Manager.ReserveLocked` | core/control/slot.go:59-64 | in-place form of the reservation |
| `RuntimeSlot.Manager.TryStart` | core/control/slot.go:96-136 | in-place form of the start reservation, whose answers `SlotCalls` states |
| `RuntimeSlot.Manager.TryStop` | core/control/slot.go:146-160 | nothing for a profile not held, refusal of an unsettled slot, and a process to stop only for the last profile |
| `RuntimeSlot.Manager.TryReset` | core/control/manager.go:371-400 | takes any unowned slot in any state, refuses an owned one |
| `RuntimeSlot.Manager.TryReload` | core/control/reload.go:32-80 | takes a settled slot of a batch-rendering router only |
| `RuntimeSlot.Manager.FinishStart` | core/control/slot.go:164-174 | the owner's commit installs the spawned process and releases the slot; anyone else's changes nothing |
| `RuntimeSlot.Manager.FinishStop` | core/control/slot.go:178-190 | the owner's commit drops the profile, and the slot with its last one |
| `RuntimeSlot.Manager.FailOperation` | core/control/slot.go:197-209 | the owner's failure keeps a failed slot or drops it |
| `RuntimeSlot.Manager.DropOperation` | core/control/manager.go:371-400 | a finished reset drops the slot it owns |
| `SlotProtocol.CallStartKeepsInv` | core/control/slot.go:96-136 | every start decision keeps the protocol invariant |
| `SlotProtocol.CallStopKeepsInv` | core/control/manager.go:371-442 | every stop, reset and reload decision keeps it |
| `SlotProtocol.CallsAreTurnedAway` | core/control/slot.go:96-160 | while an operation is in flight it owns the slot, and every other call changes nothing |
| `SlotProtocol.SpawnKeepsInv` | core/control/manager.go:349-357 | a process that is up and still being probed is the only one, and its operation's |
| `SlotProtocol.PhaseChangeKeepsInv` | core/control/manager.go:310-362 | a blocking call that returns keeps the invariant and leaves the slot alone |
| `SlotProtocol.CommitKeepsInv` | core/control/slot.go:164-190 | every commit keeps it |
| `SlotProtocol.AdvanceKeepsInv` | core/control/manager.go:310-442 | every successful step of an operation keeps it |
| `SlotProtocol.AbortKeepsInv` | core/control/slot.go:197-209 | every failing call keeps it |
| `SlotProtocol.NextKeepsInv` | core/control/manager.go:310-442 | every step of the whole system keeps it |
| `SlotProtocol.RunKeepsInv` | core/control/manager.go:310-442 | every interleaving keeps it, from any state that has it |
| `SlotProtocol.InvIsSafe` | core/control/slot.go:96-209 | the invariant means at most one engine alive, accounted for by the slot |
| `SlotProtocol.EveryRunIsSafe` | core/control/slot.go:96-209 | at most one engine is alive, counting one being probed; it is the slot's process or the one its owner just spawned; an empty slot means none |
| `SlotProtocol.EveryRunKeepsTheSlotShape` | core/control/slot.go:96-190 | profiles non-empty and distinct, one for an exclusive backend, all started at the slot's address; Running means unowned with a process bound there |
| `SlotProtocol.StatusAsksTheLiveProcess` | core/control/manager.go:449-472 | a running slot always has a process to ask, and it is the only one alive |
| `SlotProtocol.ReservationsBelongToInFlightOperations` | core/control/slot.go:59-64 | an operation is in flight if and only if it owns the slot, and then it is the only one |
| `SlotProtocol.OnlyTheOwnerChangesTheSlot` | core/control/slot.go:164-209 | an owned slot changes only by its owner's own steps |
| `SlotProtocol.ReservationTakesAFreshId` | core/control/slot.go:59-64 | a new operation's id is the next of the counter |
| `SlotProtocol.StepKeepsRetired` | core/control/slot.go:164-209 | an id that is done stays done over a step |
| `SlotProtocol.RetiredIdNeverReturns` | core/control/slot.go:59-64 | over whole runs no id is reused |
| `SlotProtocol.AcceptedCallBegins` | core/control/slot.go:96-160 | an accepted call begins the operation it names, under the next id; a reload asks for the address the slot listens at |
| `SlotProtocol.FailureEnds` | core/control/slot.go:197-209 | an error releases the slot: a start that did not get ready leaves it empty with nothing alive, any other leaves the same slot failed and unowned |
| `SlotProtocol.CommitEnds` | core/control/slot.go:164-190 | a commit releases the slot: running and holding the started profile where it was asked to listen, or without exactly the stopped one, or empty with nothing alive |
| `SlotProtocol.OperationEnds` | core/control/slot.go:164-209 | an operation leaves only by its own completion, which releases the slot in one of those ways |
| `SlotProtocol.ErrorsEndTheOperation` | core/control/manager.go:335-362 | an error ends its operation at once; a failed activation goes on to the same commit |
| `SlotProtocol.StepGetsCloser` | core/control/manager.go:310-442 | a completion, with or without error, brings an operation closer to its end; nothing takes it back |
| `SlotProtocol.EveryReservationIsReleased` | core/control/reload.go:51-79 | once its own calls have returned, with or without error, at most five times, one of those returns has ended the operation in the stated way, and it never owns the slot again, whatever else ran |
| `SlotProtocol.FailedSlotWaitsForAReset` | core/control/slot.go:197-209 | a failed or orphaned slot stays exactly as it is until a reset |
| `SlotProtocol.ReleaseOfASharedSlotKeepsIt` | core/control/slot.go:178-190 | a stop that leaves the shared process running keeps the slot and exactly the other profiles |
| `SlotCalls.StartIsTakenIff` | core/control/slot.go:96-136 | a start is taken exactly by an empty slot, a router it can join, or with replace by a running engine of its backend; any other changes nothing |
| `SlotCalls.StartOnAnEmptySlot` | core/control/slot.go:100-103 | an empty slot goes to the profile at its address, and its engine is to be spawned |
| `SlotCalls.StartJoins` | core/control/slot.go:116-121 | a joining start keeps process, address and every profile, and holds the new one once |
| `SlotCalls.StartReplaces` | core/control/slot.go:130-135 | an accepted replacement stops the running process first and leaves the slot to the profile alone, at its address |
| `SlotCalls.AReplacementSwapsTheEngine` | core/control/manager.go:334-361 | a replacement whose calls succeed: the old process dead, one new process alive, serving exactly the profile at its address |
| `SlotCalls.StartIsRefusedIff` | core/control/slot.go:104-129 | a start conflicts exactly when the slot is busy, another backend's, or could only be taken by a replacement not asked for |
| `SlotCalls.StopIsTakenIff` | core/control/slot.go:146-160 | a stop is taken exactly by a running engine that holds the profile, and stops the process only for its last one |
| `SlotCalls.StopIsAnswered` | core/control/slot.go:149-154 | a stop has nothing to do exactly for a profile not held, and is refused exactly for a held one of a busy slot |
| `SlotCalls.ResetIsTakenIff` | core/control/manager.go:371-385 | a reset is taken by every slot with nothing in flight, and refused exactly while something is |
| `SlotCalls.AResetFreesTheSlot` | core/control/manager.go:387-399 | a reset whose stop succeeds leaves an empty slot and nothing alive, whatever state the slot was in |
| `SlotCalls.ReloadIsTakenIff` | core/control/reload.go:32-54 | a reload is taken exactly by a running router of a backend that renders one file for all its profiles |
| `SlotCalls.ReloadIsAnswered` | core/control/reload.go:32-54 | a reload is refused exactly for a busy router, and has nothing to do exactly for anything else it does not take |
| `SlotCalls.StatusIsAnswered` | core/control/manager.go:449-472 | a status asks the process exactly for a held profile of a running engine, and otherwise reports the slot's state or stopped |
| `SlotCalls.ADeadEngineKeepsItsSlot` | core/control/slot.go:43 | an engine that dies on its own leaves slot and operations as they were |
| `Lifecycle.RestartNeedsNoReplace` | core/control/operations.go:30-40 | restart succeeds if and only if the profile is alone or the slot listens at its address, and then serves the same set |
| `Lifecycle.ARestartCanConflict` | core/control/operations.go:30-40 | a router with two profiles, one of which was moved: its restart conflicts |
| `Lifecycle.RestartElsewhere` | core/control/operations.go:32-40 | a profile not held is only started; one whose slot is not running conflicts |
| `Lifecycle.ValidateAutostart` | core/control/autostart.go:21-45 | accepts exactly the lists with one backend, several names only on one router address |
| `Lifecycle.StartAllFromServing` | core/control/autostart.go:54-63 | from a serving slot a list starts exactly when each name joins the same router |
| `Lifecycle.ServableIffStartable` | core/control/autostart.go:21-63 | the validator accepts exactly what starts from an empty slot without replace, and the slot then holds exactly that set |
| `Lifecycle.AnyOrderStarts` | core/control/autostart.go:54-63 | the same for every order of the names |
| `Recovery.FirstDecisive` | core/control/recovery.go:66-99 | the first adopted or broken candidate |
| `Recovery.TheLatestIsRemembered` | core/control/recovery.go:66-99 | of several classified errors the latest one is remembered |
| `Recovery.SharedProfiles` | core/control/recovery.go:101-118 | exactly the group's profiles with the adopted backend and address |
| `Recovery.BeginRecovery` | core/control/recovery.go:127-138 | the candidate's slot, reconciling, under a fresh id |
| `Recovery.RestoreRouterProfiles` | core/control/recovery.go:101-118 | a router's slot gets its shared profiles if the operation still owns it; an exclusive one is left alone |
| `Recovery.FinishRecovery` | core/control/recovery.go:158-175 | the owner releases the slot in the final state, or drops it when stopped; anyone else changes nothing |
| `Recovery.RecoverGroup` | core/control/recovery.go:66-99 | the candidate loop leaves what the group's results determine; an error leaves no reservation |
| `Recovery.CollectGroups` | core/control/recovery.go:23-48 | candidates by PID file in the order the files are first named, or failure when one does not resolve |
| `Recovery.RecoverRuntimes` | core/control/recovery.go:23-48 | the first group that settles or breaks decides; every error leaves an empty slot |
| `Recovery.WithKeySelects` | core/control/recovery.go:23-48 | a group holds exactly the candidates of its PID file |
| `Recovery.GroupsKeepTheOrder` | core/control/recovery.go:23-48 | documents join their group, and PID files the list, in the order they come |
| `Recovery.OutcomeIsTheFirstSettled` | core/control/recovery.go:23-48 | the slot comes from the first group that settles |
| `Recovery.RecoverySettles` | core/control/recovery.go:66-175 | unowned, Running only for an adopted process with exactly the group's profiles there, or Orphaned for a survivor of a group that adopted none |
| `Recovery.UnsettledGroupsAreDead` | core/control/recovery.go:66-99 | a group that leaves nothing has no survivor |
| `Recovery.EmptyRecoveryMeansDead` | core/control/recovery.go:23-48 | an empty slot after recovery means no survivor at all |
| `Recovery.RecoveredShape` | core/control/recovery.go:101-175 | the recovered slot is well formed and belongs to one candidate |
| `Recovery.ReachedIsNamed` | core/control/recovery.go:66-99 | a survivor in reach of a recovery that settled is the process the slot names |
| `Recovery.RecoveryEstablishesInv` | core/control/recovery.go:23-175 | recovery hands the slot protocol its invariant if and only if every survivor belongs to a PID file before which no group leaves a slot |
| `Recovery.EveryRunAfterRecoveryIsSafe` | core/control/recovery.go:23-175 | and every run from there keeps at most one engine alive |
| `Recovery.AnOrphanCanHideASurvivor` | core/control/recovery.go:66-99 | two PID files where the slot names the orphan and the live engine is out of reach |
| `Text.SplitUnlines` | backends/llamacpp/models_ini.go:163-187 | splitting written lines gives them back |
| `Text.TrimTakesBlanks` | backends/llamacpp/models_ini.go:167 | trimming takes away blanks on both sides and nothing else |
| `Text.SortedKeysSort` | backends/llamacpp/models_ini.go:74-88 | sorted keys ascend and are exactly the keys |
| `Rekey.RekeyMap` | backends/llamacpp/models_ini.go:92-108 | succeeds exactly when keys canonicalise apart and values can be written, in any order of the map, with exactly those entries |
| `Rekey.RekeyedFits` | backends/llamacpp/materialize.go:105-122 | the canonical map holds every entry under its canonical key and no other |
| `ModelKeys.CanonicalKeyIsIdempotent` | backends/llamacpp/models_ini.go:118-158 | a canonical key is its own canonical form and matches the key pattern |
| `ModelKeys.CanonicalKeyMeetsTheRules` | backends/llamacpp/models_ini.go:138-158 | the canonicaliser has what the file format needs |
| `ModelKeys.PatternIsPlain` | backends/llamacpp/models_ini.go:132-158 | a canonical key holds nothing the parser would trim, split or read as an environment name |
| `ModelKeys.CanonicalKeyAcceptsIff` | backends/llamacpp/models_ini.go:138-158 | a key is accepted exactly in lowercase form, or in the environment's with every letter upper case |
| `ModelKeys.EnvironmentSpelling` | backends/llamacpp/models_ini.go:143-157 | an option's environment spelling and its command-line spelling are one key |
| `ModelKeys.EngineAliasSpelling` | backends/llamacpp/models_ini.go:118-124 | which key each legacy spelling of an engine option is |
| `ModelKeys.ThinkAliasSpelling` | backends/llamacpp/models_ini.go:125-126 | which key each legacy spelling of a reasoning option is |
| `ModelKeys.ModelsAliasSpelling` | backends/llamacpp/models_ini.go:127-129 | the model options with underscores are those with dashes |
| `ModelKeys.NoAlias` | backends/llamacpp/models_ini.go:117-130 | no other key has an alias |
| `ModelsIni.WriteBlock` | backends/llamacpp/models_ini.go:74-88 | the stanza text is its lines, keys sorted |
| `ModelsIni.RenderSection` | backends/llamacpp/models_ini.go:74-88 | one section's text, or its error |
| `ModelsIni.AddStanza` | backends/llamacpp/models_ini.go:56-69 | one section adds its stanza, or fails the whole list for a global or repeated name or a stanza that does not render |
| `ModelsIni.RenderOrdered` | backends/llamacpp/models_ini.go:53-71 | the ordered stanzas; a repeated or global name is an error |
| `ModelsIni.RenderDefaults` | backends/llamacpp/models_ini.go:46-52 | the defaults as `[*]`, nothing when there are none |
| `ModelsIni.RenderModelsINI` | backends/llamacpp/models_ini.go:43-71 | the whole file is header, defaults and stanzas in name order, or an error |
| `ModelsIni.RendersIff` | backends/llamacpp/models_ini.go:43-115 | rendering fails exactly for an unwritable key, value or name, a global name, or a repeated name |
| `ModelsIni.SortSorts` | backends/llamacpp/models_ini.go:53-54 | sections come in name order |
| `ModelsIni.SortHolds` | backends/llamacpp/models_ini.go:53-54 | sorting keeps exactly the sections |
| `ModelsIni.RenderingIgnoresOrder` | backends/llamacpp/models_ini.go:36-71 | the same sections in any order render the same file |
| `IniParser.ParseINI` | backends/llamacpp/models_ini.go:163-187 | the loop is the fold of the line reader over the file's lines |
| `IniParser.FoldConcat` | backends/llamacpp/models_ini.go:163-187 | reading two parts one after the other is reading them together |
| `IniRoundTrip.StoredIffRepresentable` | backends/llamacpp/models_ini.go:204-218 | a value comes back if and only if it is trimmed and no blank precedes `;` or `#` |
| `IniRoundTrip.HeaderLineParses` | backends/llamacpp/models_ini.go:189-202 | a rendered header opens the section of its trimmed name, unless that is taken |
| `IniRoundTrip.KeyLineParses` | backends/llamacpp/models_ini.go:204-218 | a rendered key line sets that key to the stored form of its value |
| `IniRoundTrip.BlockParses` | backends/llamacpp/models_ini.go:74-88 | a rendered stanza adds its section with its stored values |
| `IniRoundTrip.JoinedParses` | backends/llamacpp/models_ini.go:53-71 | rendered stanzas add their sections one after the other |
| `IniRoundTrip.AddedInAnyOrder` | backends/llamacpp/models_ini.go:53-71 | what is read does not depend on the order of the sections |
| `IniRoundTrip.ParseOfRendered` | backends/llamacpp/models_ini.go:43-218 | parsing a rendered file adds the defaults and each section, nothing from its header |
| `IniRoundTrip.RoundTrip` | backends/llamacpp/models_ini.go:43-218 | for every renderable input: reads back if and only if trimmed names differ, with exactly those sections and their stored values |
| `IniRoundTrip.ExactRoundTrip` | backends/llamacpp/models_ini.go:43-218 | with trimmed names each section comes back exactly if and only if its values are representable |
| `IniRoundTrip.GeneratedHeaderIsAPreamble` | backends/llamacpp/models_ini.go:16-24 | no header line is read as a section or a key |
| `IniRoundTrip.GeneratedFileRoundTrip` | backends/llamacpp/models_ini.go:43-218 | with the file's own header and key canonicaliser, parsing gives exactly the rendered sections, plus `[*]` when there are defaults |
| `IniEditing.RemarksChangeNothing` | backends/llamacpp/models_ini.go:166-170 | a blank line or a comment can be put anywhere in a file |
| `IniEditing.AnUnreadableLineFails` | backends/llamacpp/models_ini.go:171-184 | a header that is not closed or names nothing, or a line without an equals sign in a section, fails the whole file |
| `IniEditing.ABadKeyFails` | backends/llamacpp/models_ini.go:204-212 | so does a key the canonicaliser rejects |
| `IniEditing.TheLaterValueCounts` | backends/llamacpp/models_ini.go:204-217 | of two lines for one key the later one counts |
| `IniEditing.ATrailingCommentIsDropped` | backends/llamacpp/models_ini.go:213-216 | a comment behind a value, after a blank, is no part of the value |
| `IniEditing.ValidNameIff` | backends/llamacpp/models_ini.go:110-115 | a section name is anything but blanks without the marks of the format |
| `IniEditing.ABreakIsNeverWritten` | backends/llamacpp/models_ini.go:102-104 | a value with a carriage return or a newline is never written |
| `Scalars.RenderedScalarReadsBack` | backends/llamacpp/materialize.go:124-142 | every boolean and integer reads back from its text, by a reader of booleans and signed decimals |
| `Scalars.AdoptedScalarIsItself` | backends/llamacpp/import.go:154-166 | the text of a boolean or integer is adopted as that boolean or integer |
| `Scalars.AnyOtherTextIsAString` | backends/llamacpp/import.go:154-166 | a text that is neither is adopted as a string and comes back |
| `Scalars.SurvivesIff` | backends/llamacpp/import.go:154-166 | of the booleans and decimals exactly those without a plus sign and other than a negative zero come back as written |
| `ImportMerge.ProfileSection` | backends/llamacpp/materialize.go:75-142 | the profile's stanza, or failure exactly for an invalid name or arguments that do not render |
| `ImportMerge.MergeSection` | backends/llamacpp/import.go:114-152 | only adopted keys change, to the edited value or absence; adopted if and only if some key moved in the file only; the conflicts are exactly the keys moved on both sides, sorted |
| `ImportMerge.MergeOne` | backends/llamacpp/import.go:120-133 | one key of the walk keeps the merge exact |
| `ImportMerge.MergeCoversEveryKey` | backends/llamacpp/import.go:117-134 | the walk over the union misses no touched key |
| `ImportMerge.CanonicalArgsRender` | backends/llamacpp/materialize.go:75-122 | canonical arguments render key for key |
| `ImportMerge.SectionIsWhatRenders` | backends/llamacpp/materialize.go:75-122 | for canonical arguments a stanza is exactly what the profile renders, key for key |
| `ImportMerge.MergedArgsAreCanonical` | backends/llamacpp/import.go:140-152 | adopted keys leave the arguments canonical and writable |
| `ImportMerge.MergedRenders` | backends/llamacpp/import.go:105-152 | the merged profile renders the edit on adopted keys and the wanted value on all others |
| `ImportMerge.ThreeWay` | backends/llamacpp/import.go:105-135 | by the three sides alone: an unanswered edit renders, an untouched key renders the profile's value, and only two different changes conflict |
| `ImportMerge.ModelEditComesBackIff` | backends/llamacpp/import.go:140-143 | an adopted non-empty `model` edit renders as itself exactly when its path is itself, a removed or empty one exactly when the engine_args say the same |
| `ImportMerge.ModelAfterIs` | backends/llamacpp/import.go:140-143 | what an adopted `model` edit renders, from the file and the profile alone |
| `ImportMerge.SecondImportAdoptsNothing` | backends/llamacpp/import.go:114-135 | a repeated import adopts nothing unless the adopted `model` edit resolves to the baseline's path, and touched keys are then conflicts |
| `ImportMerge.AnImportCanAdoptAgain` | backends/llamacpp/import.go:114-143 | a model path shortened to a name that resolves to the same path is adopted again and again |
| `ImportSections.ImportDocument` | backends/llamacpp/import.go:73-101 | each document is skipped, failed, panicked on or merged exactly in the stated cases |
| `ImportSections.MergeDocument` | backends/llamacpp/import.go:89-101 | rewritten to its merged profile if and only if a key was adopted |
| `ImportSections.ImportSections` | backends/llamacpp/import.go:70-103 | stops at the first document that fails or panics; otherwise returns exactly the rewritten profiles and the prefixed conflicts in order |
| `ImportSections.ImportIsDetermined` | backends/llamacpp/import.go:105-113 | the result is deterministic: one import has one outcome |
| `ImportSections.MergeIsUnique` | backends/llamacpp/import.go:114-135 | the three sides determine the merged profile |
| `ImportSections.VerdictIsUnique` | backends/llamacpp/import.go:73-101 | the verdict on a document leaves nothing open |
| `ImportSections.AdoptionsAre` | backends/llamacpp/import.go:71-101 | exactly the documents that took an edit are rewritten |
| `ImportSections.EachKeepsItsOwnText` | backends/llamacpp/import.go:71-101 | with distinct names every document gets its own text |
| `ImportSections.ReportsAre` | backends/llamacpp/import.go:90-92 | the conflicts reported are exactly the clashing keys behind their profile's name |
| `ImportSections.OnlyItsOwnSectionsCount` | backends/llamacpp/import.go:74-88 | only a profile of this backend with a section is looked at, and one whose section says what it renders is left alone |
| `ImportSections.ClashesAre` | backends/llamacpp/import.go:89-95 | a section is merged against its own baseline, an absent one counting as empty |
| `ImportSections.AMissingBaselinePanics` | backends/llamacpp/import.go:89-118 | every edited section without a baseline panics the import |
| `ImportSections.AKeyByHandPanics` | backends/llamacpp/import.go:89-118 | one such file: a key written by hand for a profile that renders nothing |
| `YamlMerge.Find` | core/profiles/store.go:364-371 | the first place of a key, or the end when it is missing |
| `YamlMerge.MergeNode` | core/profiles/store.go:332-343 | the code computes the merge |
| `YamlMerge.Compact` | core/profiles/store.go:348-356 | compacting the content in place keeps exactly the wanted entries, merged and in order |
| `YamlMerge.Append` | core/profiles/store.go:357-361 | the second loop appends exactly the wanted entries that were missing |
| `YamlMerge.MergedMapping` | core/profiles/store.go:348-362 | exactly the wanted keys: one the file had keeps its key node and comments beside the merged value, a new one is as wanted |
| `YamlMerge.MergedKeyOrder` | core/profiles/store.go:345-362 | the keys of the merged mapping: those that survive in the file's order, then the new ones in the wanted order |
| `YamlMerge.MergeMeansWant` | core/profiles/store.go:326-362 | the merged tree says what `want` says, text for text |
| `YamlMerge.MergeMeansWantIff` | core/profiles/store.go:296-343 | for every way to decode a scalar's form and text, the merged tree decodes to what is wanted if and only if every scalar that keeps its form does |
| `YamlMerge.AQuotedNumberStaysAString` | core/profiles/store.go:336-337 | a quoted number is kept although a plain one with that text is wanted |
| `YamlMerge.MergeIsIdempotent` | core/profiles/store.go:332-362 | merging again changes nothing |
| `YamlMerge.MergeWithItself` | core/profiles/store.go:332-362 | a tree merged with itself is itself |
| `YamlMerge.EqualMeaningIsIdentity` | core/profiles/store.go:326-362 | a tree of mappings and scalars is left exactly as written if and only if it already says what is wanted |
| `YamlMerge.MergeAtEveryPath` | core/profiles/store.go:332-362 | wherever a path leads in both trees the comments are the file's; a scalar with the wanted text is left as written, a mapping keeps its form, and anything else is the wanted node, tag and quoting included |
| `YamlNodes.YamlNode.constructor` | core/profiles/store.go:306-312 | a decoded node over decoded fields is a valid tree |
| `YamlNodes.YamlNode.Replace` | core/profiles/store.go:338-343 | the node is overwritten in place and keeps its own comments |
| `YamlNodes.MappingValue` | core/profiles/store.go:364-371 | the first place of a key among the fields |
| `YamlNodes.OpenNode` | core/profiles/store.go:332-362 | a valid mapping node is a list of values with separate footprints |
| `YamlNodes.CloseNode` | core/profiles/store.go:332-362 | and such a list makes a valid mapping node for the tree it stands for |
| `YamlNodes.RoomsApart` | core/profiles/store.go:348-362 | merged values under different keys never share a node |
| `YamlNodes.MergeField` | core/profiles/store.go:350-354 | merging one value in place leaves the fields before and after it as they were |
| `YamlNodes.KeepFields` | core/profiles/store.go:349-355 | the first loop keeps exactly the wanted fields, each merged in place |
| `YamlNodes.AppendFields` | core/profiles/store.go:357-361 | the second loop appends exactly the new fields, sharing their nodes |
| `YamlNodes.MergeMapping` | core/profiles/store.go:348-362 | the mapping case leaves a valid tree that is the merge, and touches only the file's nodes |
| `YamlNodes.MergeInto` | core/profiles/store.go:332-343 | the merge of nodes in place leaves exactly the merged tree, valid, within both footprints, and `want` untouched |
| `Transfer.Download.constructor` | core/modeldownload/manager.go:207-221 | starts from the disk with no bytes counted |
| `Transfer.Download.Copy` | core/modeldownload/manager.go:360-363 | file and progress grow together by exactly what the limit lets through |
| `Transfer.Download.WriteBody` | core/modeldownload/manager.go:351-375 | the file, created if it is gone, and the progress grow by exactly what the cap lets through; the copy fails only for an error read below the cap |
| `Transfer.Download.ExecuteFile` | core/modeldownload/manager.go:253-263 | the size is read first and the reply received later, with whatever became of the file in between |
| `Transfer.Download.ReceiveFile` | core/modeldownload/manager.go:260-275 | where the attempt continues, what it writes, every way it stops, and the total it counts |
| `Transfer.Download.FinishFile` | core/modeldownload/manager.go:271-285 | the size check on offset plus written, a file that is gone or cannot be hashed, removal on a wrong digest, forced removal and rename |
| `Transfer.LimitReached` | core/modeldownload/manager.go:360-363 | a copy stopped by the limit has all the limit lets through |
| `Transfer.DeliveredIs` | core/modeldownload/manager.go:360-373 | an honest body's bytes are the artifact's at the offset, all of them exactly when the stream ends cleanly within the cap |
| `Transfer.ResumesWhereThePartEnds` | core/modeldownload/manager.go:290-305 | an accepted reply continues exactly after the size asked about, or starts over |
| `Transfer.FetchedIsTheArtifactIff` | core/modeldownload/manager.go:253-271 | what was on disk and what the reply adds make the artifact exactly if a resumed file is still there and is a prefix |
| `Transfer.CopyExtends` | core/modeldownload/manager.go:351-375 | whatever the file held, the copy is that, unless it is gone or cut back, and the artifact's bytes at the offset |
| `Transfer.CopyLeaves` | core/modeldownload/manager.go:351-375 | the copied file holds the artifact from the start, or only from the offset if the file was discarded between size and open |
| `Transfer.CopyKeepsPrefixIff` | core/modeldownload/manager.go:351-375 | every byte written keeps the prefix exactly if such a discard does not tear the file |
| `Transfer.ExecuteStopsOrFinishes` | core/modeldownload/manager.go:264-275 | what stops an attempt before the final checks, and what it then leaves |
| `Transfer.CopiedIff` | core/modeldownload/manager.go:264-271 | exactly the attempts whose whole reply arrived within the cap come to the final checks, and their total is the artifact's length |
| `Transfer.FinishIff` | core/modeldownload/manager.go:271-285 | exactly when the final checks and the rename succeed, by total, digest, record and later discards |
| `Transfer.FailedCheckLeaves` | core/modeldownload/manager.go:212-219 | a failed check keeps the partial file unless the digest is wrong, and the target unless a forced rename fails |
| `Transfer.AStoppedAttemptKeepsItsBytes` | core/modeldownload/manager.go:351-375 | an attempt stopped after its file was opened keeps every byte it wrote |
| `Transfer.ARefusedAttemptLeavesTheDisk` | core/modeldownload/manager.go:253-266 | one that never opened the file leaves the disk alone |
| `Transfer.TooLongIsRefused` | core/modeldownload/manager.go:264-266 | a reply that announces more than the cap is refused before the file is opened, and only what was resumed is counted |
| `Transfer.AttemptCounts` | core/modeldownload/manager.go:290-305 | exactly what an attempt counts, by status, announced length and bytes written |
| `Transfer.AttemptIsCapped` | core/modeldownload/manager.go:360-371 | against any server the partial file stays within one byte of the cap and what lands within it |
| `Transfer.EveryFileIsCapped` | core/modeldownload/manager.go:360-371 | so do all files over every history |
| `Transfer.AMisplacedRangeLandsIff` | core/modeldownload/manager.go:287-305 | a partial reply to another range lands exactly if size and digest do not tell it from the artifact |
| `Transfer.AMisplacedRangeStartsOver` | core/modeldownload/manager.go:377-380 | it is never appended to what was there |
| `Transfer.AttemptLeaves` | core/modeldownload/manager.go:207-305 | exactly when an attempt lands; it then leaves what was fetched in place and counts the artifact's length, and otherwise leaves the target alone and the partial file gone, as before, or as copied |
| `Transfer.LandsWholeIff` | core/modeldownload/manager.go:253-275 | a landed target is the artifact exactly if the attempt did not resume a file that was gone at the open or no prefix to begin with |
| `Transfer.PrefixThroughoutIff` | core/modeldownload/manager.go:207-305 | over any history of failures, crashes, resumes, restarts from zero and discards at any moment, the partial file is a prefix throughout if and only if no attempt tears it |
| `Transfer.EpisodeTargetIff` | core/modeldownload/manager.go:207-221 | what one episode does to the target, and exactly which bytes a spoiled attempt lands |
| `Transfer.LandedTargetsAreWholeIff` | core/modeldownload/manager.go:207-221 | over every history every landed target is the artifact if and only if no spoiled attempt lands |
| `Transfer.PartIsAlwaysAPrefix` | core/modeldownload/manager.go:250-285 | without a discard between size and open the partial file is always a prefix and a landed target whole |
| `Transfer.FinishedTargetIsTheArtifactIff` | core/modeldownload/manager.go:207-221 | after any history the attempt that finishes leaves exactly what it fetched: the artifact, if and only if it was not spoiled |
| `Transfer.ADiscardCanLandASuffix` | core/modeldownload/manager.go:253-273 | without a digest a resumed file discarded before its open lands as a suffix, its size check passed |
| `Transfer.ADigestCatchesTheSuffix` | core/modeldownload/manager.go:394-416 | with a digest that tells them apart it is removed and the attempt fails |
| `Transfer.ATornPartCanLandAtFullSize` | core/modeldownload/manager.go:253-273 | a torn file left by a broken stream is completed by the next attempt to a target of the right length and the wrong bytes |
| `Transfer.CompletePartNeverFinishes` | core/modeldownload/manager.go:287-329 | against a range server a faultless attempt finishes if and only if the partial file is not complete yet |
| `Transfer.CompletePartIsStuck` | core/modeldownload/manager.go:287-305 | any number of such attempts leave the disk as it was |
| `Transfer.ACrashLeavesACompletePart` | core/modeldownload/manager.go:351-375 | a first attempt that crashes after the last byte leaves a complete partial file |
| `Transfer.ADiscardFreesIt` | core/modeldownload/persist.go:52-68 | once a restart discards it, the next faultless attempt starts over and finishes |
| `DownloadJobs.Manager.constructor` | core/modeldownload/manager.go:68-99 | no jobs and no owners |
| `DownloadJobs.Manager.Start` | core/modeldownload/manager.go:103-117 | a present target is recorded as already downloaded, anything else is launched |
| `DownloadJobs.Manager.LaunchJob` | core/modeldownload/manager.go:121-138 | an owned target answers with its owner and changes nothing; a free one is given to the new job |
| `DownloadJobs.Manager.CancelJob` | core/modeldownload/manager.go:155-175 | cancels exactly a queued or running job |
| `DownloadJobs.Manager.BeginJob` | core/modeldownload/manager.go:177-182 | running, unless it was cancelled first |
| `DownloadJobs.Manager.EndJob` | core/modeldownload/manager.go:187-197 | cancelled wins over failed, failed over completed |
| `DownloadJobs.Manager.ClearActiveJob` | core/modeldownload/manager.go:461-468 | the job owns no target any more, other owners stay |
| `DownloadJobs.Manager.RestoreJob` | core/modeldownload/persist.go:79-85 | the job is known again and runs nothing |
| `DownloadJobs.Manager.ReconcileJob` | core/modeldownload/persist.go:52-76 | finished records are restored and landed ones completed, both discarding the partial file; the rest are launched again |
| `DownloadJobs.ReconciledPhases` | core/modeldownload/persist.go:52-76 | a finished record comes back as it was, a landed one completed, any other queued unless its target is taken; no other job changes |
| `DownloadProtocol.LaunchKeepsOrder` | core/modeldownload/manager.go:121-138 | launching keeps the tables in order |
| `DownloadProtocol.MoveKeepsOrder` | core/modeldownload/manager.go:177-198 | a thread's move with a phase change keeps them |
| `DownloadProtocol.WriteKeepsOrder` | core/modeldownload/persist.go:99-120 | writing a snapshot never undoes a finished record |
| `DownloadProtocol.LeaveKeepsOrder` | core/modeldownload/manager.go:461-468 | a leaving transfer frees exactly its own target |
| `DownloadProtocol.CancelKeepsOrder` | core/modeldownload/manager.go:155-175 | a cancel in the middle of a transfer keeps them |
| `DownloadProtocol.ReconcileKeepsOrder` | core/modeldownload/persist.go:52-76 | reconciling a record, and discarding its partial file, keeps them |
| `DownloadProtocol.AdvanceKeepsOrder` | core/modeldownload/manager.go:177-221 | every step of a thread keeps them |
| `DownloadProtocol.NextKeepsOrder` | core/modeldownload/manager.go:103-198 | every step of the system keeps them |
| `DownloadProtocol.EveryRunIsOrderly` | core/modeldownload/manager.go:103-198 | every run, over any number of restarts, keeps them |
| `DownloadProtocol.OneTransferPerTarget` | core/modeldownload/manager.go:119-138 | one transfer per target; an owner is a known job transferring to it; every queued or running job has a live transfer |
| `DownloadProtocol.TerminalJobNeverChanges` | core/modeldownload/types.go:31-44 | until the daemon dies a finished job stays exactly as it is |
| `DownloadProtocol.SaveKeepsSafe` | core/modeldownload/persist.go:99-120 | a written or lost record keeps a job crash safe |
| `DownloadProtocol.FinishKeepsSafe` | core/modeldownload/manager.go:491-496 | so do the final checks and the rename, which happens once |
| `DownloadProtocol.AdvanceKeepsSafe` | core/modeldownload/manager.go:207-221 | every step of a transfer keeps its job crash safe |
| `DownloadProtocol.ReconcileKeepsSafe` | core/modeldownload/persist.go:52-76 | a restart runs a job again only if it has not renamed |
| `DownloadProtocol.EveryRunIsSafe` | core/modeldownload/persist.go:25-120 | every job is crash safe in every run |
| `DownloadProtocol.CrashSafety` | core/modeldownload/persist.go:20-120 | for targets no one forces: a job reported completed has its target on disk, and no job renames twice over all restarts |
| `DownloadProtocol.RetiredStaysRetired` | core/modeldownload/persist.go:52-60 | no step starts a finished job again |
| `DownloadProtocol.TerminalRecordNeverRuns` | core/modeldownload/persist.go:52-60 | a record persisted as terminal is never run again, however the run continues |
| `DownloadProtocol.ReconcileRunsIff` | core/modeldownload/persist.go:52-76 | whatever ran before, a record runs again exactly when it is unfinished, its target has not landed and nobody transfers to it |
| `DownloadProtocol.TakenAfterReconciling` | core/modeldownload/persist.go:36-48 | after a crash a target is taken exactly when a record reconciled so far runs again for it |
| `DownloadProtocol.CrashForgetsAFinishIff` | core/modeldownload/manager.go:168-175 | a finish is lost in a crash exactly when neither record nor target shows it and no record reconciled earlier runs again for the target |
| `DownloadParts.PartGoesIff` | core/modeldownload/persist.go:52-68 | the partial file of a transfer that asked to continue it, or is filling it, goes away exactly by its own rename or digest check, or when a restart discards it for a finished or landed record of the same target |
| `DownloadParts.PartTearsIff` | core/modeldownload/manager.go:351-356 | a partial file loses its beginning exactly when it is opened at an offset asked about and is gone |
| `DownloadParts.WhileAsked` | core/modeldownload/manager.go:254-263 | while a reply is awaited the file stays as it was, exactly if no such record is reconciled, over any steps of others |
| `DownloadParts.ResumeTearsIff` | core/modeldownload/manager.go:253-267 | a resumed file lacks its beginning exactly if such a record was reconciled between size and open, or it lacked it before |
| `DownloadParts.TornLandsIff` | core/modeldownload/manager.go:271-285 | a torn file lands exactly if the plan has no digest; otherwise it is removed and the transfer fails |
| `DownloadParts.StartingOverMends` | core/modeldownload/manager.go:351-356 | a reply that starts over mends a torn file |
| `DownloadParts.DoomedStays` | core/modeldownload/manager.go:177-221 | a transfer that lost its file, or failed, stays so over every step until the daemon dies |
| `DownloadParts.ALostPartNeverLands` | core/modeldownload/manager.go:491-496 | once the file being filled is discarded, that transfer never renames and its job never completes in any continuation until the daemon dies |
| `DownloadParts.ADiscardDooms` | core/modeldownload/persist.go:52-60 | the discard of a finished or landed record after the open is such a loss |
| `DownloadRuns.ARestartCanLandASuffix` | core/modeldownload/persist.go:36-68 | a restart with an interrupted and a finished record of one target: the requeued transfer completes with a target that lacks its beginning, or with a digest fails |
| `DownloadRuns.ARestartCanDiscardALivePart` | core/modeldownload/persist.go:36-68 | the same restart with the discard after the open: the transfer can only fail |
| `DownloadRuns.APartCanBeLostFromBoot` | core/modeldownload/persist.go:36-68 | both from an empty disk, with the records reconciled in the order of their ids |
| `DownloadRuns.ACancelCanBeForgotten` | core/modeldownload/manager.go:168-175 | a run where a cancel not yet persisted is lost |
| `DownloadCalls.TablesOfStep` | core/modeldownload/manager.go:103-198 | every step of the system changes the tables as the manager's method of that name does, and no other step touches them |
| `DownloadCalls.EndingDecides` | core/modeldownload/manager.go:187-197 | a job ends cancelled exactly if it was cancelled in time or interrupted, and otherwise as its transfer ended |
| `DownloadCalls.AForcedDownloadCanLoseItsTarget` | core/modeldownload/manager.go:217-220 | a crash between the forced removal and the rename leaves no target, only the filled partial file |
| `DownloadCalls.AnUnreadableRecordIsForgotten` | core/modeldownload/persist.go:41-46 | a record that cannot be read is dropped, and the disk is left alone |
| `DownloadCalls.AForgottenJobStaysForgotten` | core/modeldownload/persist.go:41-46 | no run brings such a job back |
| `LogTail.JoinedTail` | platform/audit/logs.go:472-486 | the last parts of a split, joined, are the last lines of the text |
| `LogTail.FormatTailIs` | platform/audit/logs.go:472-486 | the formatter keeps the last lines as they stand, and their final newline unless they are one empty line |
| `LogTail.EnoughStays` | platform/audit/logs.go:454-467 | once enough is read, more chunks are enough too |
| `LogTail.StopIsUnique` | platform/audit/logs.go:454-467 | file, line count and chunk size determine where the reader stops |
| `LogTail.ReadTailChunks` | platform/audit/logs.go:450-470 | stops after the first chunk that reaches the start, the budget or enough newlines, and returns exactly what was read |
| `LogTail.LastLinesOfEnd` | platform/audit/logs.go:450-486 | where the last lines of a text begin, from its end alone |
| `LogTail.ChunkedTailRefines` | platform/audit/logs.go:450-486 | always a suffix of the last lines of the whole file, and exactly them if and only if enough was read |
| `LogTail.FirstLineIsCutIff` | platform/audit/logs.go:450-486 | within the budget, the tail loses part of its first line exactly when a whole number of chunks from the end cuts it open |
| `LogTail.ALongLineIsCut` | platform/audit/logs.go:450-486 | one line longer than a chunk is such a file |
| `LogTail.Tail` | platform/audit/logs.go:293-310 | the tail a caller gets is a suffix of the last lines, and within the budget all of them unless a line is cut open |
| `LogFollow.CutLines` | platform/audit/logs.go:278-287 | the lines with their newlines, then the rest, are the bytes; neither holds a newline |
| `LogFollow.ReadNewLines` | platform/audit/logs.go:246-288 | what a poll reads after a truncation, a skipped burst or an archived file |
| `LogFollow.PollTakes` | platform/audit/logs.go:260-288 | a file that shrank is taken from its beginning, more than the budget is cut to exactly its last bytes, and anything else is read on |
| `LogFollow.AReplacementIsTakenWhole` | platform/audit/logs.go:248-251 | after a log was archived away its replacement is taken whole, as far as the budget allows |
| `LogFollow.LinesAreUnique` | platform/audit/logs.go:278-287 | the bytes determine the lines, so a poll has one answer |
| `LogFollow.PollConserves` | platform/audit/logs.go:246-288 | one more poll conserves every byte, or skips some exactly when the burst is over the budget |
| `LogFollow.Follow` | platform/audit/logs.go:202-231 | over any polls of an append-only file, exactly the appended bytes are delivered if and only if no burst was over the budget |
| `Events.EventStore.constructor` | core/control/events.go:42-47 | an empty store with the default limit for a non-positive one |
| `Events.EventStore.Record` | core/control/events.go:49-71 | the next id, the trimmed ring, and an offer to every channel: the step of the system that records |
| `Events.EventStore.Broadcast` | core/control/events.go:65-70 | every channel is offered the event, a full one skipped, in any order |
| `Events.EventStore.List` | core/control/events.go:73-79 | the ring, newest first |
| `Events.EventStore.SubscribeAndList` | core/control/events.go:81-99 | a new empty channel together with the ring as it stands: the step that subscribes |
| `Events.EventStore.Unsubscribe` | core/control/events.go:91-98 | exactly that channel is gone: the step that leaves |
| `Events.EventStore.Take` | core/control/events.go:87-91 | a subscriber takes the next event of its channel: the step that receives |
| `Events.DeliveryTracks` | core/control/events.go:65-70 | a delivery extends what a subscriber saw in order |
| `Events.SkipTracks` | core/control/events.go:65-70 | a skip leaves a gap that never closes |
| `Events.NextKeepsInv` | core/control/events.go:49-99 | every step keeps ring and subscribers in step with the history |
| `Events.EveryRunKeepsInv` | core/control/events.go:49-99 | so does every run |
| `Events.RingHoldsTheLatest` | core/control/events.go:49-64 | the last min(n, limit) events with consecutive ids and their own contents |
| `Events.SubscriberSeesInOrder` | core/control/events.go:81-99 | backlog and deliveries have increasing ids, and are the latest events without gap or repeat if and only if no send found the channel full |
| `Install.Installer.constructor` | backends/installstate.go:51-56 | no records and no directories |
| `Install.Installer.RunInstall` | backends/llamacpp/install.go:160-221 | refusals, the already-installed case, and every place an install can stop |
| `Install.Installer.Activate` | backends/llamacpp/install.go:225-254 | replaces what is at the release's place, or loses it when the move fails |
| `Install.Installer.RetirePrevious` | backends/installstate.go:138-153 | removes the oldest directory unless it is kept, active or not managed; a removal that fails is ignored |
| `Install.Installer.Rollback` | backends/installstate.go:166-185 | swaps the records only for a usable previous install |
| `Install.InstallAnswers` | backends/llamacpp/install.go:160-221 | exactly when an install changes anything, has nothing to do, or is refused, and what the records then are |
| `Install.RollbackAnswers` | backends/installstate.go:161-185 | a rollback swaps exactly for a usable previous install, and never touches a directory |
| `Install.InstallRetains` | backends/llamacpp/install.go:160-254 | an install leaves exactly the directories of the two records |
| `Install.InstallRetainsIff` | backends/installstate.go:138-153 | an install whose removal may fail keeps retention exactly when it worked or there was nothing to retire |
| `Install.EveryRunRetains` | backends/installstate.go:133-185 | after every run of installs whose steps on disk work and of rollbacks, the directories are exactly those of active and previous, and a previous install has an active one |
| `Install.TwoRollbacksRestore` | backends/installstate.go:161-185 | two rollbacks restore the original state |
| `Install.FailedMoveRetainsIff` | backends/llamacpp/install.go:237-242 | a failed move keeps retention exactly when no record names the directory |
| `Install.FailedWriteRetainsIff` | backends/llamacpp/install.go:213-216 | a failed state write keeps retention exactly when a recorded directory was reused and none was removed |
| `Install.AFailedMoveLosesTheActive` | backends/llamacpp/install.go:237-242 | a forced reinstall whose move fails leaves a record of a directory that is gone |
| `Install.AFailedWriteLeavesADirectory` | backends/llamacpp/install.go:213-216 | a state document that is not written leaves a directory no record names |
| `Install.RollbackUndoesInstallIff` | backends/installstate.go:161-185 | a rollback brings back the payload exactly when the install did not overwrite it |
| `Install.AForcedInstallOverwrites` | backends/llamacpp/install.go:182-242 | a forced reinstall and a rollback bring back the record but not its payload |
| `Install.InstallKeepsIntact` | backends/llamacpp/install.go:182-221 | an unforced install leaves both payloads where their records say |
| `Install.UnforcedRunsStayIntact` | backends/llamacpp/install.go:160-221 | without forced installs every rollback has the payload it was recorded with |

## Left out

- Daemon shutdown (`StopAllRuntimes`), which drops the slot without regard to its owner: the safety claims are for runs before it.
- The supervisor's operating-system side (signals, PID files, ports, readiness probes): it is the assumed interface of the slot protocol, and each probe result is an input of recovery.
- The autostart retry loop with its backoff: it repeats a start and adds no state of its own.
- Wrap-around of the 64-bit operation and event counters: both are unbounded.
- Audit records, durations and timestamps of transitions: presentation.
- IniRoundTrip.GeneratedFileRoundTrip: the wording of the header's comment lines is a parameter; any lines that start with `;` will do.
- ModelKeys.CanonicalKeyIsIdempotent: letter case is modelled where the result can be an ASCII letter; every other letter fails the key pattern either way.
- ImportMerge.ProfileSection: the YAML probe of a scalar and the path of a model source are parameters, and an integer is unbounded.
- ImportMerge.MergedRenders: engine_args keys are canonical and edited texts survive as scalars; arguments under an alias spelling are outside the statement, and a missing engine_args map is an empty one.
- ImportSections.ImportSections: reading the three files and decoding them happen before it.
- YamlMerge.MergeNode: it compacts one mapping's content in place on values; the sharing of nodes is in `YamlNodes`, which in turn keeps the surviving fields in a list of their own.
- YamlNodes.MergeInto: aliases, non-scalar keys and repeated keys are outside the model, and a sequence's items are values since a merge only replaces them whole.
- YAML and JSON text, HTTP, redirects and host policy, the model catalog, archive extraction and digests: libraries and the network; their results are inputs.
- Transfer.Download.ExecuteFile: a single-file plan; multi-file plans always start from an empty staging directory and cannot resume.
- DownloadProtocol.CrashSafety: forced downloads of the same target are excluded by its hypothesis, since they remove the target before the rename.
- DownloadProtocol.NextKeepsOrder: the step system keeps the length of a partial file and whether its beginning is missing; its bytes are in `Transfer`. A restart restores a record and discards its partial file in one step.
- DownloadParts.TornLandsIff: a digest is taken to reject every file that lacks its beginning; `Transfer.Lands` takes the digest's own answer, which is the artifact's if its bytes happen to repeat.
- Install.EveryRunRetains: directories that a failing removal leaves half removed are modelled as left behind.
- LogFollow.Follow: a follower whose consumer fails stops early, and over log rotation only what each poll takes is stated, not a whole follow.
- Log archives, profiles on disk, configuration, authentication, the web, terminal and RPC surfaces, GPU probing and fit estimates: plumbing, presentation or floating point.
