# Astrahold server: durability, revocation and credential protocols

A Dafny 4.11 model of the parts of the Astrahold server that keep state across crashes, reloads and
restarts, and of four small algorithms the world runtime relies on. `dafny verify dfyconfig.toml` checks
everything.

| file | what it models |
|---|---|
| `outcomes.dfy` | results, and a file that is replaced by rename and made durable by a directory sync |
| `framing.dfy` | the frame layout of the append-only journals and the scan that recovers them |
| `journal.dfy` | the journal class (save journal and death journal have the same code) and its checkpoint file |
| `inventory_state.dfy`, `snapshot_codec.dfy` | the durable inventory value, the character snapshot, store schemas 1 to 13, journal schemas 1 to 12, migrations |
| `save_machine.dfy` | the save pipeline as a step machine with deaths of the process and power losses, its invariant and the theorems about whole runs |
| `save_process_deaths.dfy` | runs in which processes die but the power stays on |
| `save_power_losses.dfy` | runs with power losses: which of them need no condition on their steps |
| `save_limits.dfy` | where the guarantees end: each guard, what a power loss may do without it, and the runs of the code that get there |
| `save_deployment.dfy` | the machine with the real codec, validation and canonicalisation; journals of earlier releases; concrete inputs |
| `save_persistence.dfy` | the code of the pipeline: outbox, store and coordinator classes, every method proved to be a run of that machine |
| `revocation_instance.dfy` | one `worldd` instance: revocation set, lease, acknowledgement; as a machine and as a class that runs it |
| `revocation_rollout.dfy` | the controller `revocationctl`: plan, preflight, two-phase publication, acknowledgement polling |
| `session_credentials.dfy` | issued session bearers and the account generation fence |
| `recovery_outbox.dfy`, `recovery_routes.dfy` | recovery challenges with durable delivery, and generation-routed providers |
| `death_machine.dfy`, `death_guarantees.dfy`, `death_limits.dfy` | delivery of death outcomes as a step machine, what it guarantees over whole runs, and the runs in which the order ends |
| `death_delivery.dfy` | the code of it: the deduplicating outbox, and a class whose every method is proved to be a run of that machine |
| `inventory.dfy`, `login_limiter.dfy`, `slow_ticks.dfy`, `action_progress.dfy` | the live inventory, the login limiter, the slowest-tick list, action-resource progress |

## How the model is built

A file that is only ever replaced by rename is a `Cell`: readers see `visible`; until the directory sync of
the rename has returned, a power loss may instead leave any content in `others`. A journal file is a byte
sequence of which the first `synced` bytes are durable; a power loss keeps those and any further bytes up to
some cut. There are two ways for a process to end. It dies, and the disk stays exactly as it is, with what is
not synced still not synced: the next process sees all of it and syncs none of it. Or the power goes, with it or
at any time later, and what is not synced may be undone. JSON, checksums and digests are opaque: the encoder of
a journal record is a function whose parser reads back what it wrote, a set digest and a token digest are
injective. I/O failures are nondeterministic branches at the places where the code can fail.

Protocols are step machines on values (`Enabled`, `Step`, `Runs`) with one action for each durable or published
effect, and both ends of the process allowed between any two. The classes carry a ghost trace of the actions
they have taken, and every method proves that its objects moved along a run of the machine, so the theorems
about runs are theorems about the code. In `session_credentials.dfy`, `recovery_outbox.dfy`,
`recovery_routes.dfy` and `login_limiter.dfy` the history (published views, grants, issuers, passes) is kept as
a ghost field of the class itself.

## What was found not to hold, with the exact condition

- The save pipeline builds on effects that may not be durable: no start syncs what it finds, and a process goes
  on after a failed sync. Three steps are at risk, each exactly while the effect below it is not synced:
  moving the checkpoint over an unsynced store directory (`CheckpointRisksTheSaveExactlyWhen`), storing a record
  whose frame is not synced (`StoringRisksTheRecordExactlyWhen`), writing a record over an unsynced checkpoint
  (`WritingRisksTwoOpenExactlyWhen`). These three guards are `Prudent`. The code gets past each of them without
  a single failed call, by the death of a process at the wrong moment: a save is lost
  (`DeathBeforeTheDirectorySync`, concretely `LossIsReachable`), no start succeeds any more
  (`DeathBeforeTheFrameSync`), or no restart gets past a record (`DeathWhileSavingMayWedge`). A failed directory
  sync in a process that goes on does the same (`FailedSyncReachesTheRisk`). The theorems about runs with power
  losses are therefore about prudent runs. Power losses alone never break prudence, wherever they fall
  (`ExactlyOnceUnderPowerLosses`), nor do failed calls and deaths at other moments than those
  (`ExactlyOnceWhileTimely`); and without a power loss no condition is needed at all
  (`ExactlyOnceWithoutPowerLoss`, `GuaranteedWithoutPowerLoss`).
- Replay compares the stored snapshot with the journaled one, while the store writes the canonical inventory. A
  record already stored is refused exactly when its snapshot is not stored as it is (`ConflictExactlyWhen`),
  which for the real codec means exactly when its inventory still uses the old hand fields or spells out an
  empty slot list (`DeployedStoresExactlyWhen`). One such save leaves a journal no restart gets past if the
  process ends before the checkpoint moves (`UnstableSnapshotWedges`, concretely `WedgeIsReachable`), and so may
  the last record of an earlier release (`UpgradeWedgesExactlyWhen`, `OldHandIsDecoded`).
- Not every intent the outbox takes can be journaled (`JournalTakesExactlyWhen`); one that cannot waits for as
  long as the process lives, and no flush succeeds over it (`WaitsForGood`, `FlushPending`, concretely
  `UnjournalableIsReachable`).
- A defeated character stored at schema 1 loads but cannot be saved again (`ResavingKeepsTheSnapshot`,
  concretely `DefeatedRecordCannotBeSaved`).
- A delivered death outcome may be missing from the journal after a power loss exactly when its record was not
  synced (`MayMissExactlyWhen`, with the run `SeenAndGone`), and an earlier one may follow it exactly when it was
  new to the consumer and the checkpoint before it was not synced (`MayGoBackExactlyWhen`, with the run
  `SeenAgain`); a record delivered again over an unsynced checkpoint never goes back. Both come about without a
  failed call, when a process starts over what the death of another left unsynced. Otherwise the consumer sees the
  journal in order, whatever calls fail and wherever the power goes (`InJournalOrderWhileTimely`). At-least-once
  delivery of ids holds regardless (`AtLeastOnce`).
- The rollout plan accepts members whose targets cross; a rollout reported as published has installed its targets
  exactly when they do not (`CrossedPlanIsAccepted`, `PublishedInstallsExactlyWhen`). No instance ever installs a
  mixture, crossed or not (`NeverAMixture`, `ReloadDuringRollout`).
- An acknowledgement the controller can read is a floor for later restarts exactly when it is durable; until its
  directory sync returns a power loss may take it back (`AckIsAFloorExactlyWhen`, `AckIsNoFloorBeforeItsSync`,
  `ConvergenceIsReal`). A durable one is not enough to let a credential through (`DurableIsNotEnough`).
- `GainActionResource` leaves a valid state exactly when it does not fill a resource that has progress under way
  (`FillingKeepsValidExactlyWhen`, `FillingCanBreakAState`).

## Model

| member | source | states |
|---|---|---|
| Framing.BigEndianRoundTrip | internal/characterstate/save_journal.go:436-438 | the length prefix reads back for every 32-bit length |
| Framing.ReadWholeFrame | internal/characterstate/save_journal.go:289-299 | reading at the start of a whole frame, wherever it lies in a file, gives the appended entry and the offset behind the frame |
| Framing.ScanComposes | internal/characterstate/save_journal.go:268-281 | scanning an intact file with more bytes behind it is its own records joined to the scan of the rest |
| Framing.ReadsBack | internal/characterstate/save_journal.go:289-299 | the k-th record of an intact file is read from the end offset of the one before, and has the k-th id |
| Framing.ScanTornAppend | internal/characterstate/save_journal.go:268-287 | an intact file followed by any proper prefix of one more frame scans to exactly its own records and the offset to cut at |
| Framing.ScanWholeAppend | internal/characterstate/save_journal.go:268-281 | a whole further frame with the next id gives an intact file with exactly one record more |
| Framing.ImageIsIntact | internal/characterstate/save_journal.go:268-281 | header and one frame per record scan back to the records and their end offsets, for every record list |
| Framing.ScanRecovers | internal/characterstate/save_journal.go:268-299 | torn-tail recovery for every record list and every proper prefix of one more frame: the list, its end offsets, the file length to keep |
| Framing.CutAnywhere | internal/characterstate/save_journal.go:268-287 | cut an intact file anywhere: the scan finds exactly the records that end before the cut, and says whether more lies behind them |
| Journals.CheckpointFault | internal/characterstate/save_journal.go:241-248 | a checkpoint passes if and only if it is the one of some record of this journal |
| Journals.CheckpointSurvivesReopening | internal/characterstate/save_journal.go:241-281 | a valid checkpoint stays valid in every later reopening, whatever was appended or torn off behind it |
| Journals.Journal.Open | internal/characterstate/save_journal.go:128-136 | opening gives exactly the scanned records over a file cut behind the last whole frame; corruption is reported only for a bad header or a scan that finds it |
| Journals.Journal.ScanExisting | internal/characterstate/save_journal.go:268-281 | the scan loop computes the scan function: records, offsets, end, torn flag, and corruption |
| Journals.Journal.RepairTornTail | internal/characterstate/save_journal.go:283-287 | truncation keeps exactly the bytes before the cut and changes no record |
| Journals.Journal.Append | internal/deathoutcome/journal.go:188-236 | success adds exactly one durable frame with the next id; failure changes no readable record and leaves at most a prefix of the frame behind the durable end |
| Journals.Journal.ReadRecordAt | internal/characterstate/save_journal.go:289-299 | from the end of the k-1st record the k-th is read; only I/O can prevent it |
| Journals.Journal.RecordsAfter | internal/characterstate/save_journal.go:178-193 | the slice behind a valid checkpoint, of length min(limit, rest) for a positive limit and the whole rest otherwise; errors exactly for an invalid checkpoint, a closed journal or I/O |
| Journals.Journal.CheckpointFor | internal/characterstate/save_journal.go:232-239 | a checkpoint made for a record of the journal is valid in it |
| Journals.CheckpointStore.Load | internal/characterstate/save_journal.go:197-213 | loads the saved checkpoint if it is valid in this journal, the initial one if none was saved, and otherwise says what is wrong with it |
| Journals.CheckpointStore.Save | internal/characterstate/save_journal.go:215-228 | success makes the new checkpoint durable; failure leaves the old one, or the new one undone by a crash |
| InventoryStates.CanonicalOfValid | internal/characterstate/inventory.go:151-156 | a valid inventory canonicalises to itself with the hand fields moved into the slot lists and spelled-out empty lists dropped |
| InventoryStates.CanonicalExactlyWhen | internal/characterstate/inventory.go:130-156 | a valid inventory is its own canonical form if and only if it uses no hand field and spells out no empty slot list |
| InventoryStates.CanonicalIsIdempotent | internal/characterstate/inventory.go:151-156 | canonicalising twice changes nothing more |
| InventoryStates.NormalisedIsValid | internal/characterstate/inventory.go:130-156 | the canonical form of a valid inventory is valid |
| Snapshots.NewLearnedIsCanonical | internal/characterstate/store.go:193-287 | the learned set built while loading is in catalog order and has exactly the given members |
| Snapshots.SavedRecordLoads | internal/characterstate/store.go:173-315 | whatever Save accepts, writing and loading bring back |
| Snapshots.ValidIsSavable | internal/characterstate/store.go:173-191 | Save refuses no snapshot that is valid at schema 13, and stores it with the canonical inventory |
| Snapshots.LoadedIsValid | internal/characterstate/store.go:193-287 | a loaded record of any schema has a canonical inventory and is valid at schema 13 if and only if its respawn binding is; from schema 2 on it is |
| Snapshots.ResavingKeepsTheSnapshot | internal/characterstate/store.go:173-315 | a loaded record of any schema is accepted for re-saving and reloads unchanged, if and only if it is not a defeated one of schema 1 |
| Snapshots.CommandRoundTrip | internal/characterstate/save_journal.go:301-434 | whatever Append accepts, the journal decoder reads back, command and snapshot alike |
| Snapshots.LoadoutMigrationsAgree | internal/characterstate/save_journal_schema_guard.go:14-64 | the loadout-only schemas of store and journal migrate to the same learned set, exactly the configured skills |
| Snapshots.SaveCodecIsLawful | internal/characterstate/save_journal.go:301-321 | the save journal's encoder and decoder meet the round-trip law the journal theorems assume |
| SaveMachine.StepKeeps | cmd/worldd/character_state_store.go:50-196 | every step keeps the pipeline invariant, frames written in part, failed calls, deaths of the process, power losses and restarts included: journal, checkpoint and store at most one record apart, and a checkpoint that a power loss may leave at the tail only over a durably stored record; the step has to meet the three guards of `Prudent`, each of which `SaveLimits` shows to be exact |
| SaveMachine.StepForgetsNothing | cmd/worldd/character_state_store.go:50-196 | no step forgets a synced record, not even a power loss, and nothing but a power loss forgets any |
| SaveMachine.RunKeeps | cmd/worldd/character_state_store.go:50-196 | the invariant after every prudent run, with processes dying and the power going anywhere; the synced journal only grows |
| SaveMachine.PathKeeps | cmd/worldd/character_state_store.go:50-196 | the invariant at every state of such a run |
| SaveMachine.ExactlyOnce | cmd/worldd/character_state_store.go:50-196 | over every prudent run with power losses: when caught up each character's revision is durably its initial one plus the number of its journal records and its snapshot that of the last; at any time anything a power loss may leave is that, or that without the last journal record; which runs are prudent: `SavePowerLosses` |
| SaveMachine.AfterIsMoved | cmd/worldd/character_state_store.go:80-100 | applying the journal record by record equals counting a character's records and taking its last snapshot |
| SaveMachine.NothingTakenIsLost | cmd/worldd/character_state_store.go:50-74 | over every prudent run: while a process lives, the intents it took are those it journaled followed by those still waiting, in order; which runs are prudent: `SavePowerLosses` |
| SaveMachine.ConflictExactlyWhen | cmd/worldd/character_state_store.go:80-100 | replay refuses the open record if and only if it is already stored and its snapshot was not stored as it is; never with canonical intents |
| SaveMachine.ScanFinds | internal/characterstate/save_journal.go:268-299 | what a restart reads: the journal as it was, or with the one record that reached the disk whole |
| SaveMachine.RestartSucceeds | cmd/worldd/character_state_store.go:149-163 | wherever the invariant holds, whichever way the process ended, the journal opens, the checkpoint loads, and at most one record lies behind it |
| SaveMachine.RecoveryCompletes | cmd/worldd/character_state_store.go:105-163 | with canonical intents, from whatever a power loss leaves, at most six steps bring the process up with journal, checkpoint and a durable store in agreement and nothing lost |
| SaveMachine.PathRuns | cmd/worldd/character_state_store.go:50-196 | the state sequence recorded by the classes is a run of the machine |
| SaveMachine.PathLeavesItWaiting | cmd/worldd/character_state_store.go:169-225 | an intent no revision makes journalable waits in the outbox at every later state in which the process lives |
| SaveProcessDeaths.SettledStep | cmd/worldd/character_state_store.go:50-196 | no step but a power loss can tell what is synced from what is only visible, and over a state that is all synced every step is prudent |
| SaveProcessDeaths.AliveRunKeeps | cmd/worldd/character_state_store.go:50-196 | what is visible keeps the invariant over every run without a power loss, with no condition on its steps, whatever call fails and wherever processes die |
| SaveProcessDeaths.ExactlyOnceWithoutPowerLoss | cmd/worldd/character_state_store.go:50-196 | over every run without a power loss: caught up means every character moved on by exactly its journal records, at any time that or that without the last; no intent is lost; no conflict with canonical intents |
| SaveProcessDeaths.RecoveryCompletesWithoutPowerLoss | cmd/worldd/character_state_store.go:105-163 | after any deaths of processes and with canonical intents, at most six steps bring the process up in agreement with nothing lost |
| SavePowerLosses.ExactlyOnceUnderPowerLosses | cmd/worldd/character_state_store.go:50-196 | over every run from a new journal of enqueue, journal, confirm, apply, checkpoint, power-loss and restart steps, the power going anywhere: caught up means every character durably moved on by exactly its journal records; what a power loss may leave is that or that without the last; no intent is lost; a process that is down can start; no conflict with canonical intents |
| SavePowerLosses.ExactlyOnceWhileTimely | cmd/worldd/character_state_store.go:50-196 | the same with failed calls and deaths of processes as well, as long as no call fails over a renamed but unsynced store record and no process dies over an unsynced store record, checkpoint or whole frame |
| SavePowerLosses.SteadyStep | cmd/worldd/character_state_store.go:50-196 | a step of such a run is prudent: only the effect under way is ever unsynced |
| SavePowerLosses.RecoveryCompletesWhileTimely | cmd/worldd/character_state_store.go:105-163 | after any such run and with canonical intents at most six steps bring a process that is down up, with a durable store at the end of a journal that lost nothing |
| SaveLimits.CheckpointRisksTheSaveExactlyWhen | cmd/worldd/character_state_store.go:105-128 | behind the rename of the checkpoint a power loss may leave it over a store without the save, if and only if the last directory sync of the store has not returned |
| SaveLimits.StoringRisksTheRecordExactlyWhen | cmd/worldd/character_state_store.go:80-100 | behind the rename of a store record a power loss may leave the store ahead of the journal, if and only if the journal record is not synced |
| SaveLimits.WritingRisksTwoOpenExactlyWhen | internal/characterstate/save_journal.go:158-176 | behind the write of a whole frame a power loss may leave two records behind the checkpoint, if and only if the checkpoint is not synced |
| SaveLimits.FailedSyncReachesTheRisk | cmd/worldd/character_state_store.go:80-128 | from every state that can send an intent the store keeps, a run of the code with one failed directory sync reaches the risk to the save |
| SaveLimits.DeathBeforeTheDirectorySync | cmd/worldd/character_state_store.go:80-163 | the same risk with no failed call: the process dies between the rename of the store record and the directory sync, and the next one skips the record |
| SaveLimits.DeathBeforeTheFrameSync | internal/characterstate/save_journal.go:158-176 | no failed call: the process dies between the write and the sync of a frame, the next one applies and checkpoints it, and a power loss then makes every start fail on a checkpoint ahead of the journal |
| SaveLimits.DeathWhileSavingMayWedge | internal/characterstate/save_journal.go:215-228 | no failed call: the process dies between the rename of a checkpoint and its sync, the next one saves the same character again, and a power loss then leaves two records behind the checkpoint, at the first of which every restart stops |
| SaveLimits.SecondSaveMayWedge | cmd/worldd/character_state_store.go:50-100 | the same from any caught-up state over a checkpoint that is not synced |
| SaveLimits.WedgedExactlyWhen | cmd/worldd/character_state_store.go:88-100 | a restart over a store that already has the open record stops at it, if and only if the store rewrote its snapshot |
| SaveLimits.UnstableSnapshotWedges | cmd/worldd/character_state_store.go:88-100 | from every state that can send an intent the store rewrites, a prudent run gets to where any end of the process leaves a journal no restart gets past |
| SaveDeployment.DeployedIsSound | internal/characterstate/outbox.go:47-66 | the deployed codec, producers and store satisfy what the machine assumes |
| SaveDeployment.DeployedStoresExactlyWhen | internal/characterstate/store.go:173-191 | the deployed store takes every journaled command, and keeps its snapshot as it is if and only if the inventory uses no hand field and no spelled-out empty list |
| SaveDeployment.JournalTakesExactlyWhen | internal/characterstate/save_journal.go:387-392 | an enqueued intent can be journaled if and only if its inventory is initialised, its skin known and the revision can still grow |
| SaveDeployment.DecodedIsTaken | internal/characterstate/save_journal.go:338-434 | a journal record of any earlier schema that decodes is valid at schema 13, and Append would take it now if and only if its inventory is initialised |
| SaveDeployment.DecodedStoresExactlyWhen | internal/characterstate/save_journal.go:338-385 | such a record is stored as it was journaled if and only if its inventory uses no hand field and no spelled-out empty list |
| SaveDeployment.DecodedIsHeld | internal/characterstate/save_journal.go:308-321 | whatever decodes, of any schema and with or without an initialised inventory, may be the next record of a journal of the machine: it is one if and only if its id and expected revision follow |
| SaveDeployment.FoundIsFine | cmd/worldd/character_state_store.go:149-163 | a journal an earlier release left, of frames of any schema that decode, the last one whole and everything synced, is a state from which everything about runs holds |
| SaveDeployment.UpgradeWedgesExactlyWhen | cmd/worldd/character_state_store.go:149-163 | if that release had stored its last record but not moved the checkpoint, no start gets past it, if and only if the store would write that record differently |
| SaveDeployment.WedgeIsReachable | cmd/worldd/character_state_store.go:80-100 | from a new journal in front of any store without the character, one save of a character with an old hand field reaches the state that wedges; the deployed outbox, codec and store take it |
| SaveDeployment.LossIsReachable | cmd/worldd/character_state_store.go:80-128 | from there one save of a character with empty hands reaches the risk to the save without a failed call |
| SaveDeployment.UnjournalableIsReachable | internal/characterstate/outbox.go:47-66 | the deployed outbox takes an intent with an inventory that is not initialised, and it waits for good |
| SaveDeployment.DefeatedRecordCannotBeSaved | internal/characterstate/store.go:173-287 | a concrete defeated record of store schema 1 loads and cannot be saved again |
| SaveDeployment.OldHandIsDecoded | internal/characterstate/save_journal.go:338-434 | a concrete record of journal schema 8 with a hand field decodes, and the store writes it differently |
| SavePersistence.Outbox.Enqueue | internal/characterstate/outbox.go:47-66 | accepts exactly durable identities with valid snapshots while there is room, with the next id at the tail; a refusal changes nothing |
| SavePersistence.Outbox.Pending | internal/characterstate/outbox.go:68-78 | a prefix of the queue of length min(limit, size) |
| SavePersistence.Outbox.Confirm | internal/characterstate/outbox.go:80-97 | removes exactly the head; a later id is reported as out of order |
| SavePersistence.CharacterStore.Load | internal/characterstate/store.go:167-171 | the visible record of a durable identity |
| SavePersistence.CharacterStore.Save | internal/characterstate/store.go:173-191 | compare-and-swap: success stores the canonical snapshot durably at the next revision; failure changes nothing or leaves the new version not yet durable; a conflict only for another revision |
| SavePersistence.CharacterStatePersistence.JournalHead | cmd/worldd/character_state_store.go:50-74 | the head leaves the outbox only behind its synced frame with the store's current revision; on failure outbox and journal keep their records |
| SavePersistence.CharacterStatePersistence.AppendHead | cmd/worldd/character_state_store.go:58-69 | the appended record is the outbox head against the revision the store holds; otherwise no record is added |
| SavePersistence.CharacterStatePersistence.SaveRecord | cmd/worldd/character_state_store.go:90-95 | the store save of the record is a rename and a sync step of the machine, and never a conflict |
| SavePersistence.CharacterStatePersistence.Apply | cmd/worldd/character_state_store.go:80-100 | success leaves the record applied by a run of the machine; a revision conflict only where the machine has one |
| SavePersistence.CharacterStatePersistence.MoveCheckpoint | cmd/worldd/character_state_store.go:120-125 | the checkpoint moves by one record or not at all, in step with the checkpoint file |
| SavePersistence.CharacterStatePersistence.ConsumeRecord | cmd/worldd/character_state_store.go:116-126 | one turn applies a record and moves the checkpoint by one, or stops idle with the checkpoint unmoved |
| SavePersistence.CharacterStatePersistence.ConsumeBatch | cmd/worldd/character_state_store.go:105-128 | the checkpoint moves by exactly the number processed; nothing processed without error means caught up |
| SavePersistence.CharacterStatePersistence.Drain | cmd/worldd/character_state_store.go:130-147 | success leaves nothing behind the checkpoint; it terminates |
| SavePersistence.CharacterStatePersistence.PersistHead | cmd/worldd/character_state_store.go:174-193 | journals, applies and checkpoints exactly the outbox head |
| SavePersistence.CharacterStatePersistence.PersistOutboxBatch | cmd/worldd/character_state_store.go:169-196 | success removes exactly the processed prefix of the outbox and ends caught up |
| SavePersistence.CharacterStatePersistence.PersistBatch | cmd/worldd/character_state_store.go:198-208 | the worker's turn: drain, then one outbox batch, each a run of the machine |
| SavePersistence.CharacterStatePersistence.FlushPending | cmd/worldd/character_state_store.go:210-225 | success leaves the outbox empty and nothing behind the checkpoint, and shows that no intent that waited was unjournalable; the loop ends |
| SavePersistence.CharacterStatePersistence.LoadRestore | cmd/worldd/character_state_store.go:230-251 | a returned record is the store's, read with nothing waiting and nothing open; while an unjournalable intent waits there is none |
| SavePersistence.CharacterStatePersistence.Enqueue | internal/characterstate/outbox.go:47-66 | an enqueue at any stage of the coordinator is one step of the machine |
| SavePersistence.CharacterStatePersistence.Guaranteed | cmd/worldd/character_state_store.go:50-251 | wherever the code stands after any calls whose steps were prudent: the invariant, no conflict with canonical intents, and when caught up a store that durably holds exactly what the journal says and every intent taken |
| SavePersistence.CharacterStatePersistence.PrudentUnlessASaveFails | cmd/worldd/character_state_store.go:50-251 | the code is prudent from a start over a disk that is all synced, as long as no call fails over an unsynced store directory |
| SavePersistence.CharacterStatePersistence.GuaranteedWithoutPowerLoss | cmd/worldd/character_state_store.go:50-251 | wherever the code stands while the power is on, prudent or not and whatever call failed: no conflict with canonical intents, and when caught up a store that shows exactly what the journal says |
| SavePersistence.CharacterStatePersistence.WaitsForGood | cmd/worldd/character_state_store.go:169-225 | an intent the journal does not take stays in the outbox while the process lives |
| SavePersistence.CharacterStatePersistence.NoneWaited | cmd/worldd/character_state_store.go:210-225 | with an empty outbox no intent that waited before was unjournalable |
| SavePersistence.Recover | cmd/worldd/character_state_store.go:149-163 | recovery over whatever a dead process or a power loss left, synced or not, is the machine's restart followed by a drain; it is refused only by I/O or where the machine cannot restart |
| RevocationInstance.StepKeeps | cmd/worldd/session_edge_leaf_revocation_distribution.go:323-462 | every micro-step of load, publish, install and acknowledge, with checks, deaths of the process, power losses and restarts between any two, keeps the instance invariant |
| RevocationInstance.PathKeeps | cmd/worldd/session_edge_leaf_revocation_distribution.go:323-462 | the invariant and the growing history at every state of a run |
| RevocationInstance.EpochsNeverGoBack | cmd/worldd/session_edge_leaf_revocation_distribution.go:180-191 | over any reloads, failed acknowledgements, deaths, power losses and restarts the epochs under which credentials pass are non-decreasing and bounded by the acknowledgement |
| RevocationInstance.CheckPassesExactlyWhen | cmd/worldd/session_edge_leaf_revocation.go:211-223 | at every point inside a reload a credential passes if and only if this process has acknowledged its lease, the lease is unexpired, its digest that of the set looked at, and the credential outside every set that digest names; then the acknowledgement is durable, and from the installation of a lease until it is acknowledged nothing passes |
| RevocationInstance.DurableIsNotEnough | cmd/worldd/session_edge_leaf_revocation_distribution.go:147-192 | every process that starts over the durable acknowledgement of the very lease it loads lets nothing through before it has written it again |
| RevocationInstance.ReloadIsAllOrNothing | cmd/worldd/session_edge_leaf_revocation_distribution.go:323-380 | a reload installs exactly the set and lease it read, or leaves the authority as it was |
| RevocationInstance.AckIsAFloorExactlyWhen | cmd/worldd/session_edge_leaf_revocation_distribution.go:299-321 | no later run goes below an acknowledged epoch if and only if no power loss can bring an older acknowledgement back |
| RevocationInstance.AckIsNoFloorBeforeItsSync | cmd/worldd/session_edge_leaf_revocation_distribution.go:382-450 | from every fresh process and every newer lease: behind the rename of its acknowledgement that can be read and is no floor, behind the directory sync it is one |
| RevocationInstance.AckOfASecondEpoch | cmd/worldd/session_edge_leaf_revocation_distribution.go:147-192 | there is such a process |
| RevocationInstance.AckIsEvidence | cmd/worldd/session_edge_leaf_revocation_distribution.go:382-450 | an acknowledgement that can be read means this instance has had exactly that set and lease in force |
| RevocationInstance.LeafRevocation.Start | cmd/worldd/session_edge_leaf_revocation_distribution.go:147-192 | start-up is the machine's start over the acknowledgement file: below its floor or without a durable acknowledgement there is no instance |
| RevocationInstance.LeafRevocation.WriteAck | cmd/worldd/session_edge_leaf_revocation_distribution.go:382-450 | success leaves a durable acknowledgement of exactly the lease in force; a failed one may be visible but not durable, and then nothing is authorised |
| RevocationInstance.LeafRevocation.PublishCandidate | cmd/worldd/session_edge_leaf_revocation.go:251-289 | publishes the candidate as one step; it fails only when the generation is exhausted |
| RevocationInstance.LeafRevocation.InstallLease | cmd/worldd/session_edge_leaf_revocation_distribution.go:349-380 | the lease comes into force unacknowledged and is healthy exactly when its acknowledgement succeeds |
| RevocationInstance.LeafRevocation.ReloadDistributed | cmd/worldd/session_edge_leaf_revocation_distribution.go:349-380 | an error leaves the authority alone; success installs exactly what was read and reports its generation, revision, epoch and health |
| RevocationInstance.LeafRevocation.CredentialAuthorizationError | cmd/worldd/session_edge_leaf_revocation.go:211-223 | no error exactly when the check of the machine passes, and the pass is recorded |
| RevocationRollout.LoadPlan | cmd/revocationctl/plan.go:15-137 | the loop over seen-maps accepts exactly the plans with valid members, unique ids and acknowledgements, paired targets and no overlap |
| RevocationRollout.CrossedPlanIsAccepted | cmd/revocationctl/plan.go:15-137 | one member's distribution target may be another's revocation target |
| RevocationRollout.Preflight | cmd/revocationctl/rollout.go:15-60 | passes exactly when every member is clear to move, and returns each target pair with its instances in order |
| RevocationRollout.PublishRollout | cmd/revocationctl/main.go:265-312 | rejects exactly bad times or an unclear member without a write; otherwise the files only ever pass through two-phase cuts, and reaching the end means every target is written |
| RevocationRollout.Stage | cmd/revocationctl/main.go:294-300 | the first phase writes only revocation targets, in some order |
| RevocationRollout.PublishAll | cmd/revocationctl/main.go:301-308 | the second phase starts only over all revocation targets |
| RevocationRollout.CutHolds | cmd/revocationctl/main.go:294-308 | at every cut a member's files are the old ones or exactly the target's, and the manifest is never ahead of the set |
| RevocationRollout.ManifestAtACut | cmd/revocationctl/main.go:294-308 | at every cut a manifest is missing, the target's or the old one, for every plan |
| RevocationRollout.NeverAMixture | cmd/worldd/session_edge_leaf_revocation_distribution.go:323-347 | for every plan, crossed or not, every cut, every set an instance has read and every time: its reload is refused, or yields the target with exactly the target's set, or what its manifest named before with exactly that set; if that was missing or its own lease, it keeps its lease or moves to the target |
| RevocationRollout.MovesExactlyWhen | cmd/worldd/session_edge_leaf_revocation_distribution.go:323-347 | it moves if and only if the epoch is new to it, the lease runs and is not too long, it has read the target's set, and its manifest is published, or named the target already and was not overwritten by a staged set |
| RevocationRollout.ReloadDuringRollout | cmd/worldd/session_edge_leaf_revocation_distribution.go:323-380 | for every run of `PublishRollout` and any two moments of it, in either order, at which an instance reads its two files: the instance stays as it is, or comes to have exactly the set and lease of the target, or of what its manifest named before |
| RevocationRollout.PublishedInstallsExactlyWhen | cmd/revocationctl/main.go:294-312 | all targets are in place behind a finished publication if and only if the plan's targets do not cross |
| RevocationRollout.CollectAcks | cmd/revocationctl/rollout.go:172-217 | members split into acknowledged and pending in plan order; an error exactly for a conflicting acknowledgement |
| RevocationRollout.ValidateTargets | cmd/revocationctl/rollout.go:146-170 | passes exactly when every member has the target set and lease, though equal pairs are looked at once |
| RevocationRollout.WaitForAcks | cmd/revocationctl/rollout.go:62-125 | converged exactly when the last turn saw all targets in place and all acknowledgements; incomplete reasons; each instance's first observation |
| RevocationRollout.Observe | cmd/revocationctl/rollout.go:86-95 | records an instance's first acknowledgement and never moves it |
| RevocationRollout.ConvergenceIsReal | cmd/revocationctl/rollout.go:62-125 | when all acknowledgements are seen, every instance has had exactly the candidate's set in force at the plan epoch, and that epoch is its floor if and only if its acknowledgement is durable |
| SessionCredentials.Prune | cmd/worldd/session_login.go:340-353 | keeps exactly the live entries, and with an authenticator only those of an active generation |
| SessionCredentials.ActiveScopes | cmd/worldd/trusted_character_auth_runtime.go:126-142 | the allow-set is exactly the live digests |
| SessionCredentials.GenerationsAt | cmd/worldd/session_account_store.go:51-99 | each enabled account's generation is the active one and a disabled account has none |
| SessionCredentials.SessionLoginRuntime.Replace | cmd/worldd/session_login.go:416-426 | the shared order of writes: every intermediate view is good and bearers leave the allow-set before the provider changes |
| SessionCredentials.SessionLoginRuntime.Draw | cmd/worldd/session_login.go:381-399 | a token not in use, if one of the first four is not |
| SessionCredentials.SessionLoginRuntime.Issue | cmd/worldd/session_login.go:355-433 | an issued bearer belongs to the current generation, is new, and the provider is exactly the live entries and this one |
| SessionCredentials.SessionLoginRuntime.Revoke | cmd/worldd/session_login.go:435-475 | removes exactly the named bearer (and the expired); an unknown one changes nothing |
| SessionCredentials.SessionLoginRuntime.ExpireAt | cmd/worldd/session_login.go:477-498 | keeps exactly the live bearers and reports a change exactly then |
| SessionCredentials.SessionLoginRuntime.Commit | cmd/worldd/session_account_store.go:251-282 | from the first published view on, every bearer of a replaced generation is fenced; the authenticator changes last |
| SessionCredentials.SessionLoginRuntime.ReloadDurableAccounts | cmd/worldd/session_account_store.go:223-289 | commits exactly a durable, newer authenticator over the revision that was read; a refusal changes nothing |
| SessionCredentials.SessionLoginRuntime.ResetFromRecovery | cmd/worldd/session_recovery.go:266-352 | success moves exactly the one account to its next credential version and leaves no bearer of an earlier generation; failure changes neither runtime nor file |
| SessionCredentials.SessionLoginRuntime.FenceIsForever | cmd/worldd/session_login.go:355-498 | in every published view of every run, a removed bearer is never usable again, and a usable one is of the generation active in that view |
| SessionCredentials.SessionLoginRuntime.HandshakeIsFenced | cmd/worldd/trusted_character_auth_runtime.go:126-142 | a handshake that resolves its bearer in one published view and looks into the allow-set in any later one gets through only with a bearer that has not been removed by then and whose generation is still active |
| RecoveryOutbox.RetryDelay | cmd/worldd/session_recovery_delivery_outbox_worker.go:221-236 | the initial delay doubled per earlier attempt, the maximum from where doubling would pass it, always within the two |
| RecoveryOutbox.RecoveryRuntime.WriteRecord | cmd/worldd/session_recovery_delivery_outbox_store.go:178-219 | only valid records are written; success is durable, failure leaves the old file or an undoable rename |
| RecoveryOutbox.RecoveryRuntime.DeleteRecord | cmd/worldd/session_recovery_delivery_outbox_store.go:221-236 | the record is gone from memory on success, and the file removed by one rename step |
| RecoveryOutbox.RecoveryRuntime.PersistChallenge | cmd/worldd/session_recovery_delivery_outbox.go:345-368 | success makes the challenge's attempt count durable in its record |
| RecoveryOutbox.RecoveryRuntime.PersistDurable | cmd/worldd/session_recovery_delivery_outbox_provider.go:128-153 | success means a durable count and a request that has not failed |
| RecoveryOutbox.RecoveryRuntime.Verify | cmd/worldd/session_recovery_provider_static.go:422-461 | a grant only for the right proof on an active, unexpired challenge with attempts left whose count is durable; nothing else grants |
| RecoveryOutbox.RecoveryRuntime.Deliver | cmd/worldd/session_recovery_delivery_outbox.go:252-328 | an accepted delivery is a pending record for exactly this challenge; an earlier failure for this id is given up only once its record has gone |
| RecoveryOutbox.RecoveryRuntime.Begin | cmd/worldd/session_recovery_provider_static.go:305-404 | a drawn id that no live challenge has, among at most four; refused if and only if every place is taken or every drawn id; the other live challenges stay, the new one starts with no attempt and becomes active only behind its durable delivery |
| RecoveryOutbox.RecoveryRuntime.PublishChallenge | cmd/worldd/session_recovery_delivery_outbox.go:330-343 | only a published pending record is handed to the worker |
| RecoveryOutbox.RecoveryRuntime.PruneExpired | cmd/worldd/session_recovery_delivery_outbox_store.go:247-267 | no unexpired record is dropped and none is changed |
| RecoveryOutbox.RecoveryRuntime.StartAttempt | cmd/worldd/session_recovery_delivery_outbox_worker.go:112-142 | sends only pending, unexpired, due records |
| RecoveryOutbox.RecoveryRuntime.FinishAttempt | cmd/worldd/session_recovery_delivery_outbox_worker.go:155-219 | the record after the transport's answer: delivered, failed, or pending with one attempt more; failed only once durable |
| RecoveryOutbox.RecoveryRuntime.Fail | cmd/worldd/session_recovery_delivery_outbox_worker.go:182-210 | the challenge is retired only behind a durable failure |
| RecoveryOutbox.RecoveryRuntime.TakeDue | cmd/worldd/session_recovery_delivery_outbox_worker.go:83-110 | at most one batch of due records, and all of them if fewer are due |
| RecoveryOutbox.RecoveryRuntime.ProcessDue | cmd/worldd/session_recovery_delivery_outbox_worker.go:83-110 | only due records are attempted, no other record changes |
| RecoveryOutbox.RecoveryRuntime.CrashAndRestart | cmd/worldd/session_recovery_delivery_outbox_store.go:19-101 | a restart over whatever a dead process or a power loss left restores exactly the unexpired records with their attempts, activity and readiness, and is durable; one that is refused restores nothing |
| RecoveryOutbox.RecoveryRuntime.AlwaysHolds | cmd/worldd/session_recovery_delivery_outbox_provider.go:33-153 | over all runs and restarts: grants per request never exceed the attempts, settled records hold no proof or destination, a failed request stays failed and never authorises until its id is drawn again or, its record gone, a delivery for it is attempted once more |
| RecoveryRoutes.KeepActiveIncreases | cmd/worldd/session_recovery_provider_reload.go:327-344 | compaction keeps the retired generations strictly increasing |
| RecoveryRoutes.ReloadableProvider.DropRoutes | cmd/worldd/session_recovery_provider_reload.go:278-287 | dropping routes drops exactly their challenges with the providers that issued them |
| RecoveryRoutes.ReloadableProvider.CompactRetiredOrder | cmd/worldd/session_recovery_provider_reload.go:327-344 | the in-place filter keeps exactly the generations that still have routes, in order |
| RecoveryRoutes.ReloadableProvider.PruneExpired | cmd/worldd/session_recovery_provider_reload.go:289-301 | keeps exactly the unexpired routes and counts the dropped ones |
| RecoveryRoutes.ReloadableProvider.Begin | cmd/worldd/session_recovery_provider_reload.go:84-116 | a new request is routed to the current provider and generation; a request id that is already routed is refused and no route changes |
| RecoveryRoutes.ReloadableProvider.Verify | cmd/worldd/session_recovery_provider_reload.go:118-151 | asks the provider that issued the request and grants exactly what it says once persisted; an expired route goes if and only if the persist has succeeded; no other challenge goes |
| RecoveryRoutes.ReloadableProvider.Consume | cmd/worldd/session_recovery_provider_reload.go:153-175 | removes exactly this route and its challenge with the issuing provider |
| RecoveryRoutes.ReloadableProvider.Replace | cmd/worldd/session_recovery_provider_reload.go:217-276 | cuts over to the next generation, keeps every live challenge of the one just replaced, and reports exactly what was retained and retired |
| RecoveryRoutes.ReloadableProvider.RetireOldest | cmd/worldd/session_recovery_provider_reload.go:313-325 | only routes of the oldest generation go, and the count is exact |
| RecoveryRoutes.ReloadableProvider.FewAreRoutable | cmd/worldd/session_recovery_provider_reload.go:217-344 | over all runs each route names the provider that issued it and at most five generations are routable |
| DeathDelivery.Outbox.Enqueue | internal/deathoutcome/outbox.go:86-118 | one event per entity and revision: repeats give the stored event, conflicting or older ones are refused, and nothing refused changes anything |
| DeathDelivery.Outbox.Confirm | internal/deathoutcome/outbox.go:134-151 | removes exactly the oldest |
| DeathDelivery.Outbox.ResetEntity | internal/deathoutcome/outbox.go:154-158 | forgets the entity's last revision, keeps its undelivered events |
| DeathDelivery.DeathJournal.Ingest | cmd/worldd/death_journal.go:14-27 | the confirmed prefix of the outbox is exactly what the journal gained, in order; as steps of the machine |
| DeathDelivery.DeathJournal.ConsumeRecord | cmd/worldd/death_journal.go:37-47 | delivers the record behind the checkpoint, then moves the checkpoint or counts one fault; as steps of the machine |
| DeathDelivery.DeathJournal.ConsumeBatch | cmd/worldd/death_journal.go:31-49 | deliveries exceed the checkpoint's progress by at most the one fault of the call; without an error and without progress nothing is left |
| DeathDelivery.DeathJournal.Recover | cmd/worldd/death_journal.go:51-67 | recovery ends; success has delivered each record behind the checkpoint once and leaves none |
| DeathDelivery.DeathJournal.Die | cmd/worldd/death_journal.go:51-67 | the process dies and the disk stays as it is, synced or not; as a step of the machine |
| DeathDelivery.DeathJournal.LosePower | internal/deathoutcome/journal.go:309-356 | the power goes: of the journal stays what is synced and any of the bytes behind it, of the checkpoint what an unsynced rename may leave; as a step of the machine |
| DeathDelivery.DeathJournal.Start | internal/deathoutcome/journal.go:277-307 | the next process starts as the machine does; it is refused only by I/O or where the machine cannot start, and then nothing changes |
| DeathDelivery.DeathJournal.AtLeastOnce | cmd/worldd/death_journal.go:31-67 | at-least-once delivery over every run of these methods |
| DeathDelivery.DeathJournal.InJournalOrder | cmd/worldd/death_journal.go:31-67 | delivery in journal order, and no start refused but by I/O, over every run of these methods whose deliveries were prudent |
| DeathDelivery.DeathJournal.InJournalOrderWhileTimely | cmd/worldd/death_journal.go:31-67 | the same with any failed calls and power losses, as long as no process starts over something another has left unsynced |
| DeathGuarantees.StepKeeps | cmd/worldd/death_journal.go:14-67 | every step of append, delivery and save, with failed calls, deaths, power losses and starts, keeps the invariant that bounds the repeats from any checkpoint a power loss may leave |
| DeathGuarantees.AtLeastOnce | cmd/worldd/death_journal.go:31-67 | over all runs: every id up to the greatest one seen has been seen, none before the ids below it, and at most one call per given-up delivery or ended process was a repeat |
| DeathGuarantees.PrudentStepKeeps | cmd/worldd/death_journal.go:14-67 | every step with a prudent delivery keeps: the consumer has seen the journal in order and only synced records, and no checkpoint trails it by more than one |
| DeathGuarantees.InJournalOrder | cmd/worldd/death_journal.go:31-67 | over every prudent run the consumer has seen the journal's own records in order, none skipped, all of them durable, and the next process can start |
| DeathGuarantees.SteadyStep | cmd/worldd/death_journal.go:14-67 | where no process starts over something unsynced every delivery is prudent, whatever calls fail |
| DeathGuarantees.InJournalOrderWhileTimely | cmd/worldd/death_journal.go:31-67 | over every such run, with any failed calls and power losses, the consumer sees the journal in order, none skipped |
| DeathGuarantees.FindsSynced | internal/deathoutcome/journal.go:444-493 | a start over any cut of the file behind the synced bytes finds every synced record again and keeps it synced |
| DeathGuarantees.AnchoredExactlyWhen | internal/deathoutcome/journal.go:309-356 | no power loss takes the checkpoint below the one in memory, if and only if it is synced or the record behind it has been delivered before |
| DeathLimits.MayGoBackExactlyWhen | internal/deathoutcome/journal.go:309-356 | behind a prudent delivery a power loss may make the consumer see an earlier record, if and only if the one delivered was new to it and the checkpoint before it is not synced |
| DeathLimits.MayMissExactlyWhen | internal/deathoutcome/journal.go:444-493 | a power loss may leave the journal without a record if and only if the record is not synced |
| DeathLimits.SeenAgain | cmd/worldd/death_journal.go:31-49 | no failed call: two processes die between the rename of a checkpoint and its sync, a power loss takes both, and the consumer sees two records and then the first again |
| DeathLimits.SeenAndGone | internal/deathoutcome/journal.go:188-236 | no failed call: a process dies between the write and the sync of a frame, the next one delivers it, a power loss takes it, and the journal does not have the record |
| DeathLimits.OneIdForTwo | internal/deathoutcome/journal.go:188-236 | the next event then gets its id, and the consumer sees two records with one id |
| DeathLimits.AheadForGood | internal/deathoutcome/journal.go:380-395 | if the checkpoint got over that record and was synced, it is ahead of the journal and every start fails |
| DeathLimits.SeenAgainIsReachable | cmd/worldd/death_journal.go:31-49 | the first of these runs from a new journal with any two events |
| DeathLimits.SeenAndGoneIsReachable | cmd/worldd/death_journal.go:31-49 | the second from a new journal with any event |
| Inventories.Inventory.Add | internal/inventory/inventory.go:110-124 | succeeds exactly when there is room by entries, quantity and weight; the stack grows by exactly that; the running weight stays the summed weight |
| Inventories.Inventory.Remove | internal/inventory/inventory.go:126-140 | succeeds exactly when that many are there; an emptied stack disappears |
| Inventories.Inventory.StacksAfterExchange | internal/inventory/inventory.go:157-176 | the look for room accepts exactly what fits once the removed quantity is gone, same archetype included |
| Inventories.Inventory.Exchange | internal/inventory/inventory.go:142-181 | one archetype leaves and another arrives, or nothing changes; exactly when it is there and the other fits |
| Inventories.Exchanged | internal/inventory/inventory.go:142-181 | an exchange keeps the inventory sound and moves the weight by the difference |
| Inventories.Inventory.Equip | internal/inventory/inventory.go:183-196 | succeeds exactly for a free valid slot and a stacked archetype, and moves one item |
| Inventories.DonningConserves | internal/inventory/inventory.go:183-196 | putting on keeps soundness, weight and the number of every archetype |
| Inventories.Inventory.Unequip | internal/inventory/inventory.go:198-212 | succeeds exactly for a worn archetype that finds room, and moves it back |
| Inventories.DoffingConserves | internal/inventory/inventory.go:198-212 | taking off keeps soundness, weight and the number of every archetype |
| Inventories.DoffingUndoesDonning | internal/inventory/inventory.go:183-212 | taking off what was put on gives back the same contents |
| Inventories.Inventory.AddInstance | internal/inventory/instance.go:17-30 | succeeds exactly for a well-formed unknown id that fits; ids stay unique over carried and worn |
| Inventories.Inventory.RemoveInstance | internal/inventory/instance.go:40-52 | removes exactly the carried instance and its weight |
| Inventories.Inventory.EquipInstance | internal/inventory/instance.go:87-98 | succeeds exactly for a free valid slot and a carried instance, and moves it |
| Inventories.InstanceDonningConserves | internal/inventory/instance.go:87-98 | keeps soundness, weight and the set of instances |
| Inventories.Inventory.UnequipInstance | internal/inventory/instance.go:100-112 | succeeds exactly for a worn instance while an entry is free, and moves it back |
| Inventories.InstanceDoffingConserves | internal/inventory/instance.go:100-112 | keeps soundness, weight and the set of instances |
| LoginLimiter.AtMostTwiceLessOne | cmd/worldd/session_login_abuse.go:40-84 | any interval of one window's length holds at most twice the limit less one passes of a source |
| LoginLimiter.LetIn | cmd/worldd/session_login_abuse.go:52-83 | letting a source in keeps its passes in disjoint windows of at most the limit, each opened by a pass |
| LoginLimiter.AllEvicted | cmd/worldd/session_login_abuse.go:72-78 | evicting expired entries loses nothing the limit depends on |
| LoginLimiter.SessionLoginAbuseGuard.EvictExpired | cmd/worldd/session_login_abuse.go:72-78 | the loop keeps exactly the unexpired entries |
| LoginLimiter.SessionLoginAbuseGuard.Admit | cmd/worldd/session_login_abuse.go:52-83 | opens a window or counts one more in it, for this source only |
| LoginLimiter.SessionLoginAbuseGuard.Allow | cmd/worldd/session_login_abuse.go:40-84 | the decision, the waiting time and the whole new table in every branch |
| LoginLimiter.SessionLoginAbuseGuard.NeverTooMany | cmd/worldd/session_login_abuse.go:40-84 | over all runs with a non-decreasing clock, eviction included: at most the limit per window, at most twice that less one in any interval of one window, and never more tracked sources than allowed |
| SlowTicks.InsertGoes | cmd/loadserver/slow_ticks.go:206-211 | an insertion goes behind everything at least as slow and ahead of everything faster |
| SlowTicks.SlowestFirstSorts | cmd/loadserver/slow_ticks.go:194-211 | the reference order is a stable sort: a permutation, slowest first, equal durations in arrival order |
| SlowTicks.KeptAreTheSlowest | cmd/loadserver/slow_ticks.go:194-204 | kept and dropped make up the history, as many are kept as fit, and nothing dropped is slower than anything kept |
| SlowTicks.OneMore | cmd/loadserver/slow_ticks.go:194-204 | the bounded list alone decides what one more tick does to the start of the sorted history |
| SlowTicks.SlowTickCollector.Record | cmd/loadserver/slow_ticks.go:108-204 | after every tick the list is the start of the stably sorted history since the last reset |
| SlowTicks.SlowTickCollector.Promote | cmd/loadserver/slow_ticks.go:206-211 | the swapping loop inserts the last tick into the sorted rest |
| SlowTicks.SlowTickCollector.Finish | cmd/loadserver/slow_ticks.go:213-221 | the report is that list |
| ActionProgress.ProgressSaturates | internal/character/service.go:226-257 | one gain adds to current times threshold plus progress and stops at the maximum; nothing else changes and the 32-bit cut loses nothing |
| ActionProgress.RunSaturates | internal/character/service.go:226-257 | any sequence of gains ends at the minimum of start plus sum and the ceiling |
| ActionProgress.SplitMakesNoDifference | internal/character/service.go:226-257 | two sequences of gains with the same sum end in the same state |
| ActionProgress.ProgressKeepsValid | internal/character/service.go:129-160 | a gain of progress keeps a valid state valid |
| ActionProgress.FillingKeepsValidExactlyWhen | internal/character/service.go:181-202 | gaining whole units keeps a valid state valid if and only if it does not fill a resource with progress under way |
| ActionProgress.FillingCanBreakAState | internal/character/service.go:181-202 | a valid state and a gain of one unit after which validation would refuse it |
| ActionProgress.Service.RegisterState | internal/character/service.go:82-160 | takes exactly new ids whose normalised state is valid, and stores that state |
| ActionProgress.Service.GainActionResourceProgress | internal/character/service.go:226-257 | who may gain, each error, the saturated result and whether a unit became visible; all other characters stay |

## Left out

- Journals.Journal.Append: the truncation of a leftover tail is taken as immediate and durable; that a power loss may bring truncated bytes back is not modelled.
- SaveMachine.StepKeeps: asks of three kinds of step the guards of `Prudent` (a synced record before it is stored, a synced store directory before the checkpoint moves, a synced checkpoint before a record is written); each guard is shown exact in `save_limits.dfy`, and none is needed without a power loss.
- SaveMachine.RunKeeps: has the same guards.
- SaveMachine.PathKeeps: has the same guards.
- SaveMachine.ExactlyOnce: has the same guards; `ExactlyOnceUnderPowerLosses` and `ExactlyOnceWhileTimely` say which runs meet them.
- SaveMachine.NothingTakenIsLost: has the same guards, and the same two lemmas.
- SaveMachine.RecoveryCompletes: starts from what a power loss leaves; `RecoveryCompletesWhileTimely` starts behind any timely run, and `RecoveryCompletesWithoutPowerLoss` starts from what dead processes leave, and then what it reaches may still be undone by a power loss.
- SavePersistence.CharacterStatePersistence.Guaranteed: has the same guards (met as `PrudentUnlessASaveFails` says); intents enqueued while a batch is under way are steps of the machine at every stage, but do not interleave inside the body of a method.
- SavePersistence.CharacterStatePersistence.LoadRestore: the check of the restored character against the running world is a nondeterministic refusal.
- DeathDelivery.DeathJournal.InJournalOrder: is about runs whose deliveries were prudent; `InJournalOrderWhileTimely` says when they are. `AtLeastOnce` is about all runs but speaks of ids, since a power loss may give a lost id to another event.
- DeathDelivery.DeathJournal.LosePower: is a step of its own behind the death of the process, not at once with it.
- SaveDeployment.FoundIsFine: is about a journal that ends with a whole frame and is synced; a torn frame of an earlier schema behind it is left out.
- DeathDelivery.Outbox.Enqueue: the validation of an event's body is one opaque predicate.
- Journals.Journal.Open: the creation of the journal file is one step; a partial header simply fails to open.
- Journals.CheckpointStore.Save: on Windows the directory sync does nothing; the model is of the other platforms.
- Framing.ReadWholeFrame: the checksum is any function of the payload, so what a checksum misses in a damaged frame is not modelled.
- RevocationRollout.LoadPlan: path resolution and cleaning, and the parsing of times, are done before; members keep their order.
- RevocationRollout.Preflight: the checks of directories and file kinds are not modelled.
- RevocationRollout.PublishRollout: pairs are written in some order rather than in sorted order, and the list of published instances in its report is left out.
- RevocationRollout.WaitForAcks: takes what each turn reads as a sequence of observations; the formatting of the evidence is left out.
- RevocationInstance.LeafRevocation.ReloadDistributed: the connection registry that is told about newly revoked credentials is not modelled.
- SessionCredentials.SessionLoginRuntime.ResetFromRecovery: the recovery grants a reset removes from the account file are not modelled; the save of the account file is one atomic step; a process that dies between that save and the in-memory commit simply restarts with the new accounts and no bearers.
- SessionCredentials.SessionLoginRuntime.Issue: tokens come from a parameter and are never repeated; password hashing and the HTTP handlers are left out.
- RecoveryOutbox.RecoveryRuntime.Verify: the verification and the persist behind it are one step, so two concurrent verifications of one request are not modelled; one provider owns all challenges.
- RecoveryOutbox.RecoveryRuntime.Begin: cancellation of the caller's context and the length check of the drawn id are left out.
- RecoveryOutbox.RecoveryRuntime.WriteRecord: the length and character checks of tokens are left out of record validation.
- RecoveryRoutes.ReloadableProvider.Replace: the generation counter is unbounded.
- Inventories.Inventory.Add: unit weights are given per trimmed archetype; the constructor's trimming of the weight table is left out, and a missing inventory (nil) is not modelled.
- LoginLimiter.SessionLoginAbuseGuard.Allow: takes the source address already parsed; an unparsable address is the empty source.
- SlowTicks.SlowTickCollector.Record: the combat and fairness counters beside the list are left out; durations are real numbers.
- ActionProgress.Service.RegisterState: the primary attributes and their validation are left out.
- JSON, SHA-256, CRC-32C, Argon2, HMAC and TLS are opaque; file permissions, symbolic links and temporary names are left out.
- HTTP handlers, flags, logging, timers and the network and filesystem delivery adapters are left out; a transport answer is nondeterministic.
- Reconfiguration of a running delivery transport, TLS reload and the metadata endpoints are left out.
- The skill catalog, skins and retired class ids enter the snapshot validation as parameters.
- World simulation, combat, navigation and the remaining operations of the character service are left out.
