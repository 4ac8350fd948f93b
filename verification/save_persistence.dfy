/** The coordinator of the save pipeline and the objects it works on. Every method is shown to be a run
    of the step machine, so what holds of all runs holds of the code, wherever it is interrupted. */
module SavePersistence {
  import opened Outcomes
  import opened Framing
  import opened Journals
  import opened Snapshots
  import opened SaveMachine
  import SaveProcessDeaths
  import SavePowerLosses
  import InventoryStates

  datatype SaveError =
    | IdentityNotDurable | InvalidSnapshot | OutboxFull | IntentOverflow | UnknownIntent | ConfirmOutOfOrder
    | StoreFailed | RevisionConflict | RevisionOverflow | JournalFailed(error: JournalError) | NoProgress | RestoreRefused

  const DRAIN_BATCH: nat := 64

  /** The bounded FIFO of save intents. */
  class Outbox {
    const capacity: nat
    var nextIntentId: nat
    var pending: seq<Intent>

    ghost predicate Valid()
      reads this
    {
      && |pending| <= capacity && |pending| <= nextIntentId <= MAX_UINT64
      && forall k :: 0 <= k < |pending| ==> pending[k].intentId == nextIntentId - |pending| + 1 + k
    }

    constructor (capacity: nat)
      ensures Valid() && this.capacity == capacity && pending == [] && nextIntentId == 0
    {
      this.capacity, nextIntentId, pending := capacity, 0, [];
    }

    method Enqueue(c: Catalog, identity: Identity, snapshot: Snapshot) returns (r: Result<Intent, SaveError>)
      requires Valid()
      modifies this
      ensures Valid()
      ensures r.Ok? <==> Durable(identity) && ValidV9(c, snapshot) && |old(pending)| < capacity && old(nextIntentId) < MAX_UINT64
      ensures r.Ok? ==> r.value == Intent(old(nextIntentId) + 1, identity, snapshot) && pending == old(pending) + [r.value]
                        && nextIntentId == old(nextIntentId) + 1
      ensures r.Err? ==> pending == old(pending) && nextIntentId == old(nextIntentId)
    {
      if !Durable(identity) { return Err(IdentityNotDurable); }
      if !ValidV9(c, snapshot) { return Err(InvalidSnapshot); }
      if |pending| >= capacity { return Err(OutboxFull); }
      if nextIntentId == MAX_UINT64 { return Err(IntentOverflow); }
      nextIntentId := nextIntentId + 1;
      var intent := Intent(nextIntentId, identity, snapshot);
      pending := pending + [intent];
      return Ok(intent);
    }

    method Pending(limit: int) returns (out: seq<Intent>)
      ensures out <= pending
      ensures |out| == if 0 < limit < |pending| then limit else |pending|
    {
      var count := |pending|;
      if 0 < limit < count { count := limit; }
      return pending[..count];
    }

    /** Only the head can be confirmed. */
    method Confirm(intentId: nat) returns (fault: Option<SaveError>)
      requires Valid()
      modifies this`pending
      ensures Valid()
      ensures fault == None <==> old(pending) != [] && old(pending)[0].intentId == intentId
      ensures fault == None ==> pending == old(pending)[1..]
      ensures fault.Some? ==>
                && pending == old(pending)
                && (fault == Some(ConfirmOutOfOrder) <==> exists k :: 0 < k < |pending| && pending[k].intentId == intentId)
    {
      if pending == [] { return Some(UnknownIntent); }
      if pending[0].intentId != intentId {
        for k := 0 to |pending|
          invariant forall j :: 0 <= j < k ==> pending[j].intentId != intentId
        {
          if pending[k].intentId == intentId { return Some(ConfirmOutOfOrder); }
        }
        return Some(UnknownIntent);
      }
      pending := pending[1..];
      return None;
    }
  }

  /** The store directory: one file per character, replaced by rename. `savable` is `Snapshots.Savable`:
      the snapshot that is stored, or `None` if validation refuses it. */
  class CharacterStore {
    const savable: Snapshot -> Option<Snapshot>
    var files: Store

    constructor (savable: Snapshot -> Option<Snapshot>, files: Store)
      ensures this.savable == savable && this.files == files
    {
      this.savable, this.files := savable, files;
    }

    method Load(identity: Identity) returns (r: Result<Option<StoreRecord>, SaveError>)
      ensures r.Ok? ==> Durable(identity) && r.value == At(files, identity.id).visible
      ensures r.Err? ==> r.error in {IdentityNotDurable, StoreFailed}
    {
      if !Durable(identity) { return Err(IdentityNotDurable); }
      var readFails: bool := *;
      if readFails { return Err(StoreFailed); }
      return Ok(At(files, identity.id).visible);
    }

    /** The store with the record of revision `expected + 1` renamed into place. */
    ghost function WithRenamed(id: string, expected: nat, snapshot: Snapshot): Store
      reads this
    {
      files[id := At(files, id).Rename(Some(StoreRecord(expected + 1, snapshot)))]
    }

    /** Compare-and-swap on the revision. A failure behind the rename leaves the new version visible. */
    method Save(identity: Identity, expected: nat, snapshot: Snapshot) returns (r: Result<StoreRecord, SaveError>)
      modifies this
      ensures r.Ok? ==>
                && savable(snapshot).Some? && Revision(old(At(files, identity.id).visible)) == expected
                && r.value == StoreRecord(expected + 1, savable(snapshot).value)
                && files == SyncAll(old(WithRenamed(identity.id, expected, savable(snapshot).value)))
      ensures r.Err? ==>
                || files == old(files)
                || (r.error == StoreFailed && savable(snapshot).Some? && Revision(old(At(files, identity.id).visible)) == expected
                    && files == old(WithRenamed(identity.id, expected, savable(snapshot).value)))
      ensures r == Err(RevisionConflict) ==> Revision(old(At(files, identity.id).visible)) != expected
    {
      if !Durable(identity) { return Err(IdentityNotDurable); }
      var stored := savable(snapshot);
      if stored == None { return Err(InvalidSnapshot); }
      var current := Load(identity);
      if current.Err? { return Err(current.error); }
      if Revision(current.value) != expected { return Err(RevisionConflict); }
      if expected == MAX_UINT64 { return Err(RevisionOverflow); }
      var record := StoreRecord(expected + 1, stored.value);
      var writeFails: bool := *;
      if writeFails { return Err(StoreFailed); }
      files := files[identity.id := At(files, identity.id).Rename(Some(record))];
      var syncFails: bool := *;
      if syncFails { return Err(StoreFailed); }
      files := SyncAll(files);
      return Ok(record);
    }
  }

  class CharacterStatePersistence {
    const cfg: Config
    const outbox: Outbox
    const journal: Journal<Command>
    const checkpointStore: CheckpointStore
    const store: CharacterStore
    var checkpoint: Checkpoint
    ghost var path: seq<State>     // the machine states this process went through
    ghost var trace: seq<Action>   // the steps between them

    ghost function Now(): State
      reads this
      requires path != []
    {
      path[|path| - 1]
    }

    /** The machine state these objects are in. */
    ghost function View(): State
      reads this, outbox, journal, checkpointStore, store
      requires path != []
    {
      State(true, Now().stage, outbox.pending, Now().session, Now().booted,
            journal.entries, journal.recordEnds, journal.endOffset, checkpoint,
            journal.file, Now().synced, checkpointStore.saved, store.files)
    }

    /** The states and steps recorded so far are a run of the machine in which this process lives. */
    ghost predicate Recorded()
      reads this
    {
      path != [] && Path(cfg, path, trace) && Lived(trace)
    }

    ghost predicate Wired()
      reads outbox, journal
    {
      && Sound(cfg) && journal.Valid() && outbox.Valid()
      && cfg.codec == journal.codec && cfg.header == journal.header && cfg.journalId == journal.JournalId()
      && outbox.capacity == cfg.capacity
      && (forall s :: store.savable(s).Some? ==> cfg.stored(s) == store.savable(s).value)
    }

    ghost predicate Valid()
      reads this, outbox, journal, checkpointStore, store
    {
      && Wired()
      && CheckpointFault(journal.View(), checkpoint) == None
      && Recorded() && Now() == View()
      && outbox.nextIntentId == |Now().session|
    }

    constructor (cfg: Config, outbox: Outbox, journal: Journal<Command>, checkpointStore: CheckpointStore,
                 checkpoint: Checkpoint, store: CharacterStore, ghost synced: nat)
      requires Sound(cfg) && journal.Valid() && outbox.Valid() && outbox.nextIntentId == 0
      requires cfg.codec == journal.codec && cfg.header == journal.header && cfg.journalId == journal.JournalId()
      requires outbox.capacity == cfg.capacity && CheckpointFault(journal.View(), checkpoint) == None
      requires forall s :: store.savable(s).Some? ==> cfg.stored(s) == store.savable(s).value
      ensures Valid() && Now().stage.Idle? && trace == [] && Now().booted == |journal.entries| && Now().synced == synced
      ensures this.outbox == outbox && this.journal == journal && this.checkpointStore == checkpointStore && this.store == store
      ensures this.cfg == cfg && this.checkpoint == checkpoint
    {
      this.cfg, this.outbox, this.journal, this.checkpointStore, this.store := cfg, outbox, journal, checkpointStore, store;
      this.checkpoint, trace := checkpoint, [];
      path := [State(true, Idle, outbox.pending, [], |journal.entries|, journal.entries, journal.recordEnds, journal.endOffset,
                     checkpoint, journal.file, synced, checkpointStore.saved, store.files)];
    }

    /** The objects have taken one more step of the machine. */
    ghost method Note(a: Action, next: State)
      requires Recorded() && Moves(cfg, Now(), a, next) && !a.Die? && !a.Crash?
      modifies this`trace, this`path
      ensures path == old(path) + [next] && Now() == next && Recorded() && old(path) <= path
    {
      PathOn(cfg, path, trace, a, next);
      path, trace := path + [next], trace + [a];
    }

    /** The record the coordinator is at, as the journal hands it out. */
    ghost predicate IsCurrent(record: Record<Command>)
      reads this, outbox, journal, checkpointStore, store
      requires path != [] && HasCurrent(View())
    {
      && checkpoint.recordId < |journal.recordEnds|
      && record == Record(journal.entries[checkpoint.recordId], journal.recordEnds[checkpoint.recordId])
    }

    /** Somewhere on the way the record to apply was neither due nor applied. */
    ghost predicate Conflicted()
      reads this
    {
      exists k :: 0 <= k < |path| && path[k].up && Conflict(path[k])
    }

    /** A call gives up; what it already did stays. */
    ghost method GiveUp()
      requires Valid() && !Now().stage.Journaled?
      modifies this`trace, this`path
      ensures Valid() && old(path) <= path && Now() == old(Now()).(stage := Idle) && path == old(path) + [Now()]
    {
      Note(Fail, Now().(stage := Idle));
    }

    /** The store after the rename of this record, as the machine sees it. */
    method SaveToStore(record: Record<Command>) returns (fault: Option<SaveError>, ghost renamed: bool)
      requires Valid() && SaveApplies(Now()) && IsCurrent(record)
      modifies store
      ensures fault == None ==> renamed && store.files == SyncAll(Renaming(cfg, Now()))
      ensures fault.Some? ==> fault != Some(RevisionConflict) && store.files == if renamed then Renaming(cfg, Now()) else Now().store
    {
      var intent := record.entry.body.intent;
      var saved := store.Save(intent.identity, record.entry.body.expectedRevision, intent.snapshot);
      renamed := saved.Ok? || store.files != Now().store;
      fault := if saved.Ok? then None else Some(saved.error);
    }

    ghost method NoteSave(renamed: bool, ok: bool)
      requires Recorded() && (ok ==> renamed)
      requires Now().up && Now().stage.Applying? && SaveApplies(Now())
      modifies this`trace, this`path
      ensures Recorded() && old(path) <= path
      ensures var s := old(Now());
              Now() == s.(stage := if ok then Applied else Idle,
                          store := if ok then SyncAll(Renaming(cfg, s)) else if renamed then Renaming(cfg, s) else s.store)
    {
      var s := Now();
      if renamed { Note(StoreRename, s.(store := Renaming(cfg, s), stage := Renamed)); }
      if ok { Note(StoreSync, s.(store := SyncAll(Renaming(cfg, s)), stage := Applied)); } else { Note(Fail, Now().(stage := Idle)); }
    }

    /** The `store.Save` of the record. */
    method SaveRecord(record: Record<Command>) returns (fault: Option<SaveError>)
      requires Valid() && Now().stage.Applying? && SaveApplies(Now()) && IsCurrent(record)
      modifies this`trace, this`path, store
      ensures Valid() && old(path) <= path
      ensures if fault == None then Now().stage.Applied? else Now().stage.Idle? && fault != Some(RevisionConflict)
    {
      ghost var renamed;
      fault, renamed := SaveToStore(record);
      NoteSave(renamed, fault == None);
    }

    /** `applyCharacterStateJournalRecord`. */
    method Apply(record: Record<Command>) returns (fault: Option<SaveError>)
      requires Valid() && Now().stage.Applying? && HasCurrent(Now()) && IsCurrent(record)
      modifies this`trace, this`path, store
      ensures Valid() && old(path) <= path
      ensures if fault == None then Now().stage.Applied? else Now().stage.Idle?
      ensures fault == Some(RevisionConflict) ==> Conflicted()
    {
      var intent, expected := record.entry.body.intent, record.entry.body.expectedRevision;
      var current := store.Load(intent.identity);
      if current.Err? {
        GiveUp();
        return Some(current.error);
      }
      if Revision(current.value) == expected {
        fault := SaveRecord(record);
        return;
      }
      if current.value.Some? && current.value.value == StoreRecord(expected + 1, intent.snapshot) {
        Note(Skip, Now().(stage := Applied));
        return None;
      }
      ghost var s := Now();
      GiveUp();
      assert path[|path| - 2] == s;
      return Some(RevisionConflict);
    }

    ghost function NextCheckpoint(): Checkpoint
      reads this, journal
      requires |journal.header| >= |journal.magic| && checkpoint.recordId < |journal.recordEnds|
    {
      CheckpointAt(journal.View(), checkpoint.recordId + 1)
    }

    method SaveCheckpoint(record: Record<Command>) returns (next: Result<Checkpoint, JournalError>, ghost renamed: bool)
      requires Valid() && HasCurrent(Now()) && IsCurrent(record)
      modifies checkpointStore
      ensures next.Ok? ==> renamed && next.value == NextCheckpoint()
      ensures var cell := Now().saved.Rename(Some(NextCheckpoint()));
              checkpointStore.saved == if next.Ok? then cell.Sync() else if renamed then cell else Now().saved
    {
      ReadsRecord(journal.codec, journal.file, journal.endOffset, |journal.header|, journal.entries, journal.recordEnds, checkpoint.recordId);
      next := checkpointStore.Save(journal, record);
      renamed := next.Ok? || checkpointStore.saved != Now().saved;
    }

    ghost method NoteCheckpoint(renamed: bool, ok: bool)
      requires Recorded() && (ok ==> renamed)
      requires Now().up && Now().stage.Applied? && HasCurrent(Now()) && |Now().log| == |Now().ends|
      modifies this`trace, this`path
      ensures Recorded() && old(path) <= path
      ensures var s := old(Now());
              var c := CheckpointAt(SaveMachine.View(cfg, s), s.checkpoint.recordId + 1);
              var cell := s.saved.Rename(Some(c));
              Now() == s.(stage := Idle, saved := if ok then cell.Sync() else if renamed then cell else s.saved,
                          checkpoint := if ok then c else s.checkpoint)
    {
      var s := Now();
      var c := CheckpointAt(SaveMachine.View(cfg, s), s.checkpoint.recordId + 1);
      var cell := s.saved.Rename(Some(c));
      if renamed { Note(CheckpointRename, s.(saved := cell, stage := Saving)); }
      if ok { Note(CheckpointSync, s.(saved := cell.Sync(), checkpoint := c, stage := Idle)); } else { Note(Fail, Now().(stage := Idle)); }
    }

    /** `checkpointStore.Save` and the move of the checkpoint in memory. */
    method MoveCheckpoint(record: Record<Command>) returns (fault: Option<SaveError>)
      requires Valid() && Now().stage.Applied? && HasCurrent(Now()) && IsCurrent(record)
      modifies this`trace, this`path, this`checkpoint, checkpointStore
      ensures Valid() && old(path) <= path && Now().stage.Idle?
      ensures checkpoint.recordId == old(checkpoint).recordId + if fault == None then 1 else 0
      ensures fault.Some? ==> fault.value.JournalFailed?
    {
      ghost var renamed;
      var next: Result<Checkpoint, JournalError>;
      next, renamed := SaveCheckpoint(record);
      NoteCheckpoint(renamed, next.Ok?);
      if next.Ok? { checkpoint := next.value; }
      assert Now() == View();
      fault := if next.Ok? then None else Some(JournalFailed(next.error));
    }

    /** One turn of the loop below. */
    method ConsumeRecord(record: Record<Command>) returns (fault: Option<SaveError>)
      requires Valid() && Now().stage.Idle? && HasCurrent(Now()) && IsCurrent(record)
      modifies this`trace, this`path, this`checkpoint, checkpointStore, store
      ensures Valid() && old(path) <= path && Now().stage.Idle?
      ensures checkpoint.recordId == old(checkpoint).recordId + if fault == None then 1 else 0
      ensures fault == Some(RevisionConflict) ==> Conflicted()
    {
      Note(Fetch, Now().(stage := Applying));
      fault := Apply(record);
      if fault.Some? { return; }
      fault := MoveCheckpoint(record);
    }

    /** `consumeCharacterStateJournalBatch`. */
    method ConsumeBatch() returns (processed: nat, fault: Option<SaveError>)
      requires Valid() && Now().stage.Idle?
      modifies this`trace, this`path, this`checkpoint, checkpointStore, store
      ensures Valid() && old(path) <= path && Now().stage.Idle?
      ensures checkpoint.recordId == old(checkpoint).recordId + processed
      ensures fault == None && processed == 0 ==> CaughtUp(Now())
      ensures fault == Some(RevisionConflict) ==> Conflicted()
    {
      var batch := journal.RecordsAfter(checkpoint, DRAIN_BATCH);
      if batch.Err? { return 0, Some(JournalFailed(batch.error)); }
      processed, fault := ConsumeRecords(batch.value);
    }

    /** Its loop. */
    method ConsumeRecords(records: seq<Record<Command>>) returns (processed: nat, fault: Option<SaveError>)
      requires Valid() && Now().stage.Idle? && journal.IsSlice(records, checkpoint.recordId)
      modifies this`trace, this`path, this`checkpoint, checkpointStore, store
      ensures Valid() && old(path) <= path && Now().stage.Idle?
      ensures processed <= |records| && checkpoint.recordId == old(checkpoint).recordId + processed
      ensures fault == None ==> processed == |records|
      ensures fault == Some(RevisionConflict) ==> Conflicted()
    {
      processed, fault := 0, None;
      ghost var first := checkpoint.recordId;
      while processed < |records| && fault == None
        invariant Valid() && old(path) <= path && Now().stage.Idle?
        invariant processed <= |records| && checkpoint.recordId == first + processed
        invariant fault == Some(RevisionConflict) ==> Conflicted()
        decreases |records| - processed, if fault == None then 1 else 0
      {
        fault := ConsumeRecord(records[processed]);
        if fault == None { processed := processed + 1; }
      }
    }

    /** `drainCharacterStateJournal`: nothing is left behind the checkpoint when it succeeds. */
    method Drain() returns (fault: Option<SaveError>)
      requires Valid() && Now().stage.Idle?
      modifies this`trace, this`path, this`checkpoint, checkpointStore, store
      ensures Valid() && old(path) <= path && Now().stage.Idle?
      ensures fault == None ==> CaughtUp(Now())
      ensures fault == Some(RevisionConflict) ==> Conflicted()
    {
      while true
        invariant Valid() && old(path) <= path && Now().stage.Idle?
        decreases |journal.entries| - checkpoint.recordId
      {
        var processed: nat;
        processed, fault := ConsumeBatch();
        if fault.Some? || processed == 0 { return; }
      }
    }

    /** What an append leaves in the file: nothing new, only the removal of an old tail, or that and the
        first `cut` bytes of the frame of the outbox head. */
    ghost predicate Leaves(s: State, dropped: bool, written: bool, cut: nat, file: seq<byte>) {
      && Sound(cfg) && s.outbox != [] && s.endOffset <= |s.file| && (written ==> dropped)
      && (written ==> |s.log| < MAX_UINT64 && Encodable(cfg.codec, NextEntry(s)) && cut <= |Frame(cfg.codec, NextEntry(s))|)
      && file == if written then s.file[..s.endOffset] + Frame(cfg.codec, NextEntry(s))[..cut]
                 else if dropped then s.file[..s.endOffset] else s.file
    }

    ghost predicate WroteAll(s: State, written: bool, cut: nat) {
      && written && Sound(cfg) && s.outbox != [] && Encodable(cfg.codec, NextEntry(s))
      && cut == |Frame(cfg.codec, NextEntry(s))|
    }

    lemma WhatIsLeft(s: State, file: seq<byte>) returns (dropped: bool, written: bool, cut: nat)
      requires Sound(cfg) && s.outbox != [] && s.endOffset <= |s.file|
      requires || file == s.file || file == s.file[..s.endOffset]
               || (|s.log| < MAX_UINT64 && Encodable(cfg.codec, NextEntry(s))
                   && exists n :: 0 <= n <= |Frame(cfg.codec, NextEntry(s))| && file == s.file[..s.endOffset] + Frame(cfg.codec, NextEntry(s))[..n])
      ensures Leaves(s, dropped, written, cut, file)
    {
      if file == s.file { return false, false, 0; }
      if file == s.file[..s.endOffset] { return true, false, 0; }
      cut :| 0 <= cut <= |Frame(cfg.codec, NextEntry(s))| && file == s.file[..s.endOffset] + Frame(cfg.codec, NextEntry(s))[..cut];
      return true, true, cut;
    }

    lemma WholeIsLeft(s: State, file: seq<byte>) returns (cut: nat)
      requires Sound(cfg) && s.outbox != [] && s.endOffset <= |s.file| && |s.log| < MAX_UINT64
      requires Encodable(cfg.codec, NextEntry(s)) && file == s.file[..s.endOffset] + Frame(cfg.codec, NextEntry(s))
      ensures Leaves(s, true, true, cut, file) && WroteAll(s, true, cut)
    {
      cut := |Frame(cfg.codec, NextEntry(s))|;
      assert Frame(cfg.codec, NextEntry(s))[..cut] == Frame(cfg.codec, NextEntry(s));
    }

    /** What the journal looks like behind an append of the outbox head, and how that came about. */
    ghost predicate Appended(s: State, record: Option<Record<Command>>, dropped: bool, written: bool, cut: nat)
      reads this, journal
    {
      && journal.Valid() && Leaves(s, dropped, written, cut, journal.file)
      && match record
         case Some(record) =>
           && WroteAll(s, written, cut)
           && journal.entries == s.log + [NextEntry(s)] && journal.recordEnds == s.ends + [|journal.file|]
           && journal.endOffset == |journal.file| && record == Record(NextEntry(s), |journal.file|)
         case None => journal.entries == s.log && journal.recordEnds == s.ends && journal.endOffset == s.endOffset
    }

    /** `journal.Append` of the command for the outbox head. */
    method AppendCommand(command: Command) returns (r: Result<Record<Command>, JournalError>, ghost dropped: bool, ghost written: bool, ghost cut: nat)
      requires Valid() && Now().stage.Idle? && CaughtUp(Now()) && outbox.pending != []
      requires NextEntry(Now()) == Entry(journal.lastRecordId + 1, command)
      modifies journal
      ensures Appended(Now(), if r.Ok? then Some(r.value) else None, dropped, written, cut)
    {
      ghost var s := Now();
      r := journal.Append(command);
      if r.Err? {
        dropped, written, cut := WhatIsLeft(s, journal.file);
      } else {
        dropped, written := true, true;
        cut := WholeIsLeft(s, journal.file);
      }
    }

    /** The outbox head goes to the journal, against the revision the store holds. */
    method AppendHead() returns (r: Result<Record<Command>, SaveError>, ghost dropped: bool, ghost written: bool, ghost cut: nat)
      requires Valid() && Now().stage.Idle? && CaughtUp(Now()) && outbox.pending != []
      modifies journal
      ensures Appended(Now(), if r.Ok? then Some(r.value) else None, dropped, written, cut) && r != Err(RevisionConflict)
    {
      var intents := outbox.Pending(1);
      var current := store.Load(intents[0].identity);
      if current.Err? {
        return Err(current.error), false, false, 0;
      }
      var appended;
      appended, dropped, written, cut := AppendCommand(Command(Revision(current.value), intents[0]));
      r := if appended.Ok? then Ok(appended.value) else Err(JournalFailed(appended.error));
    }

    ghost method NoteAppend(dropped: bool, written: bool, cut: nat, ok: bool, file: seq<byte>)
      requires Recorded()
      requires Now().up && Now().stage.Idle? && CaughtUp(Now())
      requires Leaves(Now(), dropped, written, cut, file) && (ok ==> WroteAll(Now(), written, cut))
      modifies this`trace, this`path
      ensures Recorded() && old(path) <= path
      ensures var s := old(Now());
              Now() == if ok
                then s.(file := file, log := s.log + [NextEntry(s)], ends := s.ends + [|file|], endOffset := |file|, synced := |file|,
                        outbox := s.outbox[1..], stage := Applying)
                else s.(file := file)
    {
      var s := Now();
      if dropped {
        Note(DropTail, s.(file := s.file[..s.endOffset]));
      }
      if written {
        var frame := Frame(cfg.codec, NextEntry(s));
        Note(WriteFrame(cut), s.(file := file, stage := if cut == |frame| then Written else Idle));
      }
      if ok {
        var t := Now();
        Note(SyncFrame, t.(log := t.log + [NextEntry(t)], ends := t.ends + [|t.file|], endOffset := |t.file|, synced := |t.file|, stage := Journaled));
        Note(Confirm, Now().(outbox := s.outbox[1..], stage := Applying));
      } else {
        Note(Fail, Now().(stage := Idle));
      }
    }

    /** `journalCharacterStateOutboxHead`. The head leaves the outbox only behind its synced frame. */
    method JournalHead() returns (r: Result<Option<Record<Command>>, SaveError>)
      requires Valid() && Now().stage.Idle? && CaughtUp(Now())
      modifies this`trace, this`path, outbox, journal
      ensures Valid() && old(path) <= path
      ensures r == Ok(None) <==> r.Ok? && old(outbox.pending) == []
      ensures r.Ok? && r.value.Some? ==>
                && Now().stage.Applying? && HasCurrent(Now()) && IsCurrent(r.value.value)
                && outbox.pending == old(outbox.pending)[1..] && |journal.entries| == old(|journal.entries|) + 1
      ensures r.Err? || r.value == None ==>
                Now().stage.Idle? && CaughtUp(Now()) && outbox.pending == old(outbox.pending)
      ensures r.Err? ==> r.error != RevisionConflict
    {
      if |outbox.pending| == 0 { return Ok(None); }
      ghost var dropped, written, cut;
      var appended: Result<Record<Command>, SaveError>;
      appended, dropped, written, cut := AppendHead();
      NoteAppend(dropped, written, cut, appended.Ok?, journal.file);
      if appended.Err? { return Err(appended.error); }
      var fault := outbox.Confirm(appended.value.entry.body.intent.intentId);
      assert fault == None;
      return Ok(Some(appended.value));
    }

    /** One turn of the loop below: journal, apply, checkpoint. */
    method PersistHead() returns (done: bool, fault: Option<SaveError>)
      requires Valid() && Now().stage.Idle? && CaughtUp(Now())
      modifies this`trace, this`path, this`checkpoint, outbox, journal, checkpointStore, store
      ensures Valid() && old(path) <= path && Now().stage.Idle?
      ensures fault == None ==> CaughtUp(Now()) && done == (old(outbox.pending) != [])
      ensures fault == None ==> outbox.pending == if done then old(outbox.pending)[1..] else []
      ensures fault == Some(RevisionConflict) ==> Conflicted()
    {
      var head := JournalHead();
      if head.Err? { return false, Some(head.error); }
      if head.value == None { return false, None; }
      fault := Apply(head.value.value);
      if fault.Some? { return false, fault; }
      fault := MoveCheckpoint(head.value.value);
      done := true;
    }

    /** `persistCharacterStateOutboxBatch`. */
    method PersistOutboxBatch() returns (processed: nat, fault: Option<SaveError>)
      requires Valid() && Now().stage.Idle? && CaughtUp(Now())
      modifies this`trace, this`path, this`checkpoint, outbox, journal, checkpointStore, store
      ensures Valid() && old(path) <= path && Now().stage.Idle?
      ensures fault == None ==> CaughtUp(Now())
      ensures fault == None ==>
                processed == (if |old(outbox.pending)| < DRAIN_BATCH then |old(outbox.pending)| else DRAIN_BATCH)
                && outbox.pending == old(outbox.pending)[processed..]
    {
      processed := 0;
      while processed < DRAIN_BATCH
        invariant Valid() && old(path) <= path && Now().stage.Idle? && CaughtUp(Now())
        invariant processed <= DRAIN_BATCH && processed <= |old(outbox.pending)| && outbox.pending == old(outbox.pending)[processed..]
      {
        var done;
        done, fault := PersistHead();
        if fault.Some? || !done { return; }
        processed := processed + 1;
      }
      fault := None;
    }

    /** `persistBatch`, the turn of the worker. */
    method PersistBatch() returns (fault: Option<SaveError>)
      requires Valid() && Now().stage.Idle?
      modifies this`trace, this`path, this`checkpoint, outbox, journal, checkpointStore, store
      ensures Valid() && old(path) <= path && Now().stage.Idle?
      ensures fault == None ==> CaughtUp(Now())
      ensures fault == None ==>
                outbox.pending == old(outbox.pending)[if |old(outbox.pending)| < DRAIN_BATCH then |old(outbox.pending)| else DRAIN_BATCH..]
    {
      fault := Drain();
      if fault.Some? { return; }
      var processed;
      processed, fault := PersistOutboxBatch();
    }

    /** `flushPendingLocked`: nothing waits and nothing is open when it succeeds; it never runs idle. */
    method FlushPending() returns (fault: Option<SaveError>)
      requires Valid() && Now().stage.Idle?
      modifies this`trace, this`path, this`checkpoint, outbox, journal, checkpointStore, store
      ensures Valid() && old(path) <= path && Now().stage.Idle?
      ensures fault == None ==> CaughtUp(Now()) && outbox.pending == []
      ensures fault == None ==> forall i :: i in old(outbox.pending) ==> !Unjournalable(cfg, i)
    {
      ghost var start := |path| - 1;
      fault := Drain();
      if fault.Some? { return; }
      while |outbox.pending| > 0
        invariant Valid() && old(path) <= path && Now().stage.Idle? && CaughtUp(Now())
        decreases |outbox.pending|
      {
        var processed: nat;
        processed, fault := PersistOutboxBatch();
        if fault.Some? { return; }
        if processed == 0 { return Some(NoProgress); }
      }
      fault := Drain();
      NoneWaited(start);
    }

    /** With an empty outbox nothing that waited before was unjournalable. */
    lemma NoneWaited(k: nat)
      requires Valid() && outbox.pending == [] && k < |path| && path[k].up && path[k].stage.Idle?
      ensures forall i :: i in path[k].outbox ==> !Unjournalable(cfg, i)
    {
      forall i | i in path[k].outbox ensures !Unjournalable(cfg, i) {
        if Unjournalable(cfg, i) {
          WaitsForGood(k, i);
          assert false;
        }
      }
    }

    /** `LoadRestore`: the record it returns is read only once nothing waits and nothing is open. The
        check of the restored character against the running world may refuse it. */
    method LoadRestore(identity: Identity) returns (r: Result<Option<StoreRecord>, SaveError>)
      requires Valid() && Now().stage.Idle?
      modifies this`trace, this`path, this`checkpoint, outbox, journal, checkpointStore, store
      ensures Valid() && old(path) <= path && Now().stage.Idle?
      ensures r.Ok? ==> CaughtUp(Now()) && outbox.pending == [] && r.value == At(store.files, identity.id).visible
      ensures r.Ok? ==> forall i :: i in old(outbox.pending) ==> !Unjournalable(cfg, i)
    {
      if !Durable(identity) { return Err(IdentityNotDurable); }
      var fault := FlushPending();
      if fault.Some? { return Err(fault.value); }
      r := store.Load(identity);
      if r.Ok? && r.value.Some? {
        var refused: bool := *;
        if refused { return Err(RestoreRefused); }
      }
    }

    /** The world hands over a save. It may do so at any time, also while a batch is being persisted. */
    method Enqueue(c: Catalog, identity: Identity, snapshot: Snapshot) returns (r: Result<Intent, SaveError>)
      requires Valid()
      requires Durable(identity) && ValidV9(c, snapshot) ==> cfg.enqueues(Intent(outbox.nextIntentId + 1, identity, snapshot))
      modifies this`trace, this`path, outbox
      ensures Valid() && old(path) <= path && Now().stage == old(Now()).stage
      ensures r.Ok? ==> outbox.pending == old(outbox.pending) + [r.value] && Now().session == old(Now()).session + [r.value]
      ensures r.Err? ==> Now() == old(Now())
    {
      r := outbox.Enqueue(c, identity, snapshot);
      if r.Ok? {
        ghost var s := Now();
        Note(SaveMachine.Enqueue(r.value), s.(outbox := s.outbox + [r.value], session := s.session + [r.value]));
      }
    }

    /** What the code guarantees, wherever it stands, against every power loss to come: started where the
        invariant holds and as long as its steps are prudent, the invariant holds at every step, replay never
        finds a conflict, and with nothing open the store durably holds what the journal says. */
    lemma Guaranteed()
      requires Valid() && Inv(cfg, path[0]) && PrudentPath(path, trace)
      ensures Inv(cfg, Now())
      ensures Canonical(cfg) ==> !Conflicted()
      ensures CaughtUp(Now()) ==> forall id :: At(store.files, id) == Cell(Moved(cfg, id, Mine(journal.entries, id)), {})
      ensures CaughtUp(Now()) && Now().stage.Idle? && outbox.pending == [] ==>
                Now().booted <= |journal.entries| && Now().session == Intents(journal.entries[Now().booted..])
    {
      forall k | 0 <= k < |path| ensures Inv(cfg, path[k]) {
        PathKeeps(cfg, path, trace, k);
      }
      assert path[|path| - 1] == Now();
      if Canonical(cfg) && Conflicted() {
        var k :| 0 <= k < |path| && path[k].up && Conflict(path[k]);
        ConflictExactlyWhen(cfg, path[k]);
        assert false;
      }
      if CaughtUp(Now()) {
        QuietMeansStored(cfg, Now());
        forall id ensures After(cfg, journal.entries, id) == Moved(cfg, id, Mine(journal.entries, id)) {
          AfterIsMoved(cfg, journal.entries, id);
        }
      }
    }

    /** It is prudent from a start over a disk that is all synced, as long as no save fails between the rename of its
        record and the sync of the directory. */
    lemma PrudentUnlessASaveFails()
      requires Valid() && SavePowerLosses.Steady(cfg, path[0])
      requires forall k {:trigger trace[k]} :: 0 <= k < |trace| && trace[k].Fail? ==> AllSettled(path[k].store)
      ensures PrudentPath(path, trace)
    {
      forall k {:trigger trace[k]} | 0 <= k < |trace| ensures Prudent(path[k], trace[k]) {
        assert trace[k] in trace;
        SavePowerLosses.SteadyPath(cfg, path, trace, k);
      }
    }

    /** What it guarantees while the power is on, prudent or not and whatever call failed: replay never finds a
        conflict, and with nothing open the store shows what the journal says. */
    lemma GuaranteedWithoutPowerLoss()
      requires Valid() && Inv(cfg, SaveProcessDeaths.Settle(path[0]))
      ensures Inv(cfg, SaveProcessDeaths.Settle(Now()))
      ensures Canonical(cfg) ==> !Conflicted()
      ensures CaughtUp(Now()) ==> forall id :: At(store.files, id).visible == Moved(cfg, id, Mine(journal.entries, id))
    {
      forall k | 0 <= k < |path|
        ensures Inv(cfg, SaveProcessDeaths.Settle(path[k])) && (path[k].up && Canonical(cfg) ==> !Conflict(path[k]))
      {
        SaveProcessDeaths.AlivePathKeeps(cfg, path, trace, k);
        SaveProcessDeaths.VisiblyExact(cfg, path[k]);
      }
      assert path[|path| - 1] == Now();
      SaveProcessDeaths.VisiblyExact(cfg, Now());
    }

    /** An intent the journal does not take stays in the outbox while the process lives. */
    lemma WaitsForGood(k: nat, i: Intent)
      requires Valid() && k < |path| && Waits(cfg, path[k], i)
      ensures i in outbox.pending
    {
      PathLeavesItWaiting(cfg, path, trace, k, |path| - 1, i);
    }
  }

  lemma RestartIs(cfg: Config, down: State, s: State)
    requires !down.up && down.stage.Idle? && down.outbox == [] && down.session == [] && cfg.header <= down.file
    requires var scan := Scan(cfg.codec, down.file, |cfg.header|, 1);
             && scan.Recovered?
             && s == State(true, Idle, [], [], |scan.entries|, scan.entries, scan.ends, scan.end, s.checkpoint,
                           down.file[..scan.end], if scan.torn then scan.end else down.synced, down.saved, down.store)
    requires CheckpointFault(SaveMachine.View(cfg, s), s.checkpoint) == None
    requires s.checkpoint == if down.saved.visible.Some? then down.saved.visible.value else Checkpoint(cfg.journalId, 0, |cfg.header|)
    ensures Enabled(cfg, down, Restart) && s == Step(cfg, down, Restart)
  {
  }

  /** `recoverCharacterStateSaveJournal` behind the opening of the journal, and the construction of the
      coordinator. `down` is the machine state a dead process or a power loss left. */
  method Recover(cfg: Config, outbox: Outbox, journal: Journal<Command>, checkpointStore: CheckpointStore, store: CharacterStore,
                 ghost down: State)
    returns (p: CharacterStatePersistence?, fault: Option<SaveError>)
    requires Sound(cfg) && journal.Valid() && outbox.Valid() && outbox.nextIntentId == 0 && outbox.pending == [] && outbox.capacity == cfg.capacity
    requires cfg.codec == journal.codec && cfg.header == journal.header && cfg.journalId == journal.JournalId()
    requires forall s :: store.savable(s).Some? ==> cfg.stored(s) == store.savable(s).value
    requires !down.up && down.stage.Idle? && down.outbox == [] && down.session == [] && cfg.header <= down.file
    requires down.saved == checkpointStore.saved && down.store == store.files
    requires var scan := Scan(cfg.codec, down.file, |cfg.header|, 1);
             && scan.Recovered? && journal.entries == scan.entries && journal.recordEnds == scan.ends && journal.endOffset == scan.end
             && journal.file == down.file[..scan.end]
    modifies checkpointStore, store
    ensures p == null ==>
              && fault.Some? && fault.value.JournalFailed?
              && (fault.value.error != IoFailed ==> !Enabled(cfg, down, Restart))
    ensures p != null ==> fresh(p) && p.Valid() && p.cfg == cfg && Enabled(cfg, down, Restart) && p.path[0] == Step(cfg, down, Restart)
    ensures p != null && fault == None ==> CaughtUp(p.Now()) && p.Now().stage.Idle?
    ensures p != null && fault == Some(RevisionConflict) ==> p.Conflicted()
  {
    var loaded := checkpointStore.Load(journal);
    if loaded.Err? { return null, Some(JournalFailed(loaded.error)); }
    ghost var scan := Scan(cfg.codec, down.file, |cfg.header|, 1);
    p := new CharacterStatePersistence(cfg, outbox, journal, checkpointStore, loaded.value, store,
                                       if scan.torn then scan.end else down.synced);
    RestartIs(cfg, down, p.Now());
    fault := p.Drain();
  }
}
