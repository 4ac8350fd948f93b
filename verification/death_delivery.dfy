/** The death-outcome pipeline: a deduplicating outbox, the framed journal, and at-least-once delivery to
    a consumer whose checkpoint is saved behind each delivery. */
module DeathDelivery {
  import opened Outcomes
  import opened Framing
  import opened Journals
  import opened DeathMachine
  import DeathGuarantees

  const DRAIN_BATCH: nat := 64

  // ----- the outbox -----

  datatype OutboxError = InvalidEvent | RevisionRegression | OutcomeConflict | OutboxFull | EventIdOverflow | UnknownEvent | ConfirmOutOfOrder

  class Outbox {
    const capacity: nat
    const valid: Event -> bool   // the checks of `validateEvent` behind the id
    var nextEventId: nat
    var pending: seq<Event>
    var lastByEntity: map<nat, Event>

    ghost predicate Valid()
      reads this
    {
      && |pending| <= capacity && nextEventId <= MAX_UINT64
      && (forall k :: 0 <= k < |pending| ==> 0 < pending[k].eventId <= nextEventId)
      && (forall i, j :: 0 <= i < j < |pending| ==> pending[i].eventId < pending[j].eventId)
      && (forall e :: e in lastByEntity ==> lastByEntity[e].entityId == e && 0 < lastByEntity[e].eventId <= nextEventId)
    }

    constructor (capacity: nat, valid: Event -> bool)
      ensures Valid() && pending == [] && lastByEntity == map[] && this.capacity == capacity && this.valid == valid
    {
      this.capacity, this.valid, nextEventId, pending, lastByEntity := capacity, valid, 0, [], map[];
    }

    /** `Enqueue`: once per entity and revision. The same outcome again gives the stored event back, another
        outcome for the same revision or an older revision is refused, and nothing refused changes anything. */
    method Enqueue(event: Event) returns (r: Result<(Event, bool), OutboxError>)
      requires Valid()
      modifies this
      ensures Valid()
      ensures r.Ok? && r.value.1 ==>
                && r.value.0 == event.(eventId := old(nextEventId) + 1) && pending == old(pending) + [r.value.0]
                && lastByEntity == old(lastByEntity)[event.entityId := r.value.0]
      ensures !(r.Ok? && r.value.1) ==> pending == old(pending) && lastByEntity == old(lastByEntity) && nextEventId == old(nextEventId)
      ensures r.Ok? && !r.value.1 <==>
                && event.eventId == 0 && valid(event) && event.entityId in old(lastByEntity)
                && r == Ok((old(lastByEntity)[event.entityId], false)) && event == old(lastByEntity)[event.entityId].(eventId := 0)
      ensures r.Ok? && event.entityId in old(lastByEntity) ==> event.revision >= old(lastByEntity)[event.entityId].revision
    {
      if event.eventId != 0 || !valid(event) { return Err(InvalidEvent); }
      if event.entityId in lastByEntity {
        var last := lastByEntity[event.entityId];
        if event.revision < last.revision { return Err(RevisionRegression); }
        if event.revision == last.revision {
          if event.(eventId := last.eventId) != last { return Err(OutcomeConflict); }
          return Ok((last, false));
        }
      }
      if |pending| >= capacity { return Err(OutboxFull); }
      if nextEventId == MAX_UINT64 { return Err(EventIdOverflow); }
      nextEventId := nextEventId + 1;
      var stored := event.(eventId := nextEventId);
      pending := pending + [stored];
      lastByEntity := lastByEntity[event.entityId := stored];
      return Ok((stored, true));
    }

    /** Oldest first only. */
    method Confirm(eventId: nat) returns (fault: Option<OutboxError>)
      requires Valid()
      modifies this`pending
      ensures Valid()
      ensures fault == None <==> old(pending) != [] && old(pending)[0].eventId == eventId
      ensures pending == if fault == None then old(pending)[1..] else old(pending)
    {
      if pending == [] { return Some(UnknownEvent); }
      if pending[0].eventId != eventId {
        for k := 0 to |pending| {
          if pending[k].eventId == eventId { return Some(ConfirmOutOfOrder); }
        }
        return Some(UnknownEvent);
      }
      pending := pending[1..];
      return None;
    }

    /** The entity leaves: its revisions start anew, its undelivered events stay. */
    method ResetEntity(entityId: nat)
      requires Valid()
      modifies this`lastByEntity
      ensures Valid() && lastByEntity == old(lastByEntity) - {entityId}
    {
      lastByEntity := lastByEntity - {entityId};
    }
  }

  // ----- delivery -----

  datatype DeliveryError = JournalFailed(error: JournalError) | ConsumerFailed | OutboxFailed(fault: OutboxError)

  /** The first `n` events have gone from the outbox to the journal, in their order. */
  predicate Ingested(was: seq<Entry<Event>>, events: seq<Event>, n: nat, pending: seq<Event>, entries: seq<Entry<Event>>) {
    && n <= |events| && pending == events[n..]
    && |entries| == |was| + n && was <= entries
    && forall k :: 0 <= k < n ==> entries[|was| + k].body == events[k]
  }

  lemma OneMoreIngested(was: seq<Entry<Event>>, events: seq<Event>, n: nat, pending: seq<Event>, entries: seq<Entry<Event>>, e: Entry<Event>)
    requires Ingested(was, events, n, pending, entries) && n < |events| && e.body == events[n]
    ensures pending != [] && pending[0] == events[n] && Ingested(was, events, n + 1, pending[1..], entries + [e])
  {
  }

  /** What an append leaves in the file: with success the whole frame behind the last record, otherwise the file as it
      was, or cut behind the last record, or with a part of the frame there. */
  ghost predicate LeftBehind(codec: Codec<Event>, e: Entry<Event>, endOffset: nat, before: seq<byte>, ok: bool, file: seq<byte>) {
    && Lawful(codec) && endOffset <= |before| && (ok ==> Encodable(codec, e) && file == before[..endOffset] + Frame(codec, e))
    && (!ok && file != before && file != before[..endOffset] ==>
          && Encodable(codec, e) && e.id <= MAX_UINT64
          && exists cut :: 0 <= cut <= |Frame(codec, e)| && file == before[..endOffset] + Frame(codec, e)[..cut])
  }

  /** The delivery of death outcomes, from process to process. */
  class DeathJournal {
    ghost const setup: Setup
    var up: bool
    var journal: Journal<Event>   // of the process, or of the last one
    var store: CheckpointStore
    var checkpoint: Checkpoint
    var file: seq<byte>           // the disk, while no process runs
    var saved: Cell<Option<Checkpoint>>
    ghost var path: seq<Moment>   // the moments of the machine so far
    ghost var trace: seq<Action>  // the steps between them

    ghost function Now(): Moment
      reads this
      requires path != []
    {
      path[|path| - 1]
    }

    /** The moment these objects are in. */
    ghost function View(): Moment
      reads this, journal, store
      requires path != []
    {
      Moment(up, Now().stage, journal.entries, journal.recordEnds, journal.endOffset, if up then journal.file else file, Now().synced,
             if up then store.saved else saved, checkpoint, Now().deliveries, Now().faults)
    }

    ghost predicate Recorded()
      reads this
    {
      && path != [] && Path(setup, path, trace) && |setup.magic| <= |setup.header| && path[0] == New(setup)
      && Lawful(setup.codec) && ValidHeader(setup.magic, setup.header)
    }

    ghost predicate Wired()
      reads this, journal
    {
      journal.Valid() && setup == Setup(journal.codec, journal.magic, journal.header)
    }

    ghost predicate Valid()
      reads this, journal, store
    {
      Wired() && Recorded() && Now() == View() && Now().stage.Idle?
    }

    constructor (journal: Journal<Event>, store: CheckpointStore)
      requires journal.Valid() && store.saved == Cell(None, {}) && journal.entries == [] && journal.recordEnds == []
      requires journal.file == journal.header && journal.endOffset == |journal.header| && ValidHeader(journal.magic, journal.header)
      ensures Valid() && this.journal == journal && this.store == store && up && trace == []
    {
      setup := Setup(journal.codec, journal.magic, journal.header);
      up, this.journal, this.store, checkpoint := true, journal, store, journal.InitialCheckpoint();
      file, saved := [], Cell(None, {});
      path, trace := [New(Setup(journal.codec, journal.magic, journal.header))], [];
    }

    ghost method Note(a: Action, next: Moment)
      requires Recorded() && Moves(setup, Now(), a, next)
      modifies this`trace, this`path
      ensures path == old(path) + [next] && Now() == next && Recorded() && old(path) <= path
    {
      PathOn(setup, path, trace, a, next);
      path, trace := path + [next], trace + [a];
    }

    /** A delivery, and how far the save behind it got. */
    ghost method NoteDelivery(renamed: bool, ok: bool)
      requires Recorded() && (ok ==> renamed) && Now().up && Now().stage.Idle? && HasOpen(Now())
      modifies this`trace, this`path
      ensures Recorded() && old(path) <= path
      ensures var m := old(Now());
              var cell := m.saved.Rename(Some(Following(setup, m)));
              Now() == m.(deliveries := m.deliveries + [m.entries[m.checkpoint.recordId]], faults := if ok then m.faults else m.faults + 1,
                          saved := if ok then cell.Sync() else if renamed then cell else m.saved,
                          checkpoint := if ok then Following(setup, m) else m.checkpoint)
    {
      var m := Now();
      var cell := m.saved.Rename(Some(Following(setup, m)));
      Note(Deliver, m.(deliveries := m.deliveries + [m.entries[m.checkpoint.recordId]], stage := Delivered));
      if renamed { Note(SaveRename, Now().(saved := cell, stage := Renamed)); }
      if ok { Note(SaveSync, Now().(saved := cell.Sync(), checkpoint := Following(setup, m), stage := Idle)); }
      else { Note(GiveUp, Now().(stage := Idle, faults := m.faults + 1)); }
    }

    /** The checkpoint of the open record is the one behind the checkpoint in memory. */
    lemma GivesFollowing(record: Record<Event>)
      requires journal.Valid() && checkpoint.recordId < |journal.entries|
      requires record == Record(journal.entries[checkpoint.recordId], journal.recordEnds[checkpoint.recordId])
      ensures journal.CheckpointFor(record) == if journal.closed then Err(Closed) else Ok(CheckpointAt(journal.View(), checkpoint.recordId + 1))
    {
      ReadsRecord(journal.codec, journal.file, journal.endOffset, |journal.header|, journal.entries, journal.recordEnds, checkpoint.recordId);
    }

    /** Deliver, then save the checkpoint; either may fail. */
    method DeliverAndSave(record: Record<Event>) returns (r: Result<Checkpoint, DeliveryError>, ghost renamed: bool)
      requires Valid() && up && checkpoint.recordId < |journal.entries|
      requires record == Record(journal.entries[checkpoint.recordId], journal.recordEnds[checkpoint.recordId])
      modifies store
      ensures r.Ok? ==> renamed && r.value == Following(setup, Now())
      ensures var cell := Now().saved.Rename(Some(Following(setup, Now())));
              store.saved == if r.Ok? then cell.Sync() else if renamed then cell else Now().saved
    {
      var consumeFails: bool := *;
      if consumeFails { return Err(ConsumerFailed), false; }
      GivesFollowing(record);
      var next := store.Save(journal, record);
      renamed := next.Ok? || store.saved != Now().saved;
      r := if next.Ok? then Ok(next.value) else Err(JournalFailed(next.error));
    }

    /** One turn of the loop of `consumeDeathOutcomeJournalBatch`. */
    method ConsumeRecord(record: Record<Event>) returns (fault: Option<DeliveryError>)
      requires Valid() && up && checkpoint.recordId < |journal.entries|
      requires record == Record(journal.entries[checkpoint.recordId], journal.recordEnds[checkpoint.recordId])
      modifies this`checkpoint, this`path, this`trace, store
      ensures Valid() && old(path) <= path && Now().deliveries == old(Now()).deliveries + [record.entry]
      ensures checkpoint.recordId == old(checkpoint).recordId + if fault == None then 1 else 0
      ensures Now().faults == old(Now()).faults + if fault == None then 0 else 1
    {
      ghost var renamed;
      var next: Result<Checkpoint, DeliveryError>;
      next, renamed := DeliverAndSave(record);
      NoteDelivery(renamed, next.Ok?);
      if next.Ok? { checkpoint := next.value; }
      assert Now() == View();
      fault := if next.Ok? then None else Some(next.error);
    }

    /** `consumeDeathOutcomeJournalBatch`. */
    method ConsumeBatch() returns (processed: nat, fault: Option<DeliveryError>)
      requires Valid() && up
      modifies this`checkpoint, this`path, this`trace, store
      ensures Valid() && old(path) <= path && checkpoint.recordId == old(checkpoint).recordId + processed
      ensures old(Now()).deliveries <= Now().deliveries && Now().faults <= old(Now()).faults + 1
      ensures |Now().deliveries| == |old(Now()).deliveries| + processed + (Now().faults - old(Now()).faults)
      ensures fault == None ==> Now().faults == old(Now()).faults && (processed == 0 ==> checkpoint.recordId == |journal.entries|)
      ensures fault == None ==> checkpoint.recordId <= |journal.entries|
    {
      var batch := journal.RecordsAfter(checkpoint, DRAIN_BATCH);
      if batch.Err? { return 0, Some(JournalFailed(batch.error)); }
      processed, fault := ConsumeRecords(batch.value);
    }

    /** Its loop. */
    method ConsumeRecords(records: seq<Record<Event>>) returns (processed: nat, fault: Option<DeliveryError>)
      requires Valid() && up && journal.IsSlice(records, checkpoint.recordId)
      modifies this`checkpoint, this`path, this`trace, store
      ensures Valid() && old(path) <= path && checkpoint.recordId == old(checkpoint).recordId + processed
      ensures old(Now()).deliveries <= Now().deliveries
      ensures |Now().deliveries| == |old(Now()).deliveries| + processed + (Now().faults - old(Now()).faults)
      ensures if fault == None then Now().faults == old(Now()).faults && processed == |records| else Now().faults == old(Now()).faults + 1
    {
      processed, fault := 0, None;
      ghost var first, start := checkpoint.recordId, Now();
      while processed < |records| && fault == None
        invariant Valid() && old(path) <= path && start.deliveries <= Now().deliveries
        invariant processed <= |records| && checkpoint.recordId == first + processed
        invariant Now().faults == start.faults + if fault == None then 0 else 1
        invariant |Now().deliveries| == |start.deliveries| + processed + (Now().faults - start.faults)
        decreases |records| - processed, if fault == None then 1 else 0
      {
        fault := ConsumeRecord(records[processed]);
        if fault == None { processed := processed + 1; }
      }
    }

    /** The loop of `recoverDeathOutcomeJournal` behind the loading of the checkpoint: it ends, and success
        leaves nothing undelivered. */
    method Recover() returns (total: nat, fault: Option<DeliveryError>)
      requires Valid() && up
      modifies this`checkpoint, this`path, this`trace, store
      ensures Valid() && old(path) <= path && old(Now()).deliveries <= Now().deliveries && checkpoint.recordId >= old(checkpoint).recordId + total
      ensures Now().faults <= old(Now()).faults + 1
      ensures fault == None ==>
                && checkpoint.recordId == |journal.entries| == old(checkpoint).recordId + total
                && |Now().deliveries| == |old(Now()).deliveries| + total && Now().faults == old(Now()).faults
    {
      total := 0;
      ghost var first, start := checkpoint.recordId, Now();
      while true
        invariant Valid() && old(path) <= path && start.deliveries <= Now().deliveries && checkpoint.recordId == first + total
        invariant Now().faults == start.faults && |Now().deliveries| == |start.deliveries| + total
        decreases |journal.entries| - checkpoint.recordId
      {
        var processed;
        processed, fault := ConsumeBatch();
        if fault.Some? { return; }
        total := total + processed;
        if processed == 0 { return; }
      }
    }

    /** `ingestDeathOutcomeOutboxBatch`: an event leaves the outbox only behind its synced frame. */
    method Ingest(outbox: Outbox) returns (confirmed: nat, fault: Option<DeliveryError>)
      requires Valid() && up && outbox.Valid()
      modifies this`path, this`trace, journal, outbox
      ensures Valid() && outbox.Valid() && old(path) <= path
      ensures confirmed <= DRAIN_BATCH && Ingested(old(journal.entries), old(outbox.pending), confirmed, outbox.pending, journal.entries)
      ensures confirmed > 0 ==> Now().synced == journal.endOffset
      ensures fault == None ==> confirmed == if |old(outbox.pending)| < DRAIN_BATCH then |old(outbox.pending)| else DRAIN_BATCH
    {
      confirmed, fault := 0, None;
      ghost var was := journal.entries;
      var events := outbox.pending;
      var count := if |events| < DRAIN_BATCH then |events| else DRAIN_BATCH;
      while confirmed < count && fault == None
        invariant Valid() && outbox.Valid() && confirmed <= count && old(path) <= path
        invariant Ingested(was, events, confirmed, outbox.pending, journal.entries) && (confirmed > 0 ==> Now().synced == journal.endOffset)
        decreases count - confirmed, if fault == None then 1 else 0
      {
        fault := IngestOne(outbox, events[confirmed], was, events, confirmed);
        if fault == None { confirmed := confirmed + 1; }
      }
    }

    /** One turn of that loop: append, then confirm the head. */
    method IngestOne(outbox: Outbox, event: Event, ghost was: seq<Entry<Event>>, ghost events: seq<Event>, ghost n: nat) returns (fault: Option<DeliveryError>)
      requires Valid() && up && outbox.Valid() && n < |events| && events[n] == event && Ingested(was, events, n, outbox.pending, journal.entries)
      modifies this`path, this`trace, journal, outbox`pending
      ensures Valid() && outbox.Valid() && old(path) <= path
      ensures Ingested(was, events, if fault == None then n + 1 else n, outbox.pending, journal.entries)
      ensures if fault == None then Now().synced == journal.endOffset
              else Now().synced == old(Now()).synced && journal.endOffset == old(journal.endOffset)
    {
      OneMoreIngested(was, events, n, outbox.pending, journal.entries, Entry(|journal.entries| + 1, event));
      fault := AppendEvent(event);
      if fault == None {
        var refused := outbox.Confirm(event.eventId);
        assert refused == None;
      }
    }

    method AppendEvent(event: Event) returns (fault: Option<DeliveryError>)
      requires Valid() && up
      modifies this`path, this`trace, journal
      ensures Valid() && old(path) <= path
      ensures fault == None ==> journal.entries == old(journal.entries) + [Entry(|old(journal.entries)| + 1, event)] && Now().synced == journal.endOffset
      ensures fault.Some? ==> journal.entries == old(journal.entries) && journal.endOffset == old(journal.endOffset) && Now().synced == old(Now()).synced
    {
      fault := AppendFrame(event);
      NoteAppend(event, fault == None, journal.file);
    }

    /** `journal.Append`: what it leaves in the file. */
    method AppendFrame(event: Event) returns (fault: Option<DeliveryError>)
      requires journal.Valid()
      modifies journal
      ensures journal.Valid()
      ensures var e := Entry(|old(journal.entries)| + 1, event);
              && LeftBehind(journal.codec, e, old(journal.endOffset), old(journal.file), fault == None, journal.file)
              && (fault == None ==>
                    && e.id <= MAX_UINT64 && journal.entries == old(journal.entries) + [e]
                    && journal.recordEnds == old(journal.recordEnds) + [|journal.file|] && journal.endOffset == |journal.file|)
      ensures fault.Some? ==>
                journal.entries == old(journal.entries) && journal.recordEnds == old(journal.recordEnds) && journal.endOffset == old(journal.endOffset)
    {
      var appended := journal.Append(event);
      fault := if appended.Ok? then None else Some(JournalFailed(appended.error));
    }

    ghost method NoteAppend(event: Event, ok: bool, file: seq<byte>)
      requires Recorded() && Now().up && Now().stage.Idle? && (ok ==> |Now().entries| < MAX_UINT64)
      requires LeftBehind(setup.codec, NextEntry(Now(), event), Now().endOffset, Now().file, ok, file)
      modifies this`trace, this`path
      ensures Recorded() && old(path) <= path
      ensures var m := old(Now());
              Now() == if ok then m.(entries := m.entries + [NextEntry(m, event)], ends := m.ends + [|file|], endOffset := |file|,
                                     file := file, synced := |file|)
                       else m.(file := file)
    {
      var m := Now();
      if ok {
        NoteWrite(event, |Frame(setup.codec, NextEntry(m, event))|, file);
        assert file[m.endOffset..] == Frame(setup.codec, NextEntry(m, event));
        Note(SyncFrame, Step(setup, Now(), SyncFrame));
      } else if file != m.file {
        if file == m.file[..m.endOffset] {
          Note(DropTail, m.(file := file));
        } else {
          var cut :| 0 <= cut <= |Frame(setup.codec, NextEntry(m, event))| && file == m.file[..m.endOffset] + Frame(setup.codec, NextEntry(m, event))[..cut];
          NoteWrite(event, cut, file);
          Note(GiveUp, m.(file := file));
        }
      }
    }

    ghost method NoteWrite(event: Event, cut: nat, file: seq<byte>)
      requires Recorded() && Now().up && Now().stage.Idle? && Now().endOffset <= |Now().file| && |Now().entries| < MAX_UINT64
      requires Encodable(setup.codec, NextEntry(Now(), event)) && cut <= |Frame(setup.codec, NextEntry(Now(), event))|
      requires file == Now().file[..Now().endOffset] + Frame(setup.codec, NextEntry(Now(), event))[..cut]
      modifies this`trace, this`path
      ensures Recorded() && old(path) <= path && Now() == old(Now()).(file := file, stage := Writing(event))
    {
      Note(DropTail, Step(setup, Now(), DropTail));
      Note(Write(event, cut), Step(setup, Now(), Write(event, cut)));
    }

    /** The process dies; the disk stays as it is. */
    method Die()
      requires Valid() && up
      modifies this`up, this`file, this`saved, this`path, this`trace
      ensures Valid() && !up && old(path) <= path && file == journal.file && saved == store.saved
    {
      Note(Action.Die, Now().(up := false, faults := Now().faults + 1));
      up, file, saved := false, journal.file, store.saved;
    }

    /** The power goes with the process, or later: of the journal file stays what is synced and any of the bytes
        behind it, of the checkpoint file what a rename that is not synced may leave. */
    method LosePower(kept: nat, left: Option<Checkpoint>)
      requires Valid() && !up && Now().synced <= kept <= |file| && saved.Survives(left)
      modifies this`file, this`saved, this`path, this`trace
      ensures Valid() && old(path) <= path && file == old(file)[..kept] && Now().synced == kept && saved == Cell(left, {})
    {
      Note(Action.LosePower(kept, left), Now().(file := file[..kept], synced := kept, saved := Cell(left, {})));
      file, saved := file[..kept], Cell(left, {});
    }

    /** The next process opens the journal and loads the checkpoint: it finds what the machine's start finds, and only
        I/O can keep it from that. */
    method OpenAndLoad(freshId: seq<byte>) returns (r: Result<(Journal<Event>, CheckpointStore, Checkpoint), JournalError>)
      requires Valid() && !up && |freshId| == JOURNAL_ID_SIZE
      ensures r.Err? && r.error != IoFailed ==> !Enabled(setup, Now(), Action.Start)
      ensures r.Ok? ==> fresh(r.value.0) && fresh(r.value.1) && Enabled(setup, Now(), Action.Start) && Found(r.value.0, r.value.1, r.value.2)
    {
      DeathGuarantees.NewIsFine(setup);
      DeathGuarantees.PathKeeps(setup, path, trace, |trace|);
      HeaderStays(setup.magic, setup.header, file);
      var next := Journal<Event>.Open(journal.codec, journal.magic, freshId, file);
      if next.Err? { return Err(next.error); }
      var kept := new CheckpointStore(saved);
      var loaded := kept.Load(next.value);
      if loaded.Err? { return Err(loaded.error); }
      r := Ok((next.value, kept, loaded.value));
    }

    ghost predicate Found(next: Journal<Event>, kept: CheckpointStore, loaded: Checkpoint)
      reads this, next, kept
      requires path != [] && Enabled(setup, Now(), Action.Start)
    {
      var n := Step(setup, Now(), Action.Start);
      && next.Valid() && setup == Setup(next.codec, next.magic, next.header)
      && next.entries == n.entries && next.recordEnds == n.ends && next.endOffset == n.endOffset && next.file == n.file
      && kept.saved == saved && loaded == n.checkpoint
    }

    /** The next process starts. A start that is refused changes nothing. */
    method Start(freshId: seq<byte>) returns (fault: Option<JournalError>)
      requires Valid() && !up && |freshId| == JOURNAL_ID_SIZE
      modifies this`up, this`journal, this`store, this`checkpoint, this`path, this`trace
      ensures Valid() && old(path) <= path && (up <==> fault == None)
      ensures fault.Some? && fault.value != IoFailed ==> !Enabled(setup, old(Now()), Action.Start)
      ensures fault.Some? ==> journal == old(journal) && store == old(store) && path == old(path)
      ensures fault == None ==> Moves(setup, old(Now()), Action.Start, Now())
    {
      var found := OpenAndLoad(freshId);
      if found.Err? { return Some(found.error); }
      Note(Action.Start, Step(setup, Now(), Action.Start));
      up, journal, store, checkpoint := true, found.value.0, found.value.1, found.value.2;
      fault := None;
    }

    // ----- what the consumer has seen, over every run of these methods -----

    lemma AtLeastOnce(id: nat)
      requires Valid()
      ensures var m := Now();
              && (1 <= id <= DeathGuarantees.MaxId(m.deliveries) ==> exists k :: 0 <= k < |m.deliveries| && m.deliveries[k].id == id)
              && |m.deliveries| <= DeathGuarantees.MaxId(m.deliveries) + m.faults && DeathGuarantees.NoneSkipped(m.deliveries)
    {
      DeathGuarantees.AtLeastOnce(setup, path, trace, id);
    }

    /** While every delivery was prudent; and then no start is refused but by I/O. */
    lemma InJournalOrder()
      requires Valid() && DeathGuarantees.PrudentPath(path, trace)
      ensures DeathGuarantees.SeenInJournalOrder(Now()) && (!up ==> Enabled(setup, Now(), Action.Start))
    {
      DeathGuarantees.InJournalOrder(setup, path, trace);
    }

    /** While no process has started over what the death of another left unsynced. */
    lemma InJournalOrderWhileTimely()
      requires Valid()
      requires forall j {:trigger trace[j]} :: 0 <= j < |trace| ==> DeathGuarantees.Timely(setup, path[j], trace[j])
      ensures DeathGuarantees.SeenInJournalOrder(Now()) && (!up ==> Enabled(setup, Now(), Action.Start))
    {
      DeathGuarantees.InJournalOrderWhileTimely(setup, path, trace);
    }
  }

  lemma HeaderStays(magic: seq<byte>, header: seq<byte>, file: seq<byte>)
    requires ValidHeader(magic, header) && |header| == HeaderSize(magic) && header <= file
    ensures ValidHeader(magic, file) && file[..HeaderSize(magic)] == header && file != []
  {
    var i :| |magic| <= i < HeaderSize(magic) && header[i] != 0;
    assert file[i] == header[i];
  }
}
