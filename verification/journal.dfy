/** The append-only journal both durable pipelines use, and the checkpoint file of its consumer. The
    character-state save journal and the death-outcome journal have the same code over different
    record bodies. */
module Journals {
  import opened Outcomes
  import opened Framing

  const JOURNAL_ID_SIZE: nat := 16

  datatype Checkpoint = Checkpoint(journalId: seq<byte>, recordId: nat, offset: nat)

  /** A record as the journal hands it out: with the offset behind its frame. */
  datatype Record<I> = Record(entry: Entry<I>, endOffset: nat)

  datatype JournalError =
    | Rejected | Closed | RecordOverflow | CorruptJournal | NotEncodable | IoFailed
    | JournalMismatch | CheckpointAhead | OffsetMismatch

  /** What an open journal keeps in memory about its file. */
  datatype Tables = Tables(journalId: seq<byte>, headerSize: nat, ends: seq<nat>)

  function CheckpointAt(t: Tables, k: nat): Checkpoint
    requires k <= |t.ends|
  {
    Checkpoint(t.journalId, k, if k == 0 then t.headerSize else t.ends[k - 1])
  }

  /** `validateCheckpointLocked`, with its three refusals in order. */
  function CheckpointFault(t: Tables, c: Checkpoint): (fault: Option<JournalError>)
    ensures fault == None <==> c.recordId <= |t.ends| && c == CheckpointAt(t, c.recordId)
  {
    if c.journalId != t.journalId then Some(JournalMismatch)
    else if c.recordId > |t.ends| then Some(CheckpointAhead)
    else if c.offset != (if c.recordId > 0 then t.ends[c.recordId - 1] else t.headerSize) then Some(OffsetMismatch)
    else None
  }

  /** A checkpoint taken on an intact journal is still valid after any later reopening, whatever was
      appended or torn off behind the part it covers. */
  lemma CheckpointSurvivesReopening<I>(codec: Codec<I>, file: seq<byte>, start: nat, entries: seq<Entry<I>>, ends: seq<nat>,
                                       more: seq<byte>, id: seq<byte>, c: Checkpoint)
    requires Intact(codec, file, start, 1, entries, ends)
    requires CheckpointFault(Tables(id, start, ends), c) == None
    requires Scan(codec, file + more, start, 1).Recovered?
    ensures var reopened := Scan(codec, file + more, start, 1);
            && entries <= reopened.entries && ends <= reopened.ends
            && CheckpointFault(Tables(id, start, reopened.ends), c) == None
  {
    ScanComposes(codec, file, file + more, start, 1, entries, ends);
  }

  /** The k-th record of a journal file is read from where the one before it ends. */
  lemma ReadsRecord<I>(codec: Codec<I>, file: seq<byte>, end: nat, start: nat, entries: seq<Entry<I>>, ends: seq<nat>, k: nat)
    requires end <= |file| && Intact(codec, file[..end], start, 1, entries, ends) && k < |entries| == |ends|
    ensures ReadAt(codec, file, if k == 0 then start else ends[k - 1]) == Ok((entries[k], ends[k]))
    ensures entries[k].id == k + 1
  {
    ReadsBack(codec, file[..end], start, 1, entries, ends, k);
    ReadIsLocal(codec, file[..end], file, if k == 0 then start else ends[k - 1]);
  }

  function HeaderSize(magic: seq<byte>): nat {
    |magic| + JOURNAL_ID_SIZE
  }

  /** The header checks of `openOrInitialize`: complete, the right magic, an id that is not all zero. */
  predicate ValidHeader(magic: seq<byte>, file: seq<byte>) {
    && HeaderSize(magic) <= |file|
    && magic <= file
    && exists i :: |magic| <= i < HeaderSize(magic) && file[i] != 0
  }

  class Journal<I(!new, ==)> {
    const codec: Codec<I>
    const magic: seq<byte>
    const header: seq<byte>
    var file: seq<byte>  // the bytes of the open file, as this process sees them
    var lastRecordId: nat
    var endOffset: nat
    var recordEnds: seq<nat>
    var repairedTail: bool
    var closed: bool
    ghost var entries: seq<Entry<I>>  // the records this journal holds

    ghost predicate Valid()
      reads this
    {
      && Lawful(codec)
      && |header| == |magic| + JOURNAL_ID_SIZE
      && endOffset <= |file|
      && Intact(codec, file[..endOffset], |header|, 1, entries, recordEnds)
      && lastRecordId == |entries| == |recordEnds| <= MAX_UINT64
    }

    function JournalId(): seq<byte>
      reads {}
      requires |header| >= |magic|
    {
      header[|magic|..]
    }

    function View(): Tables
      reads this
      requires |header| >= |magic|
    {
      Tables(JournalId(), |header|, recordEnds)
    }

    constructor Attach(codec: Codec<I>, magic: seq<byte>, header: seq<byte>, file: seq<byte>)
      ensures this.codec == codec && this.magic == magic && this.header == header && this.file == file
      ensures lastRecordId == 0 && endOffset == 0 && recordEnds == [] && entries == [] && !closed && !repairedTail
    {
      this.codec, this.magic, this.header, this.file := codec, magic, header, file;
      lastRecordId, endOffset, recordEnds, entries := 0, 0, [], [];
      repairedTail, closed := false, false;
    }

    /** `OpenSaveJournal` / `OpenJournal`. A file that does not exist yet is empty and gets a header with
        `freshId`; any other file is scanned, and a torn tail is cut off. */
    static method Open(codec: Codec<I>, magic: seq<byte>, freshId: seq<byte>, file: seq<byte>)
      returns (r: Result<Journal<I>, JournalError>)
      requires Lawful(codec) && |freshId| == JOURNAL_ID_SIZE
      ensures r.Ok? ==> fresh(r.value) && r.value.Valid() && !r.value.closed && r.value.codec == codec && r.value.magic == magic
      ensures r.Ok? ==> r.value.endOffset == |r.value.file|
      ensures r.Ok? && file == [] ==> r.value.file == magic + freshId && r.value.entries == []
      ensures r.Ok? && file != [] ==>
                && ValidHeader(magic, file) && r.value.header == file[..HeaderSize(magic)]
                && var scan := Scan(codec, file, HeaderSize(magic), 1);
                && scan.Recovered?
                && r.value.entries == scan.entries && r.value.recordEnds == scan.ends
                && r.value.file == file[..scan.end] && r.value.repairedTail == scan.torn
      ensures r.Err? ==> r.error in {IoFailed, CorruptJournal}
      ensures r == Err(CorruptJournal) ==>
                file != [] && (!ValidHeader(magic, file) || Scan(codec, file, HeaderSize(magic), 1).Corrupt?)
    {
      var size := HeaderSize(magic);
      if file == [] {
        var writeFails: bool := *;
        if writeFails { return Err(IoFailed); }
        var j := new Journal.Attach(codec, magic, magic + freshId, magic + freshId);
        j.endOffset := size;
        ScanStart(codec, j.file, size);
        assert j.file[..size] == j.file;
        return Ok(j);
      }
      if !ValidHeader(magic, file) { return Err(CorruptJournal); }
      var j := new Journal.Attach(codec, magic, file[..size], file);
      var fault := j.ScanExisting();
      if fault.Some? { return Err(fault.value); }
      return Ok(j);
    }

    /** `scanExisting` with `repairTornTail`. */
    method ScanExisting() returns (fault: Option<JournalError>)
      requires Lawful(codec) && |header| == |magic| + JOURNAL_ID_SIZE <= |file|
      requires lastRecordId == 0 && endOffset == 0 && recordEnds == [] && entries == []
      modifies this
      ensures closed == old(closed)
      ensures var scan := Scan(codec, old(file), |header|, 1);
              && (fault == None ==>
                    && scan.Recovered? && Valid()
                    && entries == scan.entries && recordEnds == scan.ends && endOffset == scan.end
                    && file == old(file)[..scan.end] && repairedTail == (scan.torn || old(repairedTail)))
              && (fault == Some(CorruptJournal) ==> scan.Corrupt?)
              && (fault.Some? ==> fault.value in {CorruptJournal, IoFailed})
    {
      var offset, size := |header|, |file|;
      ScanStart(codec, file, |header|);
      while offset < size
        invariant Scanning(old(file), offset)
        invariant closed == old(closed) && repairedTail == old(repairedTail)
        decreases size - offset
      {
        ScanStopsHere(codec, file, |header|, offset, entries, recordEnds);
        if IncompleteFrame(file, offset) {
          fault := RepairTornTail(offset);
          return;
        }
        var next := TakeFrame(offset);
        if next.Err? { return Some(next.error); }
        offset := next.value;
      }
      if endOffset == 0 { endOffset := |header|; }
      ScanStopsHere(codec, file, |header|, offset, entries, recordEnds);
      return None;
    }

    /** The loop of `ScanExisting` has taken in the frames of `bytes` before `offset`. */
    ghost predicate Scanning(bytes: seq<byte>, offset: nat)
      reads this
    {
      && file == bytes
      && Scanned(codec, file, |header|, offset, entries, recordEnds)
      && lastRecordId == |entries| <= MAX_UINT64
      && endOffset == if |entries| == 0 then 0 else offset
    }

    /** One turn of that loop over a complete frame. */
    method TakeFrame(offset: nat) returns (r: Result<nat, JournalError>)
      requires Lawful(codec) && Scanning(file, offset) && offset < |file| && !IncompleteFrame(file, offset)
      modifies this
      ensures closed == old(closed) && repairedTail == old(repairedTail)
      ensures r.Ok? ==> offset < r.value && Scanning(old(file), r.value)
      ensures r.Err? ==> r.error == IoFailed || (r.error == CorruptJournal && Scan(codec, old(file), |header|, 1) == Corrupt)
    {
      var readFails: bool := *;
      if readFails { return Err(IoFailed); }
      ScanStopsHere(codec, file, |header|, offset, entries, recordEnds);
      var read := ReadAt(codec, file, offset);
      if read.Err? { return Err(CorruptJournal); }
      var (e, next) := read.value;
      if e.id != lastRecordId + 1 { return Err(CorruptJournal); }
      ScanAdvances(codec, file, |header|, offset, entries, recordEnds, e, next);
      recordEnds, lastRecordId, endOffset := recordEnds + [next], e.id, next;
      entries := entries + [e];
      return Ok(next);
    }

    method RepairTornTail(offset: nat) returns (fault: Option<JournalError>)
      requires offset <= |file|
      modifies this
      ensures closed == old(closed) && entries == old(entries) && recordEnds == old(recordEnds) && lastRecordId == old(lastRecordId)
      ensures fault == None ==> file == old(file)[..offset] && endOffset == offset && repairedTail
      ensures fault.Some? ==> fault == Some(IoFailed)
    {
      var truncateFails: bool := *;
      if truncateFails { return Some(IoFailed); }
      file := file[..offset];
      var syncFails: bool := *;
      if syncFails { return Some(IoFailed); }
      endOffset, repairedTail := offset, true;
      return None;
    }

    /** `Append`. Success means the whole frame was fsynced. A failure, wherever it happens, leaves at
        most a prefix of the frame behind the durable end, and no record more or less. */
    method Append(body: I) returns (r: Result<Record<I>, JournalError>)
      requires Valid()
      modifies this
      ensures Valid() && closed == old(closed) && repairedTail == old(repairedTail)
      ensures r == Err(Rejected) <==> !codec.accepts(body)
      ensures r.Ok? ==>
                var e := Entry(old(lastRecordId) + 1, body);
                && !closed && Encodable(codec, e)
                && entries == old(entries) + [e] && recordEnds == old(recordEnds) + [endOffset]
                && file == old(file)[..old(endOffset)] + Frame(codec, e) && endOffset == |file|
                && r.value == Record(e, endOffset)
      ensures r.Err? ==>
                && entries == old(entries) && recordEnds == old(recordEnds) && endOffset == old(endOffset)
                && (file == old(file) || file == old(file)[..endOffset] || LeavesPrefix(old(file), Entry(lastRecordId + 1, body)))
    {
      if !codec.accepts(body) { return Err(Rejected); }
      var fault := DropTail();
      if fault.Some? { return Err(fault.value); }
      var e := Entry(lastRecordId + 1, body);
      var encoded := codec.encode(e);
      if encoded == None { return Err(NotEncodable); }
      var payload := encoded.value;
      if |payload| == 0 || |payload| > MAX_PAYLOAD { return Err(NotEncodable); }
      var frame := BigEndian(|payload|) + payload + BigEndian(codec.checksum(payload));
      ScanWholeAppend(codec, file, |header|, entries, recordEnds, e);
      var ok, cut := WriteFrame(frame);
      assert file[..endOffset] == old(file)[..endOffset];
      if !ok {
        assert LeavesPrefix(old(file), e) by {
          assert file == old(file)[..endOffset] + Frame(codec, e)[..cut];
        }
        return Err(IoFailed);
      }
      var end := endOffset + |frame|;
      lastRecordId, endOffset, recordEnds := e.id, end, recordEnds + [end];
      entries := entries + [e];
      assert file[..endOffset] == file;
      return Ok(Record(e, end));
    }

    /** The checks of `Append` under its lock, and the removal of what an earlier failure left behind. */
    method DropTail() returns (fault: Option<JournalError>)
      requires Valid()
      modifies this`file
      ensures fault == None ==> !closed && lastRecordId < MAX_UINT64 && file == old(file)[..endOffset] == file[..endOffset]
      ensures fault.Some? ==> file == old(file) && fault.value in {Closed, RecordOverflow, IoFailed}
    {
      if closed { return Some(Closed); }
      if lastRecordId == MAX_UINT64 { return Some(RecordOverflow); }
      var statFails: bool := *;
      if statFails { return Some(IoFailed); }
      if |file| > endOffset {
        var truncateFails: bool := *;
        if truncateFails { return Some(IoFailed); }
        file := file[..endOffset];
      }
      return None;
    }

    /** `WriteAt` then `Sync`. The write may stop anywhere; a whole write may still fail to sync. */
    method WriteFrame(frame: seq<byte>) returns (ok: bool, ghost cut: nat)
      modifies this`file
      ensures cut <= |frame| && file == old(file) + frame[..cut]
      ensures ok ==> file == old(file) + frame
    {
      var written :| 0 <= written <= |frame|;
      cut := written;
      file := file + frame[..written];
      if written < |frame| { return false, written; }
      ok := *;
    }

    /** The file is the durable part followed by a prefix, possibly all, of the frame of `e`. */
    ghost predicate LeavesPrefix(before: seq<byte>, e: Entry<I>)
      reads this
    {
      && Lawful(codec) && lastRecordId < MAX_UINT64 && Encodable(codec, e) && endOffset <= |before|
      && exists cut :: 0 <= cut <= |Frame(codec, e)| && file == before[..endOffset] + Frame(codec, e)[..cut]
    }

    /** `readRecordAtLocked` at the start of the k-th record: only I/O can keep it from being read. */
    method ReadRecordAt(offset: nat, ghost k: nat) returns (r: Result<Record<I>, JournalError>)
      requires Valid() && k < |entries| && offset == CheckpointAt(View(), k).offset
      ensures r.Ok? ==> r.value == Record(entries[k], recordEnds[k]) && r.value.entry.id == k + 1 && r.value.endOffset == CheckpointAt(View(), k + 1).offset
      ensures r.Err? ==> r.error == IoFailed
    {
      var readFails: bool := *;
      if readFails { return Err(IoFailed); }
      ReadsRecord(codec, file, endOffset, |header|, entries, recordEnds, k);
      var (e, next) := ReadAt(codec, file, offset).value;
      return Ok(Record(e, next));
    }

    function ReadFault(c: Checkpoint): (fault: Option<JournalError>)
      reads this
      requires |header| >= |magic|
      ensures fault == None <==> !closed && CheckpointFault(View(), c) == None
    {
      if closed then Some(Closed) else CheckpointFault(View(), c)
    }

    /** The slice of the journal behind record `after`, as it is handed out. */
    ghost predicate IsSlice(records: seq<Record<I>>, after: nat)
      reads this
    {
      && after + |records| <= |entries| == |recordEnds|
      && forall k {:trigger records[k]} :: 0 <= k < |records| ==> records[k] == Record(entries[after + k], recordEnds[after + k])
    }

    /** `RecordsAfter`: the records behind a valid checkpoint, at most `limit` of them if `limit` is positive. */
    method RecordsAfter(c: Checkpoint, limit: int) returns (r: Result<seq<Record<I>>, JournalError>)
      requires Valid()
      ensures r.Ok? ==>
                && ReadFault(c) == None && IsSlice(r.value, c.recordId)
                && var rest := lastRecordId - c.recordId;
                && |r.value| == if 0 < limit < rest then limit else rest
      ensures r.Err? ==> r.error == if ReadFault(c).Some? then ReadFault(c).value else IoFailed
    {
      var fault := ReadFault(c);
      if fault.Some? { return Err(fault.value); }
      if c.recordId == lastRecordId { return Ok([]); }
      var count := lastRecordId - c.recordId;
      if 0 < limit < count { count := limit; }
      var out: seq<Record<I>> := [];
      var offset, expected := c.offset, c.recordId + 1;
      while |out| < count
        invariant |out| <= count && expected == c.recordId + |out| + 1
        invariant IsSlice(out, c.recordId)
        invariant offset == CheckpointAt(View(), expected - 1).offset
      {
        var read := ReadRecordAt(offset, expected - 1);
        if read.Err? { return Err(read.error); }
        var record := read.value;
        if record.entry.id != expected { return Err(CorruptJournal); }
        out := out + [record];
        offset, expected := record.endOffset, expected + 1;
      }
      return Ok(out);
    }

    /** `checkpointForRecord`: only for a record this journal holds, at the offset where it ends. */
    function CheckpointFor(record: Record<I>): (r: Result<Checkpoint, JournalError>)
      reads this
      requires Valid()
      ensures r.Ok? ==> CheckpointFault(View(), r.value) == None && r.value.recordId == record.entry.id > 0
    {
      if closed then Err(Closed)
      else if record.entry.id == 0 || record.entry.id > lastRecordId then Err(CheckpointAhead)
      else if record.endOffset != recordEnds[record.entry.id - 1] then Err(OffsetMismatch)
      else Ok(Checkpoint(JournalId(), record.entry.id, record.endOffset))
    }

    function InitialCheckpoint(): (c: Checkpoint)
      reads this
      requires Valid()
      ensures CheckpointFault(View(), c) == None
    {
      Checkpoint(JournalId(), 0, |header|)
    }
  }

  /** The loop of `scanExisting` has taken in the frames before `offset`. */
  ghost predicate Scanned<I>(codec: Codec<I>, file: seq<byte>, start: nat, offset: nat, entries: seq<Entry<I>>, ends: seq<nat>) {
    && start <= offset <= |file|
    && Intact(codec, file[..offset], start, 1, entries, ends)
    && Scan(codec, file, start, 1) == Joined(entries, ends, Scan(codec, file, offset, |entries| + 1))
  }

  lemma ScanStart<I>(codec: Codec<I>, file: seq<byte>, start: nat)
    requires start <= |file|
    ensures Scanned(codec, file, start, start, [], [])
  {
    var r := Scan(codec, file, start, 1);
    assert r.Recovered? ==> [] + r.entries == r.entries && [] + r.ends == r.ends;
  }

  /** The bytes at `offset` announce a frame the file does not hold completely. */
  predicate IncompleteFrame(file: seq<byte>, offset: nat)
    requires offset <= |file|
  {
    0 < |file| - offset < 4 ||
    (4 <= |file| - offset &&
     var length := FromBigEndian(file[offset..offset + 4]);
     0 < length <= MAX_PAYLOAD && |file| < offset + 4 + length + 4)
  }

  /** What the whole scan returns if the loop stops at `offset`. */
  lemma ScanStopsHere<I>(codec: Codec<I>, file: seq<byte>, start: nat, offset: nat, entries: seq<Entry<I>>, ends: seq<nat>)
    requires Scanned(codec, file, start, offset, entries, ends)
    ensures var whole := Scan(codec, file, start, 1);
            && (offset == |file| ==> whole == Recovered(entries, ends, offset, false))
            && (IncompleteFrame(file, offset) ==> whole == Recovered(entries, ends, offset, true))
            && (offset < |file| && !IncompleteFrame(file, offset)
                && (ReadAt(codec, file, offset).Err? || ReadAt(codec, file, offset).value.0.id != |entries| + 1)
                ==> whole == Corrupt)
    ensures Intact(codec, file[..offset][..offset], start, 1, entries, ends)
  {
    assert entries + [] == entries && ends + [] == ends;
    assert file[..offset][..offset] == file[..offset];
  }

  /** The loop of `scanExisting` moves over one frame. */
  lemma ScanAdvances<I>(codec: Codec<I>, file: seq<byte>, start: nat, offset: nat, entries: seq<Entry<I>>, ends: seq<nat>, e: Entry<I>, next: nat)
    requires Scanned(codec, file, start, offset, entries, ends)
    requires ReadAt(codec, file, offset) == Ok((e, next)) && e.id == |entries| + 1
    ensures Scanned(codec, file, start, next, entries + [e], ends + [next])
  {
    ScanStep(codec, file, offset, e, next);
    JoinedOneMore(entries + [e], ends + [next], entries, ends, Scan(codec, file, next, e.id + 1));
    IntactAdvances(codec, file, start, offset, entries, ends, e, next);
  }

  lemma JoinedOneMore<I>(longer: seq<Entry<I>>, longerEnds: seq<nat>, entries: seq<Entry<I>>, ends: seq<nat>, r: ScanResult<I>)
    requires |longer| == |longerEnds| == |entries| + 1 == |ends| + 1
    requires longer[..|entries|] == entries && longerEnds[..|ends|] == ends
    ensures Joined(entries, ends, Joined([longer[|entries|]], [longerEnds[|ends|]], r)) == Joined(longer, longerEnds, r)
  {
    if r.Recovered? {
      assert entries + ([longer[|entries|]] + r.entries) == longer + r.entries;
      assert ends + ([longerEnds[|ends|]] + r.ends) == longerEnds + r.ends;
    }
  }

  lemma IntactAdvances<I>(codec: Codec<I>, file: seq<byte>, start: nat, offset: nat, entries: seq<Entry<I>>, ends: seq<nat>, e: Entry<I>, next: nat)
    requires offset <= |file| && Intact(codec, file[..offset], start, 1, entries, ends)
    requires ReadAt(codec, file, offset) == Ok((e, next)) && e.id == |entries| + 1
    ensures Intact(codec, file[..next], start, 1, entries + [e], ends + [next])
  {
    ReadIsShort(codec, file, offset, e, next);
    ScanStep(codec, file[..next], offset, e, next);
    ScanComposes(codec, file[..offset], file[..next], start, 1, entries, ends);
    assert [e] + [] == [e] && [next] + [] == [next];
  }

  /** The atomic checkpoint file. `None` is a file that does not exist. */
  class CheckpointStore {
    var saved: Cell<Option<Checkpoint>>

    constructor (saved: Cell<Option<Checkpoint>>)
      ensures this.saved == saved
    {
      this.saved := saved;
    }

    method Load<I(!new, ==)>(journal: Journal<I>) returns (r: Result<Checkpoint, JournalError>)
      requires journal.Valid()
      ensures r.Ok? ==>
                && CheckpointFault(journal.View(), r.value) == None
                && r.value == if saved.visible.Some? then saved.visible.value else journal.InitialCheckpoint()
      ensures r.Err? && r.error != IoFailed ==>
                saved.visible.Some? && CheckpointFault(journal.View(), saved.visible.value) == Some(r.error)
    {
      var readFails: bool := *;
      if readFails { return Err(IoFailed); }
      match saved.visible {
        case None => return Ok(journal.InitialCheckpoint());
        case Some(c) =>
          var fault := CheckpointFault(journal.View(), c);
          if fault.Some? { return Err(fault.value); }
          return Ok(c);
      }
    }

    /** Temp file, rename, directory sync. The old checkpoint stays in force until the rename; a crash
        may bring it back until the directory sync has returned. */
    method Save<I(!new, ==)>(journal: Journal<I>, record: Record<I>) returns (r: Result<Checkpoint, JournalError>)
      requires journal.Valid()
      modifies this
      ensures var c := journal.CheckpointFor(record);
              && (c.Err? ==> r == c && saved == old(saved))
              && (r.Ok? ==> r == c && saved == old(saved).Rename(Some(r.value)).Sync())
              && (c.Ok? && r.Err? ==>
                    r.error == IoFailed && (saved == old(saved) || saved == old(saved).Rename(Some(c.value))))
    {
      r := journal.CheckpointFor(record);
      if r.Err? { return; }
      var writeFails: bool := *;
      if writeFails { return Err(IoFailed); }
      saved := saved.Rename(Some(r.value));
      var syncFails: bool := *;
      if syncFails { return Err(IoFailed); }
      saved := saved.Sync();
    }
  }
}
