/** Where the guarantees of the save pipeline end: for each condition of `Prudent` what a power loss may do
    once it is broken, and that it may do so exactly then; and the runs of the code that break it. */
module SaveLimits {
  import opened Outcomes
  import opened Framing
  import opened Journals
  import opened Snapshots
  import opened SaveMachine

  // ----- a checkpoint over a store directory that is not synced -----

  /** The checkpoint a power loss left covers a record that the store it left does not have. */
  ghost predicate SaveLost(cfg: Config, s: State) {
    !s.up && IsAt(cfg, s.ends, s.saved.visible, |s.ends|) && !Shows(cfg, s.log, s.store)
  }

  ghost predicate MayLoseTheSave(cfg: Config, s: State) {
    exists crash: Action :: crash.Crash? && Enabled(cfg, s, crash) && SaveLost(cfg, Step(cfg, s, crash))
  }

  /** The store as it is visible, with one file as it may have been before. */
  function GoneBack(store: Store, id: string, r: Option<StoreRecord>): map<string, Option<StoreRecord>> {
    map k | k in store :: if k == id then r else store[k].visible
  }

  lemma OldVersionCanBeLeft(cfg: Config, s: State, id: string, r: Option<StoreRecord>)
    requires Inv(cfg, s) && Enabled(cfg, s, CheckpointRename) && r in At(s.store, id).others
    ensures MayLoseTheSave(cfg, Step(cfg, s, CheckpointRename))
  {
    OneOpen(cfg, s);
    var t := Step(cfg, s, CheckpointRename);
    assert id in s.store;
    var crash := Crash(|t.file|, t.saved.visible, GoneBack(s.store, id, r));
    assert Enabled(cfg, t, crash);
    var u := Step(cfg, t, crash);
    assert At(u.store, id).visible == r != After(cfg, s.log, id);
    assert SaveLost(cfg, u);
  }

  lemma SettledStoreIsKept(cfg: Config, s: State, t: State, crash: Action)
    requires crash.Crash? && t.store == s.store && t.log == s.log && AllSettled(s.store) && Shows(cfg, s.log, s.store)
    requires Enabled(cfg, t, crash) && crash.kept >= t.endOffset
    ensures !SaveLost(cfg, Step(cfg, t, crash))
  {
    var left := Step(cfg, t, crash).store;
    forall id ensures At(left, id).visible == After(cfg, s.log, id) {
      assert id in s.store <==> id in crash.storeLeft.Keys;
      assert At(s.store, id).Settled();
    }
  }

  /** Moving the checkpoint puts the save at risk exactly when the last directory sync of the store has not
      returned. */
  lemma CheckpointRisksTheSaveExactlyWhen(cfg: Config, s: State)
    requires Inv(cfg, s) && Enabled(cfg, s, CheckpointRename)
    ensures MayLoseTheSave(cfg, Step(cfg, s, CheckpointRename)) <==> !AllSettled(s.store)
  {
    var t := Step(cfg, s, CheckpointRename);
    OneOpen(cfg, s);
    if AllSettled(s.store) {
      forall crash: Action | crash.Crash? && Enabled(cfg, t, crash) ensures !SaveLost(cfg, Step(cfg, t, crash)) {
        SettledStoreIsKept(cfg, s, t, crash);
      }
    } else {
      var id :| id in s.store && !s.store[id].Settled();
      var r :| r in s.store[id].others;
      OldVersionCanBeLeft(cfg, s, id, r);
    }
  }

  // ----- a record stored that is not synced -----

  /** The store a power loss left is ahead of the journal that is then opened. */
  ghost predicate StoreAhead(cfg: Config, down: State) {
    && Enabled(cfg, down, Restart)
    && var up := Step(cfg, down, Restart);
    && exists id :: Revision(At(up.store, id).visible) > Revision(After(cfg, up.log, id))
  }

  ghost predicate MayLoseTheRecord(cfg: Config, s: State) {
    exists crash: Action :: crash.Crash? && Enabled(cfg, s, crash) && StoreAhead(cfg, Step(cfg, s, crash))
  }

  function Visible(store: Store): map<string, Option<StoreRecord>> {
    map id | id in store :: store[id].visible
  }

  /** The power goes before anything further is synced, and takes nothing that is visible but the bytes
      behind the synced ones. */
  function CutAtSynced(s: State): Action {
    Crash(s.synced, s.saved.visible, Visible(s.store))
  }

  lemma ShorterScan(cfg: Config, s: State)
    requires Inv(cfg, s) && s.synced < s.endOffset
    ensures var scan := Scan(cfg.codec, s.file[..s.synced], |cfg.header|, 1);
            scan.Recovered? && scan.entries == Prefix(s.log) && scan.ends == s.ends[..|s.ends| - 1]
  {
    var whole := s.file[..s.endOffset];
    assert whole[..s.synced] == s.file[..s.synced];
    CutThroughTheLast(cfg.codec, whole, |cfg.header|, s.log, s.ends, s.synced);
  }

  /** The start after that finds the journal without its last record. */
  lemma CutIsFound(cfg: Config, s: State, down: State)
    requires Inv(cfg, s) && s.synced < s.endOffset
    requires !down.up && down.file == s.file[..s.synced] && down.saved.visible == s.saved.visible
    ensures Enabled(cfg, down, Restart) && Step(cfg, down, Restart).log == Prefix(s.log) && Step(cfg, down, Restart).store == down.store
  {
    ShorterScan(cfg, s);
    assert cfg.header <= s.file[..s.synced];
  }

  lemma UnsyncedRecordCanGo(cfg: Config, s: State)
    requires Inv(cfg, s) && Enabled(cfg, s, StoreRename) && s.synced < s.endOffset
    ensures MayLoseTheRecord(cfg, Step(cfg, s, StoreRename))
  {
    var t := Step(cfg, s, StoreRename);
    var id := Current(s).body.intent.identity.id;
    OneOpen(cfg, s);
    LastRecord(cfg, s.log);
    var down := Step(cfg, t, CutAtSynced(t));
    CutIsFound(cfg, s, down);
    assert Revision(At(down.store, id).visible) == Current(s).body.expectedRevision + 1;
    assert StoreAhead(cfg, down);
  }

  lemma SyncedRecordStays(cfg: Config, s: State, crash: Action)
    requires Inv(cfg, s) && crash.Crash? && Enabled(cfg, s, crash)
    ensures !StoreAhead(cfg, Step(cfg, s, crash))
  {
    var down := Step(cfg, s, crash);
    StepKeeps(cfg, s, crash);
    if Enabled(cfg, down, Restart) {
      RestartKeeps(cfg, down);
      var up := Step(cfg, down, Restart);
      forall id ensures Revision(At(up.store, id).visible) <= Revision(After(cfg, up.log, id)) {
        NotAheadOfTheJournal(cfg, up.log, up.store, id);
      }
    }
  }

  lemma NotAheadOfTheJournal(cfg: Config, log: seq<Entry<Command>>, store: Store, id: string)
    requires StoreWithin(cfg, log, store)
    ensures Revision(At(store, id).visible) <= Revision(After(cfg, log, id))
  {
    assert At(store, id).Survives(At(store, id).visible);
  }

  /** Storing a record may leave the store ahead of the journal exactly when the record is not synced. */
  lemma StoringRisksTheRecordExactlyWhen(cfg: Config, s: State)
    requires Inv(cfg, s) && Enabled(cfg, s, StoreRename)
    ensures MayLoseTheRecord(cfg, Step(cfg, s, StoreRename)) <==> s.synced < s.endOffset
  {
    if s.synced < s.endOffset {
      UnsyncedRecordCanGo(cfg, s);
    } else {
      StoreRenameKeeps(cfg, s);
      forall crash: Action | crash.Crash? && Enabled(cfg, Step(cfg, s, StoreRename), crash)
        ensures !StoreAhead(cfg, Step(cfg, Step(cfg, s, StoreRename), crash))
      {
        SyncedRecordStays(cfg, Step(cfg, s, StoreRename), crash);
      }
    }
  }

  // ----- a record written over a checkpoint that is not synced -----

  /** A restart finds two records behind the checkpoint a power loss left. */
  ghost predicate TwoOpen(cfg: Config, down: State) {
    Enabled(cfg, down, Restart) && Step(cfg, down, Restart).checkpoint.recordId + 2 <= |Step(cfg, down, Restart).log|
  }

  ghost predicate MayOpenTwo(cfg: Config, s: State) {
    exists crash: Action :: crash.Crash? && Enabled(cfg, s, crash) && TwoOpen(cfg, Step(cfg, s, crash))
  }

  /** The power goes and takes the last checkpoint with it. */
  function TakingTheCheckpoint(s: State, v: Option<Checkpoint>): Action {
    Crash(|s.file|, v, Visible(s.store))
  }

  ghost predicate CanWriteWhole(cfg: Config, s: State) {
    && s.up && s.stage.Idle? && CaughtUp(s) && s.outbox != [] && |s.file| == s.endOffset && |s.log| < MAX_UINT64
    && Sound(cfg) && Encodable(cfg.codec, NextEntry(s))
  }

  ghost function Whole(cfg: Config, s: State): Action
    requires Sound(cfg) && s.outbox != [] && Encodable(cfg.codec, NextEntry(s))
  {
    WriteFrame(|Frame(cfg.codec, NextEntry(s))|)
  }

  /** The checkpoint that a caught-up process has not synced may go back by one. */
  lemma CheckpointCanGoBack(cfg: Config, s: State) returns (v: Option<Checkpoint>)
    requires Inv(cfg, s) && s.up && CaughtUp(s) && !s.saved.Settled()
    ensures v in s.saved.others && s.log != [] && IsAt(cfg, s.ends, v, |s.ends| - 1)
  {
    v :| v in s.saved.others;
    assert s.saved.Survives(v);
  }

  /** What a restart finds behind a whole frame that was written over `s`. */
  lemma WrittenFrameIsFound(cfg: Config, s: State)
    requires Inv(cfg, s) && CanWriteWhole(cfg, s)
    ensures var file := s.file + Frame(cfg.codec, NextEntry(s));
            && Extends(cfg, s.log, NextEntry(s))
            && JournalOk(cfg, s.log + [NextEntry(s)], s.ends + [|file|], |file|, file)
            && Scan(cfg.codec, file, |cfg.header|, 1) == Recovered(s.log + [NextEntry(s)], s.ends + [|file|], |file|, false)
  {
    var e, file := NextEntry(s), s.file + Frame(cfg.codec, NextEntry(s));
    QuietMeansStored(cfg, s);
    assert file[..s.endOffset] == s.file[..s.endOffset] && file[s.endOffset..] == Frame(cfg.codec, e);
    JournalMore(cfg, s.log, s.ends, s.endOffset, file, e);
    WholeScan(cfg, s.log + [e], s.ends + [|file|], file);
  }

  /** The start after a power loss that left the frame and took the checkpoint back. */
  lemma FindsTwo(cfg: Config, s: State, down: State)
    requires Inv(cfg, s) && CanWriteWhole(cfg, s) && s.log != []
    requires !down.up && down.file == s.file + Frame(cfg.codec, NextEntry(s)) && IsAt(cfg, s.ends, down.saved.visible, |s.ends| - 1)
    ensures Enabled(cfg, down, Restart)
    ensures var up := Step(cfg, down, Restart);
            up.up && up.stage == down.stage && up.store == down.store && up.log == s.log + [NextEntry(s)] && up.checkpoint.recordId == |s.log| - 1
  {
    WrittenFrameIsFound(cfg, s);
    IsStillAt(cfg, s.ends, |down.file|, down.saved.visible);
  }

  lemma UnsyncedCheckpointLeavesTwo(cfg: Config, s: State)
    requires Inv(cfg, s) && CanWriteWhole(cfg, s) && !s.saved.Settled()
    ensures MayOpenTwo(cfg, Step(cfg, s, Whole(cfg, s)))
  {
    var v := CheckpointCanGoBack(cfg, s);
    var t := Step(cfg, s, Whole(cfg, s));
    var frame := Frame(cfg.codec, NextEntry(s));
    assert frame[..|frame|] == frame && t.file == s.file + frame && t.file[..|t.file|] == t.file;
    var crash := TakingTheCheckpoint(t, v);
    assert Enabled(cfg, t, crash);
    FindsTwo(cfg, s, Step(cfg, t, crash));
    assert TwoOpen(cfg, Step(cfg, t, crash));
  }

  /** Writing a whole frame may leave two records open exactly when the checkpoint before it is not synced. */
  lemma WritingRisksTwoOpenExactlyWhen(cfg: Config, s: State)
    requires Inv(cfg, s) && CanWriteWhole(cfg, s)
    ensures MayOpenTwo(cfg, Step(cfg, s, Whole(cfg, s))) <==> !s.saved.Settled()
  {
    if s.saved.Settled() {
      var t := Step(cfg, s, Whole(cfg, s));
      StepKeeps(cfg, s, Whole(cfg, s));
      forall crash: Action | crash.Crash? && Enabled(cfg, t, crash) ensures !TwoOpen(cfg, Step(cfg, t, crash)) {
        StepKeeps(cfg, t, crash);
        RestartSucceeds(cfg, Step(cfg, t, crash));
      }
    } else {
      UnsyncedCheckpointLeavesTwo(cfg, s);
    }
  }

  // ----- runs of the code that get there -----

  /** A quiet process with a record to write and nothing in doubt. */
  ghost predicate CanSend(cfg: Config, s: State) {
    Inv(cfg, s) && CanWriteWhole(cfg, s) && s.saved.Settled()
  }

  /** The process with its outbox head durably journaled and confirmed. */
  ghost function Sent(cfg: Config, s: State): State
    requires CanWriteWhole(cfg, s)
  {
    var file := s.file + Frame(cfg.codec, NextEntry(s));
    s.(file := file, synced := |file|, log := s.log + [NextEntry(s)], ends := s.ends + [|file|], endOffset := |file|,
       outbox := s.outbox[1..], stage := Applying)
  }

  /** The store with the record of the outbox head renamed into place. */
  function Stored(cfg: Config, s: State): Store
    requires s.outbox != []
  {
    var id := s.outbox[0].identity.id;
    s.store[id := At(s.store, id).Rename(Some(StoreRecord(NextEntry(s).body.expectedRevision + 1, cfg.stored(s.outbox[0].snapshot))))]
  }

  /** No call fails and the power stays on. */
  predicate Flawless(actions: seq<Action>) {
    forall a :: a in actions ==> !a.Fail? && !a.Crash?
  }

  lemma FlawlessJoin(first: seq<Action>, then_: seq<Action>)
    requires Flawless(first) && Flawless(then_)
    ensures Flawless(first + then_)
  {
  }

  lemma JournalsHead(cfg: Config, s: State) returns (actions: seq<Action>)
    requires CanWriteWhole(cfg, s)
    ensures Runs(cfg, s, actions) && End(cfg, s, actions) == Sent(cfg, s)
    ensures s.saved.Settled() ==> PrudentRun(cfg, s, actions)
    ensures Flawless(actions)
  {
    var frame := Frame(cfg.codec, NextEntry(s));
    assert frame[..|frame|] == frame;
    actions := [];
    RunsOn(cfg, s, actions, WriteFrame(|frame|));
    actions := actions + [WriteFrame(|frame|)];
    RunsOn(cfg, s, actions, SyncFrame);
    actions := actions + [SyncFrame];
    RunsOn(cfg, s, actions, Confirm);
    actions := actions + [Confirm];
  }

  /** The head of the outbox goes to the journal and, by rename, into the store. */
  lemma SendHead(cfg: Config, s: State) returns (actions: seq<Action>)
    requires CanWriteWhole(cfg, s) && s.checkpoint.recordId == |s.log|
    ensures Runs(cfg, s, actions) && End(cfg, s, actions) == Sent(cfg, s).(stage := Renamed, store := Stored(cfg, s))
    ensures s.saved.Settled() ==> PrudentRun(cfg, s, actions)
    ensures Flawless(actions)
  {
    actions := JournalsHead(cfg, s);
    assert Current(Sent(cfg, s)) == NextEntry(s);
    RunsOn(cfg, s, actions, StoreRename);
    actions := actions + [StoreRename];
  }

  /** The old record of the character may come back until the directory is synced. */
  lemma OldRecordSurvives(cfg: Config, s: State)
    requires CanSend(cfg, s)
    ensures !AllSettled(Stored(cfg, s))
  {
    var id := s.outbox[0].identity.id;
    assert Stored(cfg, s)[id].others != {} by {
      assert Revision(At(s.store, id).visible) < Revision(Stored(cfg, s)[id].visible);
      assert At(s.store, id).visible in Stored(cfg, s)[id].others;
    }
  }

  /** A new journal, and an intent the codec takes: the process can send it. */
  lemma FreshCanSend(cfg: Config, i: Intent)
    requires Sound(cfg) && cfg.enqueues(i) && i.intentId == 1 && cfg.capacity > 0
    requires Encodable(cfg.codec, Entry(1, Command(Revision(At(Start(cfg).store, i.identity.id).visible), i)))
    ensures var actions := [Restart, Enqueue(i)];
            && Runs(cfg, Start(cfg), actions) && PrudentRun(cfg, Start(cfg), actions) && CanSend(cfg, End(cfg, Start(cfg), actions))
            && End(cfg, Start(cfg), actions).outbox == [i] && End(cfg, Start(cfg), actions).store == Start(cfg).store
  {
    StartIsFine(cfg);
    RestartsAsItWas(cfg, Start(cfg));
    var up := Step(cfg, Start(cfg), Restart);
    RunsOn(cfg, Start(cfg), [], Restart);
    RunsOn(cfg, Start(cfg), [Restart], Enqueue(i));
    assert [] + [Restart] == [Restart] && [Restart] + [Enqueue(i)] == [Restart, Enqueue(i)];
    RunKeeps(cfg, Start(cfg), [Restart, Enqueue(i)]);
    assert End(cfg, Start(cfg), [Restart, Enqueue(i)]) == up.(outbox := [i], session := [i]);
  }

  lemma StoredIsKept(cfg: Config, s: State)
    requires CanSend(cfg, s)
    ensures Inv(cfg, Sent(cfg, s).(stage := Renamed, store := Stored(cfg, s)))
  {
    var actions := SendHead(cfg, s);
    RunKeeps(cfg, s, actions);
  }

  /** The next call finds the record in place, skips it and moves the checkpoint. */
  lemma RetryMayLoseIt(cfg: Config, s: State) returns (actions: seq<Action>)
    requires Inv(cfg, s) && s.up && s.stage.Idle? && AlreadyApplied(s) && !SaveApplies(s) && !AllSettled(s.store)
    ensures actions == [Fetch, Skip] + [CheckpointRename] && Runs(cfg, s, actions) && MayLoseTheSave(cfg, End(cfg, s, actions))
  {
    RetrySkips(cfg, s);
    CheckpointRisksTheSaveExactlyWhen(cfg, s.(stage := Applied));
    RunsOn(cfg, s, [Fetch, Skip], CheckpointRename);
    actions := [Fetch, Skip] + [CheckpointRename];
  }

  lemma RetrySkips(cfg: Config, s: State)
    requires Inv(cfg, s) && s.up && s.stage.Idle? && AlreadyApplied(s)
    ensures Runs(cfg, s, [Fetch, Skip]) && End(cfg, s, [Fetch, Skip]) == s.(stage := Applied) && Inv(cfg, s.(stage := Applied))
    ensures Enabled(cfg, s.(stage := Applied), CheckpointRename)
  {
    StepKeeps(cfg, s, Fetch);
    SkipKeeps(cfg, Step(cfg, s, Fetch));
    RunsOn(cfg, s, [], Fetch);
    RunsOn(cfg, s, [Fetch], Skip);
    assert [] + [Fetch] == [Fetch] && [Fetch] + [Skip] == [Fetch, Skip];
  }

  /** A directory sync of the store fails and the process goes on: one more step of the code and a power loss
      may lose the save. */
  lemma FailedSyncReachesTheRisk(cfg: Config, s: State) returns (actions: seq<Action>)
    requires CanSend(cfg, s) && Stable(cfg, s.outbox[0].snapshot)
    ensures Runs(cfg, s, actions) && MayLoseTheSave(cfg, End(cfg, s, actions))
  {
    var sent := SendHead(cfg, s);
    var renamed := End(cfg, s, sent);
    StoredIsKept(cfg, s);
    OldRecordSurvives(cfg, s);
    RunsOn(cfg, s, sent, Fail);
    StepKeeps(cfg, renamed, Fail);
    assert Current(renamed) == NextEntry(s);
    var retry := RetryMayLoseIt(cfg, Step(cfg, renamed, Fail));
    RunsJoin(cfg, s, sent + [Fail], retry);
    actions := sent + [Fail] + retry;
  }

  /** The process found again after its death, with nothing behind the last record. */
  function Reborn(cfg: Config, s: State): State {
    s.(up := true, stage := Idle, outbox := [], session := [], booted := |s.log|,
       checkpoint := if s.saved.visible.Some? then s.saved.visible.value else Checkpoint(cfg.journalId, 0, |cfg.header|))
  }

  lemma DiesAndRestarts(cfg: Config, s: State)
    requires Inv(cfg, s) && s.up && s.endOffset == |s.file|
    ensures Runs(cfg, s, [Die, Restart]) && End(cfg, s, [Die, Restart]) == Reborn(cfg, s) && Inv(cfg, Reborn(cfg, s))
  {
    var down := Step(cfg, s, Die);
    DieKeeps(cfg, s);
    RestartsAsItWas(cfg, down);
    RestartKeeps(cfg, down);
    RunsOn(cfg, s, [], Die);
    RunsOn(cfg, s, [Die], Restart);
    assert [] + [Die] == [Die] && [Die] + [Restart] == [Die, Restart];
  }

  lemma RebornWithTheSave(cfg: Config, s: State)
    requires CanSend(cfg, s) && Stable(cfg, s.outbox[0].snapshot)
    ensures var t := Reborn(cfg, Sent(cfg, s).(stage := Renamed, store := Stored(cfg, s)));
            AlreadyApplied(t) && !SaveApplies(t)
  {
    FoundCheckpoint(cfg, s);
    assert Current(Reborn(cfg, Sent(cfg, s).(stage := Renamed, store := Stored(cfg, s)))) == NextEntry(s);
  }

  /** No call fails: the process only dies between the rename of a store record and the sync of the directory.
      The next one gets to the point where a power loss may lose the save. */
  lemma DeathBeforeTheDirectorySync(cfg: Config, s: State) returns (actions: seq<Action>)
    requires CanSend(cfg, s) && Stable(cfg, s.outbox[0].snapshot)
    ensures Runs(cfg, s, actions) && MayLoseTheSave(cfg, End(cfg, s, actions)) && Flawless(actions)
  {
    var dies := DiesBehindTheRename(cfg, s);
    RebornWithTheSave(cfg, s);
    OldRecordSurvives(cfg, s);
    actions := RetryBehind(cfg, s, dies, Reborn(cfg, Sent(cfg, s).(stage := Renamed, store := Stored(cfg, s))));
  }

  lemma RetryBehind(cfg: Config, s: State, before: seq<Action>, t: State) returns (actions: seq<Action>)
    requires Runs(cfg, s, before) && Flawless(before) && End(cfg, s, before) == t
    requires Inv(cfg, t) && t.up && t.stage.Idle? && AlreadyApplied(t) && !SaveApplies(t) && !AllSettled(t.store)
    ensures Runs(cfg, s, actions) && MayLoseTheSave(cfg, End(cfg, s, actions)) && Flawless(actions)
  {
    var retry := RetryMayLoseIt(cfg, t);
    RunsJoin(cfg, s, before, retry);
    FlawlessJoin(before, retry);
    actions := before + retry;
  }

  lemma DiesBehindTheRename(cfg: Config, s: State) returns (actions: seq<Action>)
    requires CanSend(cfg, s)
    ensures Runs(cfg, s, actions) && Flawless(actions)
    ensures var t := Reborn(cfg, Sent(cfg, s).(stage := Renamed, store := Stored(cfg, s)));
            End(cfg, s, actions) == t && Inv(cfg, t) && t.up && t.stage.Idle?
  {
    var sent := SendHead(cfg, s);
    StoredIsKept(cfg, s);
    DiesAndRestarts(cfg, End(cfg, s, sent));
    RunsJoin(cfg, s, sent, [Die, Restart]);
    FlawlessJoin(sent, [Die, Restart]);
    actions := sent + [Die, Restart];
  }

  // ----- a frame that is applied before it is synced -----

  /** The next start is refused: the checkpoint is ahead of the journal. */
  ghost predicate RefusedAsAhead(cfg: Config, down: State) {
    && !down.up && cfg.header <= down.file && down.saved.visible.Some?
    && var scan := Scan(cfg.codec, down.file, |cfg.header|, 1);
    && scan.Recovered? && CheckpointFault(Tables(cfg.journalId, |cfg.header|, scan.ends), down.saved.visible.value) == Some(CheckpointAhead)
  }

  /** The process found again after it died with a whole frame written and not synced. */
  ghost function RebornWithFrame(cfg: Config, s: State): State
    requires CanWriteWhole(cfg, s)
  {
    var file := s.file + Frame(cfg.codec, NextEntry(s));
    State(true, Idle, [], [], |s.log| + 1, s.log + [NextEntry(s)], s.ends + [|file|], |file|, s.checkpoint, file, s.synced, s.saved, s.store)
  }

  /** The dead process that wrote the frame. */
  ghost function DeadWithFrame(cfg: Config, s: State): State
    requires CanWriteWhole(cfg, s)
  {
    s.(up := false, stage := Idle, outbox := [], session := [], file := s.file + Frame(cfg.codec, NextEntry(s)))
  }

  lemma FindsTheFrame(cfg: Config, s: State)
    requires CanSend(cfg, s)
    ensures Enabled(cfg, DeadWithFrame(cfg, s), Restart) && Step(cfg, DeadWithFrame(cfg, s), Restart) == RebornWithFrame(cfg, s)
  {
    var down := DeadWithFrame(cfg, s);
    WrittenFrameIsFound(cfg, s);
    FoundCheckpoint(cfg, s);
    IsStillAt(cfg, s.ends, |down.file|, s.saved.visible);
    assert down.file[..|down.file|] == down.file;
  }

  lemma DiesBehindTheFrame(cfg: Config, s: State) returns (actions: seq<Action>)
    requires CanSend(cfg, s)
    ensures Runs(cfg, s, actions) && End(cfg, s, actions) == RebornWithFrame(cfg, s) && Flawless(actions)
  {
    var frame := Frame(cfg.codec, NextEntry(s));
    assert frame[..|frame|] == frame;
    RunsOn(cfg, s, [], Whole(cfg, s));
    assert [] + [Whole(cfg, s)] == [Whole(cfg, s)];
    RunsOn(cfg, s, [Whole(cfg, s)], Die);
    actions := [Whole(cfg, s)] + [Die];
    assert End(cfg, s, actions) == DeadWithFrame(cfg, s);
    FindsTheFrame(cfg, s);
    RunsOn(cfg, s, actions, Restart);
    actions := actions + [Restart];
  }

  /** From an open record that is due to the moved checkpoint, prudent or not. */
  function Through(cfg: Config, s: State): State
    requires HasCurrent(s) && s.checkpoint.recordId < |s.ends|
  {
    var c := CheckpointAt(View(cfg, s), s.checkpoint.recordId + 1);
    s.(store := SyncAll(Renaming(cfg, s)), saved := s.saved.Rename(Some(c)).Sync(), checkpoint := c, stage := Idle)
  }

  lemma GoesThrough(cfg: Config, s: State)
    requires s.up && s.stage.Idle? && SaveApplies(s) && s.checkpoint.recordId < |s.ends|
    ensures var actions := [Fetch, StoreRename, StoreSync] + [CheckpointRename, CheckpointSync];
            Runs(cfg, s, actions) && End(cfg, s, actions) == Through(cfg, s)
  {
    StoreGoesThrough(cfg, s);
    CheckpointGoesThrough(cfg, End(cfg, s, [Fetch, StoreRename, StoreSync]));
    RunsJoin(cfg, s, [Fetch, StoreRename, StoreSync], [CheckpointRename, CheckpointSync]);
  }

  lemma StoreGoesThrough(cfg: Config, s: State)
    requires s.up && s.stage.Idle? && SaveApplies(s)
    ensures Runs(cfg, s, [Fetch, StoreRename, StoreSync])
    ensures End(cfg, s, [Fetch, StoreRename, StoreSync]) == s.(store := SyncAll(Renaming(cfg, s)), stage := Applied)
  {
    RunsOn(cfg, s, [], Fetch);
    RunsOn(cfg, s, [Fetch], StoreRename);
    RunsOn(cfg, s, [Fetch, StoreRename], StoreSync);
    assert [] + [Fetch] == [Fetch] && [Fetch] + [StoreRename] == [Fetch, StoreRename];
    assert [Fetch, StoreRename] + [StoreSync] == [Fetch, StoreRename, StoreSync];
  }

  lemma CheckpointGoesThrough(cfg: Config, s: State)
    requires s.up && s.stage.Applied? && HasCurrent(s) && s.checkpoint.recordId < |s.ends|
    ensures Runs(cfg, s, [CheckpointRename, CheckpointSync])
    ensures var c := CheckpointAt(View(cfg, s), s.checkpoint.recordId + 1);
            End(cfg, s, [CheckpointRename, CheckpointSync]) == s.(saved := s.saved.Rename(Some(c)).Sync(), checkpoint := c, stage := Idle)
  {
    RunsOn(cfg, s, [], CheckpointRename);
    RunsOn(cfg, s, [CheckpointRename], CheckpointSync);
    assert [] + [CheckpointRename] == [CheckpointRename] && [CheckpointRename] + [CheckpointSync] == [CheckpointRename, CheckpointSync];
  }

  lemma LostFrameIsMissed(cfg: Config, s: State)
    requires CanSend(cfg, s)
    ensures var t := Through(cfg, RebornWithFrame(cfg, s));
            Enabled(cfg, t, CutAtSynced(t)) && RefusedAsAhead(cfg, Step(cfg, t, CutAtSynced(t)))
  {
    var t := Through(cfg, RebornWithFrame(cfg, s));
    NotAhead(cfg, s);
    assert t.file[..t.synced] == s.file;
    WholeScan(cfg, s.log, s.ends, s.file);
  }

  /** No call fails: the process only dies between the write and the sync of a frame. The next one applies the
      record and moves the checkpoint over it; then a power loss takes the frame, and no start succeeds. */
  lemma DeathBeforeTheFrameSync(cfg: Config, s: State) returns (actions: seq<Action>)
    requires CanSend(cfg, s)
    ensures Runs(cfg, s, actions) && Flawless(actions)
    ensures var t := End(cfg, s, actions);
            t.up && CaughtUp(t) && exists crash: Action :: crash.Crash? && Enabled(cfg, t, crash) && RefusedAsAhead(cfg, Step(cfg, t, crash))
  {
    var dies := DiesBehindTheFrame(cfg, s);
    var reborn := RebornWithFrame(cfg, s);
    assert s.checkpoint.recordId == |s.log| && Current(reborn) == NextEntry(s);
    GoesThrough(cfg, reborn);
    var rest := [Fetch, StoreRename, StoreSync] + [CheckpointRename, CheckpointSync];
    RunsJoin(cfg, s, dies, rest);
    actions := dies + rest;
    FlawlessJoin(dies, rest);
    LostFrameIsMissed(cfg, s);
  }

  // ----- a second save over a checkpoint that is not synced -----

  /** The restarted process finds its open record neither due nor applied. */
  ghost predicate Wedged(cfg: Config, down: State) {
    && Enabled(cfg, down, Restart)
    && var up := Step(cfg, down, Restart);
    && Enabled(cfg, up, Fetch) && Conflict(Step(cfg, up, Fetch))
  }

  ghost predicate MayWedge(cfg: Config, s: State) {
    exists crash: Action :: crash.Crash? && Enabled(cfg, s, crash) && Wedged(cfg, Step(cfg, s, crash))
  }

  /** A process that dies behind the rename of a checkpoint leaves the next one caught up over a checkpoint
      that is not synced. */
  lemma DeathWhileSaving(cfg: Config, s: State)
    requires Inv(cfg, s) && s.up && s.stage.Saving? && !s.saved.Settled()
    ensures Runs(cfg, s, [Die, Restart])
    ensures var t := End(cfg, s, [Die, Restart]);
            Inv(cfg, t) && t.up && t.stage.Idle? && CaughtUp(t) && !t.saved.Settled() && t.log == s.log && t.endOffset == |t.file|
            && t.store == s.store && t.outbox == [] == t.session
  {
    OneOpen(cfg, s);
    DiesAndRestarts(cfg, s);
    FoundCheckpoint(cfg, s);
  }

  /** The records of one character: the last two, both stored, and the checkpoint before them. */
  lemma StoredTwice(cfg: Config, s: State, down: State)
    requires Inv(cfg, s) && CanWriteWhole(cfg, s) && s.log != [] && s.outbox[0].identity.id == Last(s.log).body.intent.identity.id
    requires !down.up && down.stage.Idle?
    requires down.file == s.file + Frame(cfg.codec, NextEntry(s)) && IsAt(cfg, s.ends, down.saved.visible, |s.ends| - 1)
    requires At(down.store, s.outbox[0].identity.id).visible == At(Stored(cfg, s), s.outbox[0].identity.id).visible
    ensures Wedged(cfg, down)
  {
    QuietMeansStored(cfg, s);
    LastRecord(cfg, s.log);
    FindsTwo(cfg, s, down);
    var up := Step(cfg, down, Restart);
    TwiceIsConflict(cfg, s, Step(cfg, up, Fetch));
  }

  lemma TwiceIsConflict(cfg: Config, s: State, fetched: State)
    requires s.log != [] && s.outbox != [] && s.outbox[0].identity.id == Last(s.log).body.intent.identity.id
    requires NextEntry(s).body.expectedRevision == Last(s.log).body.expectedRevision + 1
    requires fetched.checkpoint.recordId == |s.log| - 1 && fetched.log == s.log + [NextEntry(s)]
    requires At(fetched.store, s.outbox[0].identity.id).visible == At(Stored(cfg, s), s.outbox[0].identity.id).visible
    ensures Conflict(fetched)
  {
    assert Current(fetched) == Last(s.log);
  }

  /** If the next save is for the character of the last record, a power loss that takes the checkpoint back
      leaves a journal no restart gets past. */
  lemma SecondSaveMayWedge(cfg: Config, s: State) returns (actions: seq<Action>)
    requires Inv(cfg, s) && CanWriteWhole(cfg, s) && !s.saved.Settled()
    requires s.log != [] && s.outbox[0].identity.id == Last(s.log).body.intent.identity.id
    ensures Runs(cfg, s, actions) && Flawless(actions)
    ensures var t := End(cfg, s, actions);
            t.up && MayWedge(cfg, t)
  {
    var v := CheckpointCanGoBack(cfg, s);
    actions := SendHead(cfg, s);
    var t := End(cfg, s, actions);
    var crash := TakingTheCheckpoint(t, v);
    assert t.synced == |t.file| && t.file[..|t.file|] == t.file;
    assert Enabled(cfg, t, crash);
    assert s.outbox[0].identity.id in t.store;
    StoredTwice(cfg, s, Step(cfg, t, crash));
  }

  /** The head of the outbox is saved, and its checkpoint renamed but not synced. */
  lemma SavesHead(cfg: Config, s: State) returns (actions: seq<Action>)
    requires CanSend(cfg, s)
    ensures Runs(cfg, s, actions) && Flawless(actions)
    ensures var t := End(cfg, s, actions);
            && Inv(cfg, t) && t.up && t.stage.Saving? && !t.saved.Settled()
            && |t.log| == |s.log| + 1 && Last(t.log) == NextEntry(s)
            && Revision(At(t.store, s.outbox[0].identity.id).visible) == NextEntry(s).body.expectedRevision + 1
  {
    actions := SendHead(cfg, s);
    RunsOn(cfg, s, actions, StoreSync);
    actions := actions + [StoreSync];
    RunsOn(cfg, s, actions, CheckpointRename);
    actions := actions + [CheckpointRename];
    RunKeeps(cfg, s, actions);
    assert s.saved.visible in End(cfg, s, actions).saved.others;
  }

  /** No call fails: the process only dies between the rename of a checkpoint and its sync. The next one saves the
      character once more; then a power loss takes both checkpoints, and no restart gets past the first record. */
  lemma DeathWhileSavingMayWedge(cfg: Config, s: State, i: Intent) returns (actions: seq<Action>)
    requires CanSend(cfg, s) && i.identity == s.outbox[0].identity && |s.log| + 1 < MAX_UINT64
    requires cfg.enqueues(i) && i.intentId == 1 && cfg.capacity > 0
    requires Encodable(cfg.codec, Entry(|s.log| + 2, Command(NextEntry(s).body.expectedRevision + 1, i)))
    ensures Runs(cfg, s, actions) && Flawless(actions)
    ensures var t := End(cfg, s, actions);
            t.up && MayWedge(cfg, t)
  {
    var saved := SavesHead(cfg, s);
    actions := AgainBehind(cfg, s, saved, End(cfg, s, saved), i);
  }

  lemma AgainBehind(cfg: Config, s: State, before: seq<Action>, t: State, i: Intent) returns (actions: seq<Action>)
    requires Runs(cfg, s, before) && Flawless(before) && End(cfg, s, before) == t
    requires Inv(cfg, t) && t.up && t.stage.Saving? && !t.saved.Settled() && t.log != [] && |t.log| < MAX_UINT64
    requires cfg.enqueues(i) && i.intentId == 1 && cfg.capacity > 0 && i.identity == Last(t.log).body.intent.identity
    requires Encodable(cfg.codec, Entry(|t.log| + 1, Command(Revision(At(t.store, i.identity.id).visible), i)))
    ensures Runs(cfg, s, actions) && Flawless(actions) && End(cfg, s, actions).up && MayWedge(cfg, End(cfg, s, actions))
  {
    var rest := DiesAndSavesAgain(cfg, t, i);
    RunsJoin(cfg, s, before, rest);
    FlawlessJoin(before, rest);
    actions := before + rest;
  }

  lemma DiesAndSavesAgain(cfg: Config, s: State, i: Intent) returns (actions: seq<Action>)
    requires Inv(cfg, s) && s.up && s.stage.Saving? && !s.saved.Settled() && s.log != [] && |s.log| < MAX_UINT64
    requires cfg.enqueues(i) && i.intentId == 1 && cfg.capacity > 0 && i.identity == Last(s.log).body.intent.identity
    requires Encodable(cfg.codec, Entry(|s.log| + 1, Command(Revision(At(s.store, i.identity.id).visible), i)))
    ensures Runs(cfg, s, actions) && Flawless(actions) && End(cfg, s, actions).up && MayWedge(cfg, End(cfg, s, actions))
  {
    DeathWhileSaving(cfg, s);
    var rest := SavesAgain(cfg, End(cfg, s, [Die, Restart]), i);
    RunsJoin(cfg, s, [Die, Restart], rest);
    FlawlessJoin([Die, Restart], rest);
    actions := [Die, Restart] + rest;
  }

  lemma SavesAgain(cfg: Config, s: State, i: Intent) returns (actions: seq<Action>)
    requires Inv(cfg, s) && s.up && s.stage.Idle? && CaughtUp(s) && !s.saved.Settled() && s.outbox == [] == s.session
    requires cfg.enqueues(i) && i.intentId == 1 && cfg.capacity > 0 && s.endOffset == |s.file| && |s.log| < MAX_UINT64
    requires s.log != [] && i.identity == Last(s.log).body.intent.identity
    requires Encodable(cfg.codec, Entry(|s.log| + 1, Command(Revision(At(s.store, i.identity.id).visible), i)))
    ensures Runs(cfg, s, actions) && Flawless(actions)
    ensures var t := End(cfg, s, actions);
            t.up && MayWedge(cfg, t)
  {
    EnqueueKeeps(cfg, s, i);
    var t := Step(cfg, s, Enqueue(i));
    assert t.outbox == [i];
    var rest := SecondSaveMayWedge(cfg, t);
    RunsOn(cfg, s, [], Enqueue(i));
    assert [] + [Enqueue(i)] == [Enqueue(i)];
    RunsJoin(cfg, s, [Enqueue(i)], rest);
    actions := [Enqueue(i)] + rest;
  }

  // ----- a snapshot the store rewrites -----

  /** Over a store that has the open record, no restart gets past it exactly when the store rewrote it. */
  lemma WedgedExactlyWhen(cfg: Config, s: State)
    requires Inv(cfg, s) && !s.up && s.endOffset == |s.file| && s.log != []
    requires Shows(cfg, s.log, s.store) && IsAt(cfg, s.ends, s.saved.visible, |s.ends| - 1)
    ensures Wedged(cfg, s) <==> !Stable(cfg, Last(s.log).body.intent.snapshot)
  {
    RestartsAsItWas(cfg, s);
    RestartKeeps(cfg, s);
    var up := Step(cfg, s, Restart);
    assert HasCurrent(up);
    ConflictExactlyWhen(cfg, up);
    OneOpen(cfg, up);
  }

  predicate EndsTheProcess(a: Action) {
    a.Die? || a.Crash?
  }

  /** With everything synced, the end of a process has no choice. */
  lemma EndIsForced(cfg: Config, s: State, a: Action)
    requires Inv(cfg, s) && s.up && StoreIs(cfg, s.log, s.store) && s.synced == s.endOffset == |s.file| && s.saved.Settled()
    requires EndsTheProcess(a) && Enabled(cfg, s, a)
    ensures var t := Step(cfg, s, a);
            !t.up && t.log == s.log && t.ends == s.ends && t.endOffset == |t.file| && t.saved == s.saved && Shows(cfg, t.log, t.store)
  {
    var t := Step(cfg, s, a);
    forall id ensures At(t.store, id).visible == After(cfg, s.log, id) {
      if a.Crash? {
        assert id in s.store <==> id in a.storeLeft.Keys;
        assert At(s.store, id).Survives(At(t.store, id).visible);
      }
    }
  }

  lemma EveryEndWedges(cfg: Config, s: State, a: Action)
    requires Inv(cfg, s) && s.up && StoreIs(cfg, s.log, s.store) && s.synced == s.endOffset == |s.file|
    requires s.log != [] && !Stable(cfg, Last(s.log).body.intent.snapshot)
    requires s.saved.Settled() && IsAt(cfg, s.ends, s.saved.visible, |s.ends| - 1)
    requires EndsTheProcess(a) && Enabled(cfg, s, a)
    ensures Wedged(cfg, Step(cfg, s, a))
  {
    EndIsForced(cfg, s, a);
    StepKeeps(cfg, s, a);
    WedgedExactlyWhen(cfg, Step(cfg, s, a));
  }

  lemma SyncedIsStored(cfg: Config, s: State, t: State)
    requires CanSend(cfg, s) && t == Sent(cfg, s).(stage := Applied, store := SyncAll(Stored(cfg, s)))
    ensures Inv(cfg, t) && StoreIs(cfg, t.log, t.store) && IsAt(cfg, t.ends, t.saved.visible, |t.ends| - 1)
  {
    var renamed := Sent(cfg, s).(stage := Renamed, store := Stored(cfg, s));
    StoredIsKept(cfg, s);
    StoreSyncKeeps(cfg, renamed);
    DiskSynced(cfg, renamed.log, renamed.ends, renamed.saved, renamed.store);
    IsAtMore(cfg, s.ends, t.endOffset, s.saved.visible, |s.ends|);
  }

  lemma SyncedWedges(cfg: Config, s: State, t: State, a: Action)
    requires CanSend(cfg, s) && !Stable(cfg, s.outbox[0].snapshot)
    requires t == Sent(cfg, s).(stage := Applied, store := SyncAll(Stored(cfg, s)))
    requires EndsTheProcess(a) && Enabled(cfg, t, a)
    ensures Wedged(cfg, Step(cfg, t, a))
  {
    SyncedIsStored(cfg, s, t);
    assert Last(t.log) == NextEntry(s);
    EveryEndWedges(cfg, t, a);
  }

  /** A single enqueued snapshot that the store rewrites can stop recovery: once it is journaled and saved,
      the process only has to end before the checkpoint moves, and no restart gets past its record. */
  lemma UnstableSnapshotWedges(cfg: Config, s: State) returns (actions: seq<Action>)
    requires CanSend(cfg, s) && !Stable(cfg, s.outbox[0].snapshot)
    ensures Runs(cfg, s, actions) && PrudentRun(cfg, s, actions)
    ensures var t := End(cfg, s, actions);
            && t.up && t.stage.Applied? && t.log == s.log + [NextEntry(s)]
            && (forall a: Action :: EndsTheProcess(a) && Enabled(cfg, t, a) ==> Wedged(cfg, Step(cfg, t, a)))
  {
    var sent := SendHead(cfg, s);
    RunsOn(cfg, s, sent, StoreSync);
    actions := sent + [StoreSync];
    forall a: Action | EndsTheProcess(a) && Enabled(cfg, End(cfg, s, actions), a) ensures Wedged(cfg, Step(cfg, End(cfg, s, actions), a)) {
      SyncedWedges(cfg, s, End(cfg, s, actions), a);
    }
  }
}
