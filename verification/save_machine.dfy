/** The character-state save pipeline as a step machine: outbox, journal, store and checkpoint, one
    action for each durable effect of the code. Between any two of them the process may die, which leaves
    the disk as it is, or the power may go, which undoes whatever is not synced; then comes the restart. */
module SaveMachine {
  import opened Outcomes
  import opened Framing
  import opened Journals
  import opened Snapshots
  import InventoryStates

  /** What a deployment fixes. `enqueues` is what its producers hand to the outbox and the outbox takes,
      `found` what a frame of an earlier release may hold, `stored` the snapshot `Store.Save` writes for
      one that is valid. */
  datatype Config = Config(
    codec: Codec<Command>, enqueues: Intent -> bool, found: Command -> bool, stored: Snapshot -> Snapshot, capacity: nat,
    header: seq<byte>, journalId: seq<byte>, initial: map<string, StoreRecord>)

  ghost predicate Sound(cfg: Config) {
    && Lawful(cfg.codec)
    && (forall c: Command :: cfg.codec.accepts(c) || cfg.found(c) ==> c.expectedRevision < MAX_UINT64)
    && (forall id :: id in cfg.initial ==> 0 < cfg.initial[id].revision)
  }

  /** The store keeps a snapshot as it is, so that replay finds it equal. */
  predicate Stable(cfg: Config, s: Snapshot) {
    cfg.stored(s) == s
  }

  // ----- the store directory -----

  type Store = Directory<StoreRecord>

  function Revision(r: Option<StoreRecord>): nat {
    if r.Some? then r.value.revision else 0
  }

  predicate AllSettled(store: Store) {
    forall id :: id in store ==> store[id].Settled()
  }

  // ----- the reference: applying the journal to the initial store -----

  /** What the store should hold for `id` once every record of `log` has been applied once, in order. */
  function After(cfg: Config, log: seq<Entry<Command>>, id: string): Option<StoreRecord> {
    if log == [] then
      if id in cfg.initial then Some(cfg.initial[id]) else None
    else
      Next(cfg, After(cfg, log[..|log| - 1], id), log[|log| - 1], id)
  }

  /** What one record changes. */
  function Next(cfg: Config, before: Option<StoreRecord>, e: Entry<Command>, id: string): Option<StoreRecord> {
    var i := e.body.intent;
    if i.identity.id == id then Some(StoreRecord(Revision(before) + 1, cfg.stored(i.snapshot))) else before
  }

  // ----- the machine -----

  /** Where the coordinator stands with the record behind the checkpoint. */
  datatype Stage =
    | Idle        // between two records, or after a failed call
    | Written     // the frame is in the file but not synced
    | Journaled   // the frame is durable, its intent is still the outbox head
    | Applying    // the record is to be applied
    | Renamed     // the store record is renamed into place, the directory not synced
    | Applied     // the store is done with the record
    | Saving      // the checkpoint is renamed into place, the directory not synced

  /** `log`, `ends`, `endOffset` are what the open journal knows. While the process is down they are
      only history; `Restart` computes them anew from the file. The first `synced` bytes of the file are
      durable. */
  datatype State = State(
    up: bool, stage: Stage, outbox: seq<Intent>, session: seq<Intent>, booted: nat,
    log: seq<Entry<Command>>, ends: seq<nat>, endOffset: nat, checkpoint: Checkpoint,
    file: seq<byte>, synced: nat, saved: Cell<Option<Checkpoint>>, store: Store)

  datatype Action =
    | Enqueue(intent: Intent)
    | DropTail
    | WriteFrame(cut: nat)
    | SyncFrame
    | Confirm
    | Fetch
    | StoreRename
    | StoreSync
    | Skip
    | CheckpointRename
    | CheckpointSync
    | Fail
    | Die
    | Crash(kept: nat, savedLeft: Option<Checkpoint>, storeLeft: map<string, Option<StoreRecord>>)
    | Restart

  function View(cfg: Config, s: State): Tables {
    Tables(cfg.journalId, |cfg.header|, s.ends)
  }

  /** The record the coordinator is working on: the one behind the checkpoint. */
  predicate HasCurrent(s: State) {
    s.checkpoint.recordId < |s.log|
  }

  function Current(s: State): Entry<Command>
    requires HasCurrent(s)
  {
    s.log[s.checkpoint.recordId]
  }

  function Holds(s: State): Option<StoreRecord>
    requires HasCurrent(s)
  {
    At(s.store, Current(s).body.intent.identity.id).visible
  }

  /** The command for the outbox head, against the revision the store holds now. */
  function NextEntry(s: State): Entry<Command>
    requires s.outbox != []
  {
    Entry(|s.log| + 1, Command(Revision(At(s.store, s.outbox[0].identity.id).visible), s.outbox[0]))
  }

  predicate CaughtUp(s: State) {
    s.checkpoint.recordId == |s.log|
  }

  /** `applyCharacterStateJournalRecord`: revision as expected, so save. */
  predicate SaveApplies(s: State) {
    HasCurrent(s) && Revision(Holds(s)) == Current(s).body.expectedRevision
  }

  /** One revision further with the very same snapshot: this record has been saved already. */
  predicate AlreadyApplied(s: State) {
    && HasCurrent(s) && Holds(s).Some?
    && Holds(s).value == StoreRecord(Current(s).body.expectedRevision + 1, Current(s).body.intent.snapshot)
  }

  predicate Conflict(s: State) {
    HasCurrent(s) && !SaveApplies(s) && !AlreadyApplied(s)
  }

  function Renaming(cfg: Config, s: State): Store
    requires HasCurrent(s)
  {
    var i := Current(s).body.intent;
    s.store[i.identity.id := At(s.store, i.identity.id).Rename(
      Some(StoreRecord(Current(s).body.expectedRevision + 1, cfg.stored(i.snapshot))))]
  }

  predicate CanCrashTo(s: State, kept: nat, savedLeft: Option<Checkpoint>, storeLeft: map<string, Option<StoreRecord>>) {
    && s.synced <= kept <= |s.file|
    && s.saved.Survives(savedLeft)
    && storeLeft.Keys == s.store.Keys
    && forall id :: id in storeLeft ==> s.store[id].Survives(storeLeft[id])
  }

  function Left(storeLeft: map<string, Option<StoreRecord>>): (r: Store)
    ensures forall id :: At(r, id) == Cell(if id in storeLeft then storeLeft[id] else None, {})
  {
    map id | id in storeLeft :: Cell(storeLeft[id], {})
  }

  /** The history without its last record, if a cut at `kept` goes through that. */
  function Shortened(cfg: Config, s: State, kept: nat): State {
    if kept < s.endOffset && s.log != [] && s.ends != [] then
      s.(log := Prefix(s.log), ends := s.ends[..|s.ends| - 1], endOffset := CheckpointAt(View(cfg, s), |s.ends| - 1).offset)
    else s
  }

  ghost predicate CanWrite(cfg: Config, s: State, cut: nat) {
    && s.up && s.stage.Idle? && CaughtUp(s) && s.outbox != [] && |s.file| == s.endOffset && |s.log| < MAX_UINT64
    && Sound(cfg) && Encodable(cfg.codec, NextEntry(s)) && cut <= |Frame(cfg.codec, NextEntry(s))|
  }

  ghost predicate CanRestart(cfg: Config, s: State) {
    && !s.up && cfg.header <= s.file
    && var scan := Scan(cfg.codec, s.file, |cfg.header|, 1);
    && scan.Recovered?
    && (s.saved.visible.Some? ==> CheckpointFault(Tables(cfg.journalId, |cfg.header|, scan.ends), s.saved.visible.value) == None)
  }

  ghost predicate Enabled(cfg: Config, s: State, a: Action) {
    match a
    case Enqueue(i) => s.up && cfg.enqueues(i) && i.intentId == |s.session| + 1 <= MAX_UINT64 && |s.outbox| < cfg.capacity
    case DropTail => s.up && s.stage.Idle? && CaughtUp(s) && s.endOffset <= |s.file|
    case WriteFrame(cut) => CanWrite(cfg, s, cut)
    case SyncFrame => s.up && s.stage.Written? && s.outbox != []
    case Confirm => s.up && s.stage.Journaled? && s.outbox != []
    case Fetch => s.up && s.stage.Idle? && HasCurrent(s)
    case StoreRename => s.up && s.stage.Applying? && SaveApplies(s)
    case StoreSync => s.up && s.stage.Renamed?
    case Skip => s.up && s.stage.Applying? && AlreadyApplied(s)
    case CheckpointRename => s.up && s.stage.Applied? && HasCurrent(s) && s.checkpoint.recordId < |s.ends|
    case CheckpointSync => s.up && s.stage.Saving? && s.checkpoint.recordId < |s.ends|
    case Fail => s.up && !s.stage.Journaled?
    case Die => s.up
    case Crash(kept, savedLeft, storeLeft) => CanCrashTo(s, kept, savedLeft, storeLeft)
    case Restart => CanRestart(cfg, s)
  }

  ghost function Step(cfg: Config, s: State, a: Action): State
    requires Enabled(cfg, s, a)
  {
    match a
    case Enqueue(i) => s.(outbox := s.outbox + [i], session := s.session + [i])
    case DropTail => s.(file := s.file[..s.endOffset])
    case WriteFrame(cut) =>
      var frame := Frame(cfg.codec, NextEntry(s));
      s.(file := s.file + frame[..cut], stage := if cut == |frame| then Written else Idle)
    case SyncFrame =>
      s.(log := s.log + [NextEntry(s)], ends := s.ends + [|s.file|], endOffset := |s.file|, synced := |s.file|, stage := Journaled)
    case Confirm => s.(outbox := s.outbox[1..], stage := Applying)
    case Fetch => s.(stage := Applying)
    case StoreRename => s.(store := Renaming(cfg, s), stage := Renamed)
    case StoreSync => s.(store := SyncAll(s.store), stage := Applied)
    case Skip => s.(stage := Applied)
    case CheckpointRename =>
      s.(saved := s.saved.Rename(Some(CheckpointAt(View(cfg, s), s.checkpoint.recordId + 1))), stage := Saving)
    case CheckpointSync =>
      s.(saved := s.saved.Sync(), checkpoint := CheckpointAt(View(cfg, s), s.checkpoint.recordId + 1), stage := Idle)
    case Fail => s.(stage := Idle)
    case Die => s.(up := false, stage := Idle, outbox := [], session := [])
    case Crash(kept, savedLeft, storeLeft) =>
      Shortened(cfg, s, kept).(up := false, stage := Idle, outbox := [], session := [],
                               file := s.file[..kept], synced := kept, saved := Cell(savedLeft, {}), store := Left(storeLeft))
    case Restart =>
      var scan := Scan(cfg.codec, s.file, |cfg.header|, 1);
      s.(up := true, booted := |scan.entries|, log := scan.entries, ends := scan.ends, endOffset := scan.end,
         file := s.file[..scan.end], synced := if scan.torn then scan.end else s.synced,
         checkpoint := if s.saved.visible.Some? then s.saved.visible.value else Checkpoint(cfg.journalId, 0, |cfg.header|))
  }

  /** A run: each action is enabled where it happens. */
  ghost predicate Runs(cfg: Config, s: State, actions: seq<Action>)
    decreases |actions|
  {
    actions == [] || (Enabled(cfg, s, actions[0]) && Runs(cfg, Step(cfg, s, actions[0]), actions[1..]))
  }

  ghost function End(cfg: Config, s: State, actions: seq<Action>): State
    requires Runs(cfg, s, actions)
    decreases |actions|
  {
    if actions == [] then s else End(cfg, Step(cfg, s, actions[0]), actions[1..])
  }

  /** No effect is built on one that a power loss may still undo: no record is stored that is not synced,
      no checkpoint moved over a store directory that is not, no record written over such a checkpoint.
      The code checks none of this. It breaks it in a process that goes on after a failed sync, and in one
      that starts over what the death of another left, because a start syncs nothing of what it finds. */
  predicate Prudent(s: State, a: Action) {
    && (a.StoreRename? ==> s.endOffset <= s.synced)
    && (a.CheckpointRename? ==> AllSettled(s.store))
    && (a.WriteFrame? ==> s.saved.Settled())
  }

  ghost predicate PrudentRun(cfg: Config, s: State, actions: seq<Action>)
    requires Runs(cfg, s, actions)
    decreases |actions|
  {
    actions == [] || (Prudent(s, actions[0]) && PrudentRun(cfg, Step(cfg, s, actions[0]), actions[1..]))
  }

  // ----- the invariant -----

  /** A command the journal may hold: one that was appended, or one of an earlier release. */
  ghost predicate HeldBy(cfg: Config, c: Command) {
    (cfg.codec.accepts(c) && cfg.enqueues(c.intent)) || cfg.found(c)
  }

  /** Each command was taken against the revision its predecessors leave. */
  ghost predicate Extends(cfg: Config, log: seq<Entry<Command>>, e: Entry<Command>) {
    && e.id == |log| + 1
    && HeldBy(cfg, e.body)
    && e.body.expectedRevision == Revision(After(cfg, log, e.body.intent.identity.id))
  }

  ghost predicate Chained(cfg: Config, log: seq<Entry<Command>>) {
    forall k :: 0 <= k < |log| ==> Extends(cfg, log[..k], log[k])
  }

  ghost predicate IsAt(cfg: Config, ends: seq<nat>, v: Option<Checkpoint>, k: nat) {
    k <= |ends| && v == if k == 0 then None else Some(CheckpointAt(Tables(cfg.journalId, |cfg.header|, ends), k))
  }

  ghost predicate Shows(cfg: Config, log: seq<Entry<Command>>, store: Store) {
    forall id :: At(store, id).visible == After(cfg, log, id)
  }

  /** The store durably holds what the journal says. */
  ghost predicate StoreIs(cfg: Config, log: seq<Entry<Command>>, store: Store) {
    forall id :: At(store, id) == Cell(After(cfg, log, id), {})
  }

  /** A crash leaves nothing but the effect of the whole journal or of all but its last record. */
  ghost predicate StoreWithin(cfg: Config, log: seq<Entry<Command>>, store: Store) {
    forall id, r :: At(store, id).Survives(r) ==>
                      r == After(cfg, log, id) || (log != [] && r == After(cfg, log[..|log| - 1], id))
  }

  ghost predicate SavedWithin(cfg: Config, ends: seq<nat>, saved: Cell<Option<Checkpoint>>) {
    forall v :: saved.Survives(v) ==> IsAt(cfg, ends, v, |ends|) || (0 < |ends| && IsAt(cfg, ends, v, |ends| - 1))
  }

  ghost predicate MayBeSavedAtTail(cfg: Config, ends: seq<nat>, saved: Cell<Option<Checkpoint>>) {
    exists v :: saved.Survives(v) && IsAt(cfg, ends, v, |ends|)
  }

  /** What a power loss may bring back of a record is older than the record. */
  ghost predicate OlderOnly(store: Store) {
    forall id, r :: r in At(store, id).others ==> Revision(r) < Revision(At(store, id).visible)
  }

  /** Checkpoint and store trail the journal by at most one record. If any crash can leave the
      checkpoint of the last record, the store has that record durably. */
  ghost predicate DiskOk(cfg: Config, log: seq<Entry<Command>>, ends: seq<nat>, saved: Cell<Option<Checkpoint>>, store: Store) {
    && SavedWithin(cfg, ends, saved)
    && StoreWithin(cfg, log, store)
    && (MayBeSavedAtTail(cfg, ends, saved) ==> StoreIs(cfg, log, store))
    && OlderOnly(store) && saved.visible !in saved.others
  }

  /** The checkpoint is durably at the end of the journal. */
  ghost predicate Quiet(cfg: Config, ends: seq<nat>, saved: Cell<Option<Checkpoint>>) {
    saved.Settled() && IsAt(cfg, ends, saved.visible, |ends|)
  }

  ghost predicate JournalOk(cfg: Config, log: seq<Entry<Command>>, ends: seq<nat>, endOffset: nat, file: seq<byte>) {
    && |log| == |ends| && Chained(cfg, log)
    && |cfg.header| <= endOffset <= |file| && cfg.header <= file
    && Intact(cfg.codec, file[..endOffset], |cfg.header|, 1, log, ends)
  }

  /** Bytes behind the durable end are a prefix, possibly all, of the frame of one more record. */
  ghost predicate TailOk(cfg: Config, log: seq<Entry<Command>>, tail: seq<byte>)
    requires Lawful(cfg.codec)
  {
    tail != [] ==> exists e :: Extends(cfg, log, e) && Encodable(cfg.codec, e) && tail <= Frame(cfg.codec, e)
  }

  /** If the last record is not synced, nothing has been built on it. */
  ghost predicate UnsyncedOk(cfg: Config, log: seq<Entry<Command>>, ends: seq<nat>, endOffset: nat, file: seq<byte>, synced: nat,
                             saved: Cell<Option<Checkpoint>>, store: Store)
    requires Lawful(cfg.codec)
  {
    synced < endOffset ==>
      && log != [] && ends != [] && endOffset == |file|
      && var shorter, before := ends[..|ends| - 1], CheckpointAt(Tables(cfg.journalId, |cfg.header|, ends), |ends| - 1).offset;
      && JournalOk(cfg, Prefix(log), shorter, before, file) && before <= synced
      && Encodable(cfg.codec, Last(log)) && file[before..] == Frame(cfg.codec, Last(log))
      && Quiet(cfg, shorter, saved) && StoreIs(cfg, Prefix(log), store)
  }

  /** What lies behind the last record, and what is not synced. */
  ghost predicate FileOk(cfg: Config, log: seq<Entry<Command>>, ends: seq<nat>, endOffset: nat, file: seq<byte>, synced: nat,
                         saved: Cell<Option<Checkpoint>>, store: Store)
    requires Lawful(cfg.codec) && endOffset <= |file|
  {
    && TailOk(cfg, log, file[endOffset..]) && synced <= |file|
    && (endOffset < |file| ==> Quiet(cfg, ends, saved))
    && UnsyncedOk(cfg, log, ends, endOffset, file, synced, saved, store)
  }

  ghost predicate StageOk(cfg: Config, s: State)
    requires Lawful(cfg.codec) && s.endOffset <= |s.file| && s.checkpoint.recordId <= |s.log|
  {
    match s.stage
    case Idle => true
    case Written => CaughtUp(s) && s.outbox != [] && Encodable(cfg.codec, NextEntry(s)) && s.file[s.endOffset..] == Frame(cfg.codec, NextEntry(s))
    case Journaled => HasCurrent(s) && s.outbox != [] && Current(s).body.intent == s.outbox[0]
    case Applying => HasCurrent(s)
    case Renamed => HasCurrent(s) && Shows(cfg, s.log, s.store)
    case Applied => HasCurrent(s) && Shows(cfg, s.log, s.store)
    case Saving => HasCurrent(s) && Shows(cfg, s.log, s.store) && IsAt(cfg, s.ends, s.saved.visible, |s.ends|)
  }

  /** The running process: its checkpoint is at the tail, as the file shows it, or one record behind it. */
  ghost predicate MemoryOk(cfg: Config, s: State)
    requires Lawful(cfg.codec) && s.endOffset <= |s.file| && |s.log| == |s.ends|
  {
    var c := s.checkpoint.recordId;
    && c <= |s.log| <= c + 1 && s.checkpoint == CheckpointAt(View(cfg, s), c)
    && s.synced <= s.endOffset
    && (if c == |s.log| then IsAt(cfg, s.ends, s.saved.visible, |s.ends|)
        else Shows(cfg, s.log, s.store) || Shows(cfg, s.log[..c], s.store))
    && (s.endOffset < |s.file| ==> CaughtUp(s))
    && StageOk(cfg, s)
  }

  function Intents(log: seq<Entry<Command>>): seq<Intent> {
    seq(|log|, k requires 0 <= k < |log| => log[k].body.intent)
  }

  /** Since the start of the process every intent taken is in the journal or still in the outbox, in
      order and once. */
  ghost predicate SessionOk(s: State) {
    && s.booted <= |s.log|
    && s.session == Intents(s.log[s.booted..]) + (if s.stage.Journaled? && s.outbox != [] then s.outbox[1..] else s.outbox)
    && forall k :: 0 <= k < |s.session| ==> s.session[k].intentId == k + 1
  }

  ghost predicate Inv(cfg: Config, s: State) {
    && Sound(cfg)
    && JournalOk(cfg, s.log, s.ends, s.endOffset, s.file)
    && DiskOk(cfg, s.log, s.ends, s.saved, s.store)
    && FileOk(cfg, s.log, s.ends, s.endOffset, s.file, s.synced, s.saved, s.store)
    && (forall i :: i in s.outbox ==> cfg.enqueues(i))
    && (if s.up then MemoryOk(cfg, s) && SessionOk(s) else s.stage.Idle? && s.outbox == [] && s.session == [])
  }

  /** With everything synced, checkpoint and store may move. */
  lemma FileAtRest(cfg: Config, log: seq<Entry<Command>>, ends: seq<nat>, endOffset: nat, file: seq<byte>, synced: nat,
                   saved: Cell<Option<Checkpoint>>, store: Store)
    requires Lawful(cfg.codec) && endOffset == |file| == synced
    ensures FileOk(cfg, log, ends, endOffset, file, synced, saved, store)
  {
    assert file[endOffset..] == [];
  }

  // ----- facts about the reference -----

  lemma AfterMore(cfg: Config, log: seq<Entry<Command>>, e: Entry<Command>)
    ensures forall id :: After(cfg, log + [e], id) == Next(cfg, After(cfg, log, id), e, id)
  {
    var longer := log + [e];
    assert longer[..|longer| - 1] == log && longer[|longer| - 1] == e;
    forall id ensures After(cfg, longer, id) == Next(cfg, After(cfg, log, id), e, id) {
    }
  }

  lemma ChainedMore(cfg: Config, log: seq<Entry<Command>>, e: Entry<Command>)
    requires Chained(cfg, log) && Extends(cfg, log, e)
    ensures Chained(cfg, log + [e])
  {
    var longer := log + [e];
    forall k | 0 <= k < |longer| ensures Extends(cfg, longer[..k], longer[k]) {
      assert longer[..k] == log[..k];
      if k == |log| { assert log[..k] == log; }
    }
  }

  /** Checkpoints of earlier records stay what they are when a record is added. */
  lemma IsAtMore(cfg: Config, ends: seq<nat>, end: nat, v: Option<Checkpoint>, k: nat)
    requires IsAt(cfg, ends, v, k)
    ensures IsAt(cfg, ends + [end], v, k) && !IsAt(cfg, ends + [end], v, |ends| + 1)
  {
  }

  lemma QuietMeansStored(cfg: Config, s: State)
    requires Inv(cfg, s) && IsAt(cfg, s.ends, s.saved.visible, |s.ends|)
    ensures StoreIs(cfg, s.log, s.store) && Shows(cfg, s.log, s.store)
  {
    assert s.saved.Survives(s.saved.visible);
  }

  /** One more durable record leaves checkpoint and store one behind. */
  lemma DiskOneBehind(cfg: Config, log: seq<Entry<Command>>, ends: seq<nat>, saved: Cell<Option<Checkpoint>>, store: Store,
                      e: Entry<Command>, end: nat)
    requires |log| == |ends| && Quiet(cfg, ends, saved) && StoreIs(cfg, log, store)
    ensures DiskOk(cfg, log + [e], ends + [end], saved, store)
    ensures Shows(cfg, (log + [e])[..|log|], store)
  {
    AfterMore(cfg, log, e);
    IsAtMore(cfg, ends, end, saved.visible, |ends|);
  }

  // ----- the disk, apart from the rest of the state -----

  function Prefix(log: seq<Entry<Command>>): seq<Entry<Command>>
    requires log != []
  {
    log[..|log| - 1]
  }

  function Last(log: seq<Entry<Command>>): Entry<Command>
    requires log != []
  {
    log[|log| - 1]
  }

  /** Only the character of the last record can tell the whole journal from all but its last record. */
  lemma LastRecord(cfg: Config, log: seq<Entry<Command>>)
    requires log != [] && Chained(cfg, log)
    ensures Extends(cfg, Prefix(log), Last(log))
    ensures forall id :: id != Last(log).body.intent.identity.id ==> After(cfg, log, id) == After(cfg, Prefix(log), id)
    ensures var e := Last(log).body;
            && After(cfg, log, e.intent.identity.id) == Some(StoreRecord(e.expectedRevision + 1, cfg.stored(e.intent.snapshot)))
            && Revision(After(cfg, Prefix(log), e.intent.identity.id)) == e.expectedRevision
  {
    assert log == Prefix(log) + [Last(log)];
    AfterMore(cfg, Prefix(log), Last(log));
  }

  /** With the last record open, the store shows what its predecessors left exactly while the revision
      is the expected one. */
  lemma ShownExactlyWhen(cfg: Config, log: seq<Entry<Command>>, store: Store)
    requires log != [] && Chained(cfg, log)
    requires Shows(cfg, log, store) || Shows(cfg, Prefix(log), store)
    ensures var e := Last(log).body;
            var v := At(store, e.intent.identity.id).visible;
            && (Revision(v) == e.expectedRevision <==> Shows(cfg, Prefix(log), store))
            && (Revision(v) != e.expectedRevision <==> Shows(cfg, log, store))
            && (Shows(cfg, log, store) ==> v == Some(StoreRecord(e.expectedRevision + 1, cfg.stored(e.intent.snapshot))))
  {
    LastRecord(cfg, log);
  }

  /** The two contents a store may have differ for one character only. */
  lemma StoreIsUniform(cfg: Config, log: seq<Entry<Command>>, store: Store)
    requires log != [] && Chained(cfg, log) && StoreWithin(cfg, log, store)
    ensures Shows(cfg, log, store) || Shows(cfg, Prefix(log), store)
  {
    LastRecord(cfg, log);
    var id := Last(log).body.intent.identity.id;
    assert forall any :: At(store, any).Survives(At(store, any).visible);
    if At(store, id).visible == After(cfg, log, id) {
      assert Shows(cfg, log, store);
    } else {
      assert Shows(cfg, Prefix(log), store);
    }
  }

  /** Renaming the last record's snapshot into place. */
  lemma DiskRename(cfg: Config, log: seq<Entry<Command>>, ends: seq<nat>, saved: Cell<Option<Checkpoint>>, store: Store, renamed: Store)
    requires log != [] && Chained(cfg, log) && DiskOk(cfg, log, ends, saved, store) && Shows(cfg, Prefix(log), store)
    requires var e := Last(log).body;
             renamed == store[e.intent.identity.id := At(store, e.intent.identity.id).Rename(
               Some(StoreRecord(e.expectedRevision + 1, cfg.stored(e.intent.snapshot))))]
    ensures DiskOk(cfg, log, ends, saved, renamed) && Shows(cfg, log, renamed)
  {
    LastRecord(cfg, log);
    var id := Last(log).body.intent.identity.id;
    assert At(store, id).visible != After(cfg, log, id);
    forall any ensures At(renamed, any) == if any == id then At(store, id).Rename(After(cfg, log, id)) else At(store, any) {
    }
    forall any, r | r in At(renamed, any).others ensures Revision(r) < Revision(At(renamed, any).visible) {
      assert any == id ==> r in At(store, id).others || r == At(store, id).visible;
    }
  }

  lemma DiskSynced(cfg: Config, log: seq<Entry<Command>>, ends: seq<nat>, saved: Cell<Option<Checkpoint>>, store: Store)
    requires DiskOk(cfg, log, ends, saved, store) && Shows(cfg, log, store)
    ensures DiskOk(cfg, log, ends, saved, SyncAll(store)) && StoreIs(cfg, log, SyncAll(store))
  {
  }

  lemma DiskCheckpointed(cfg: Config, log: seq<Entry<Command>>, ends: seq<nat>, saved: Cell<Option<Checkpoint>>, store: Store)
    requires DiskOk(cfg, log, ends, saved, store) && Shows(cfg, log, store) && AllSettled(store) && ends != []
    ensures var c := Some(CheckpointAt(Tables(cfg.journalId, |cfg.header|, ends), |ends|));
            DiskOk(cfg, log, ends, saved.Rename(c), store) && IsAt(cfg, ends, c, |ends|)
  {
    forall id ensures At(store, id) == Cell(After(cfg, log, id), {}) {
      assert At(store, id).Settled();
    }
    assert saved.Survives(saved.visible);
  }

  lemma DiskSaved(cfg: Config, log: seq<Entry<Command>>, ends: seq<nat>, saved: Cell<Option<Checkpoint>>, store: Store)
    requires DiskOk(cfg, log, ends, saved, store) && IsAt(cfg, ends, saved.visible, |ends|)
    ensures DiskOk(cfg, log, ends, saved.Sync(), store) && Quiet(cfg, ends, saved.Sync())
  {
    assert saved.Survives(saved.visible);
  }

  /** A crash picks among what may survive. */
  lemma DiskCrashed(cfg: Config, log: seq<Entry<Command>>, ends: seq<nat>, saved: Cell<Option<Checkpoint>>, store: Store,
                    savedLeft: Option<Checkpoint>, storeLeft: map<string, Option<StoreRecord>>)
    requires DiskOk(cfg, log, ends, saved, store) && saved.Survives(savedLeft) && storeLeft.Keys == store.Keys
    requires forall id :: id in storeLeft ==> store[id].Survives(storeLeft[id])
    ensures DiskOk(cfg, log, ends, Cell(savedLeft, {}), Left(storeLeft))
    ensures Quiet(cfg, ends, saved) ==> Quiet(cfg, ends, Cell(savedLeft, {}))
  {
    var left: Cell<Option<Checkpoint>> := Cell(savedLeft, {});
    assert forall v :: left.Survives(v) ==> saved.Survives(v);
    forall id, r | At(Left(storeLeft), id).Survives(r) ensures At(store, id).Survives(r) {
      assert id in store <==> id in storeLeft.Keys;
    }
    if MayBeSavedAtTail(cfg, ends, left) {
      forall id ensures At(Left(storeLeft), id) == Cell(After(cfg, log, id), {}) {
        assert At(store, id).Survives(At(Left(storeLeft), id).visible);
      }
    }
  }

  // ----- the current record -----

  /** At most one record is open, and what the store shows tells whether it was applied. */
  lemma OneOpen(cfg: Config, s: State)
    requires Inv(cfg, s) && s.up && HasCurrent(s)
    ensures s.checkpoint.recordId + 1 == |s.log| && Current(s) == Last(s.log) && s.log[..s.checkpoint.recordId] == Prefix(s.log)
    ensures Extends(cfg, Prefix(s.log), Current(s))
    ensures SaveApplies(s) <==> Shows(cfg, Prefix(s.log), s.store)
    ensures !SaveApplies(s) <==> Shows(cfg, s.log, s.store)
    ensures s.endOffset == |s.file| && (Shows(cfg, s.log, s.store) ==> s.synced == s.endOffset)
    ensures Shows(cfg, s.log, s.store) ==>
              Holds(s) == Some(StoreRecord(Current(s).body.expectedRevision + 1, cfg.stored(Current(s).body.intent.snapshot)))
  {
    ShownExactlyWhen(cfg, s.log, s.store);
    LastRecord(cfg, s.log);
  }

  // ----- every step keeps the invariant -----

  lemma SessionTakes(s: State, t: State, i: Intent)
    requires SessionOk(s) && i.intentId == |s.session| + 1 && (s.stage.Journaled? ==> s.outbox != [])
    requires t == s.(outbox := s.outbox + [i], session := s.session + [i])
    ensures SessionOk(t)
  {
    var waiting := if s.stage.Journaled? then s.outbox[1..] else s.outbox;
    assert t.session == Intents(t.log[t.booted..]) + (waiting + [i]);
    assert s.outbox != [] ==> t.outbox[1..] == s.outbox[1..] + [i];
  }

  lemma EnqueueKeeps(cfg: Config, s: State, i: Intent)
    requires Inv(cfg, s) && Enabled(cfg, s, Enqueue(i))
    ensures Inv(cfg, Step(cfg, s, Enqueue(i)))
  {
    var t := Step(cfg, s, Enqueue(i));
    SessionTakes(s, t, i);
    assert s.outbox != [] ==> t.outbox[0] == s.outbox[0];
  }

  /** Nothing behind the last record is taken in before it is synced. */
  lemma NotAhead(cfg: Config, s: State)
    requires Inv(cfg, s) && IsAt(cfg, s.ends, s.saved.visible, |s.ends|)
    ensures s.endOffset <= s.synced
  {
  }

  lemma DropTailKeeps(cfg: Config, s: State)
    requires Inv(cfg, s) && Enabled(cfg, s, DropTail)
    ensures Inv(cfg, Step(cfg, s, DropTail))
  {
    var t := Step(cfg, s, DropTail);
    assert t.file[..t.endOffset] == s.file[..s.endOffset];
    assert t.file[t.endOffset..] == [];
    NotAhead(cfg, s);
  }

  lemma WriteFrameKeeps(cfg: Config, s: State, cut: nat)
    requires Inv(cfg, s) && Enabled(cfg, s, WriteFrame(cut)) && s.saved.Settled()
    ensures Inv(cfg, Step(cfg, s, WriteFrame(cut)))
  {
    var t, e := Step(cfg, s, WriteFrame(cut)), NextEntry(s);
    assert t.file[..t.endOffset] == s.file[..s.endOffset];
    assert t.file[t.endOffset..] == Frame(cfg.codec, e)[..cut];
    QuietMeansStored(cfg, s);
    NotAhead(cfg, s);
    assert Extends(cfg, t.log, e);
    assert cut == |Frame(cfg.codec, e)| ==> Frame(cfg.codec, e)[..cut] == Frame(cfg.codec, e);
  }

  /** A whole durable frame behind the journal is one more record of it. */
  lemma JournalMore(cfg: Config, log: seq<Entry<Command>>, ends: seq<nat>, endOffset: nat, file: seq<byte>, e: Entry<Command>)
    requires Lawful(cfg.codec) && JournalOk(cfg, log, ends, endOffset, file)
    requires Extends(cfg, log, e) && Encodable(cfg.codec, e) && file[endOffset..] == Frame(cfg.codec, e)
    ensures JournalOk(cfg, log + [e], ends + [|file|], |file|, file)
  {
    ChainedMore(cfg, log, e);
    assert file == file[..endOffset] + Frame(cfg.codec, e);
    ScanWholeAppend(cfg.codec, file[..endOffset], |cfg.header|, log, ends, e);
    assert file[..|file|] == file;
  }

  lemma SessionMovesOn(s: State, t: State)
    requires SessionOk(s) && s.stage.Written? && s.outbox != [] && t.stage.Journaled?
    requires |t.log| == |s.log| + 1 && t.log[..|s.log|] == s.log && t.log[|s.log|].body.intent == s.outbox[0]
    requires t.session == s.session && t.outbox == s.outbox && t.booted == s.booted
    ensures SessionOk(t)
  {
    assert t.log[t.booted..] == s.log[s.booted..] + [t.log[|s.log|]];
    assert Intents(t.log[t.booted..]) == Intents(s.log[s.booted..]) + [s.outbox[0]];
    assert s.outbox == [s.outbox[0]] + s.outbox[1..];
  }

  lemma SyncFrameKeeps(cfg: Config, s: State)
    requires Inv(cfg, s) && Enabled(cfg, s, SyncFrame)
    ensures Inv(cfg, Step(cfg, s, SyncFrame))
  {
    var t, e := Step(cfg, s, SyncFrame), NextEntry(s);
    assert s.file[s.endOffset..] != [];
    QuietMeansStored(cfg, s);
    JournalMore(cfg, s.log, s.ends, s.endOffset, s.file, e);
    DiskOneBehind(cfg, s.log, s.ends, s.saved, s.store, e, |s.file|);
    SessionMovesOn(s, t);
    FileAtRest(cfg, t.log, t.ends, t.endOffset, t.file, t.synced, t.saved, t.store);
  }

  lemma ConfirmKeeps(cfg: Config, s: State)
    requires Inv(cfg, s) && Enabled(cfg, s, Confirm)
    ensures Inv(cfg, Step(cfg, s, Confirm))
  {
  }

  lemma StoreRenameKeeps(cfg: Config, s: State)
    requires Inv(cfg, s) && Enabled(cfg, s, StoreRename) && s.endOffset <= s.synced
    ensures Inv(cfg, Step(cfg, s, StoreRename))
  {
    OneOpen(cfg, s);
    DiskRename(cfg, s.log, s.ends, s.saved, s.store, Renaming(cfg, s));
    FileAtRest(cfg, s.log, s.ends, s.endOffset, s.file, s.synced, s.saved, Renaming(cfg, s));
  }

  lemma StoreSyncKeeps(cfg: Config, s: State)
    requires Inv(cfg, s) && Enabled(cfg, s, StoreSync)
    ensures Inv(cfg, Step(cfg, s, StoreSync))
  {
    OneOpen(cfg, s);
    DiskSynced(cfg, s.log, s.ends, s.saved, s.store);
    FileAtRest(cfg, s.log, s.ends, s.endOffset, s.file, s.synced, s.saved, SyncAll(s.store));
  }

  lemma SkipKeeps(cfg: Config, s: State)
    requires Inv(cfg, s) && Enabled(cfg, s, Skip)
    ensures Inv(cfg, Step(cfg, s, Skip))
  {
    OneOpen(cfg, s);
  }

  lemma CheckpointRenameKeeps(cfg: Config, s: State)
    requires Inv(cfg, s) && Enabled(cfg, s, CheckpointRename) && AllSettled(s.store)
    ensures Inv(cfg, Step(cfg, s, CheckpointRename))
  {
    OneOpen(cfg, s);
    DiskCheckpointed(cfg, s.log, s.ends, s.saved, s.store);
    var t := Step(cfg, s, CheckpointRename);
    FileAtRest(cfg, s.log, s.ends, s.endOffset, s.file, s.synced, t.saved, s.store);
  }

  lemma CheckpointSyncKeeps(cfg: Config, s: State)
    requires Inv(cfg, s) && Enabled(cfg, s, CheckpointSync)
    ensures Inv(cfg, Step(cfg, s, CheckpointSync))
  {
    OneOpen(cfg, s);
    DiskSaved(cfg, s.log, s.ends, s.saved, s.store);
    FileAtRest(cfg, s.log, s.ends, s.endOffset, s.file, s.synced, s.saved.Sync(), s.store);
  }

  lemma DieKeeps(cfg: Config, s: State)
    requires Inv(cfg, s) && Enabled(cfg, s, Die)
    ensures Inv(cfg, Step(cfg, s, Die))
  {
  }

  lemma CutJournal(cfg: Config, s: State, kept: nat)
    requires Inv(cfg, s) && s.synced <= kept < s.endOffset
    ensures var t, file := Shortened(cfg, s, kept), s.file[..kept];
            && JournalOk(cfg, t.log, t.ends, t.endOffset, file) && TailOk(cfg, t.log, file[t.endOffset..])
            && Quiet(cfg, t.ends, s.saved) && StoreIs(cfg, t.log, s.store)
  {
    var t, file := Shortened(cfg, s, kept), s.file[..kept];
    assert file[..t.endOffset] == s.file[..t.endOffset];
    assert file[t.endOffset..] <= Frame(cfg.codec, Last(s.log));
    LastRecord(cfg, s.log);
  }

  /** A cut through the last record, which was not synced: the journal is what it was before it. */
  lemma CrashUndoesTheLast(cfg: Config, s: State, kept: nat, savedLeft: Option<Checkpoint>, storeLeft: map<string, Option<StoreRecord>>)
    requires Inv(cfg, s) && Enabled(cfg, s, Crash(kept, savedLeft, storeLeft)) && kept < s.endOffset
    ensures Inv(cfg, Step(cfg, s, Crash(kept, savedLeft, storeLeft)))
  {
    var t := Step(cfg, s, Crash(kept, savedLeft, storeLeft));
    CutJournal(cfg, s, kept);
    DiskAtRest(cfg, t.log, t.ends, s.saved, s.store);
    DiskCrashed(cfg, t.log, t.ends, s.saved, s.store, savedLeft, storeLeft);
  }

  lemma DiskAtRest(cfg: Config, log: seq<Entry<Command>>, ends: seq<nat>, saved: Cell<Option<Checkpoint>>, store: Store)
    requires Quiet(cfg, ends, saved) && StoreIs(cfg, log, store)
    ensures DiskOk(cfg, log, ends, saved, store)
  {
  }

  lemma CrashKeepsTheLast(cfg: Config, s: State, kept: nat, savedLeft: Option<Checkpoint>, storeLeft: map<string, Option<StoreRecord>>)
    requires Inv(cfg, s) && Enabled(cfg, s, Crash(kept, savedLeft, storeLeft)) && s.endOffset <= kept
    ensures Inv(cfg, Step(cfg, s, Crash(kept, savedLeft, storeLeft)))
  {
    var t := Step(cfg, s, Crash(kept, savedLeft, storeLeft));
    assert t.file[..t.endOffset] == s.file[..s.endOffset] && t.file[t.endOffset..] <= s.file[s.endOffset..];
    DiskCrashed(cfg, s.log, s.ends, s.saved, s.store, savedLeft, storeLeft);
  }

  lemma CrashKeeps(cfg: Config, s: State, kept: nat, savedLeft: Option<Checkpoint>, storeLeft: map<string, Option<StoreRecord>>)
    requires Inv(cfg, s) && Enabled(cfg, s, Crash(kept, savedLeft, storeLeft))
    ensures Inv(cfg, Step(cfg, s, Crash(kept, savedLeft, storeLeft)))
  {
    if kept < s.endOffset {
      CrashUndoesTheLast(cfg, s, kept, savedLeft, storeLeft);
    } else {
      CrashKeepsTheLast(cfg, s, kept, savedLeft, storeLeft);
    }
  }

  lemma WholeScan(cfg: Config, log: seq<Entry<Command>>, ends: seq<nat>, file: seq<byte>)
    requires JournalOk(cfg, log, ends, |file|, file)
    ensures Scan(cfg.codec, file, |cfg.header|, 1) == Recovered(log, ends, |file|, false)
  {
    assert file[..|file|] == file;
  }

  lemma TornScan(cfg: Config, log: seq<Entry<Command>>, ends: seq<nat>, endOffset: nat, file: seq<byte>, e: Entry<Command>)
    requires Lawful(cfg.codec) && JournalOk(cfg, log, ends, endOffset, file) && endOffset < |file|
    requires Encodable(cfg.codec, e) && file[endOffset..] < Frame(cfg.codec, e)
    ensures Scan(cfg.codec, file, |cfg.header|, 1) == Recovered(log, ends, endOffset, true)
  {
    TornTail(cfg.codec, file, endOffset, |cfg.header|, log, ends, e);
  }

  /** What a restart finds: the journal as it was, or with the one record that made it to disk. */
  lemma ScanFinds(cfg: Config, log: seq<Entry<Command>>, ends: seq<nat>, endOffset: nat, file: seq<byte>)
    returns (extra: Option<Entry<Command>>)
    requires Lawful(cfg.codec) && JournalOk(cfg, log, ends, endOffset, file) && TailOk(cfg, log, file[endOffset..])
    ensures extra == None ==>
              Scan(cfg.codec, file, |cfg.header|, 1) == Recovered(log, ends, endOffset, endOffset < |file|)
    ensures extra.Some? ==>
              && endOffset < |file|
              && Scan(cfg.codec, file, |cfg.header|, 1) == Recovered(log + [extra.value], ends + [|file|], |file|, false)
              && JournalOk(cfg, log + [extra.value], ends + [|file|], |file|, file)
              && Encodable(cfg.codec, extra.value) && file[endOffset..] == Frame(cfg.codec, extra.value)
  {
    if endOffset == |file| {
      WholeScan(cfg, log, ends, file);
      return None;
    }
    var e :| Extends(cfg, log, e) && Encodable(cfg.codec, e) && file[endOffset..] <= Frame(cfg.codec, e);
    if file[endOffset..] == Frame(cfg.codec, e) {
      JournalMore(cfg, log, ends, endOffset, file, e);
      WholeScan(cfg, log + [e], ends + [|file|], file);
      return Some(e);
    }
    TornScan(cfg, log, ends, endOffset, file, e);
    return None;
  }

  /** The journal as a restart opens it: what was scanned, cut behind the last whole frame. */
  lemma ReopenedJournal(cfg: Config, log: seq<Entry<Command>>, ends: seq<nat>, endOffset: nat, file: seq<byte>)
    requires JournalOk(cfg, log, ends, endOffset, file)
    ensures JournalOk(cfg, log, ends, endOffset, file[..endOffset]) && file[..endOffset][endOffset..] == []
  {
    assert file[..endOffset][..endOffset] == file[..endOffset];
  }

  lemma RestartsUnchanged(cfg: Config, s: State)
    requires Inv(cfg, s) && Enabled(cfg, s, Restart)
    requires Scan(cfg.codec, s.file, |cfg.header|, 1) == Recovered(s.log, s.ends, s.endOffset, s.endOffset < |s.file|)
    ensures Inv(cfg, Step(cfg, s, Restart))
  {
    var t := Step(cfg, s, Restart);
    ReopenedJournal(cfg, s.log, s.ends, s.endOffset, s.file);
    ReopenedFile(cfg, s);
    assert s.saved.Survives(s.saved.visible);
    if s.log != [] {
      StoreIsUniform(cfg, s.log, s.store);
    }
    assert MemoryOk(cfg, t) by {
      FoundCheckpoint(cfg, s);
    }
    assert t.session == Intents(t.log[t.booted..]) + t.outbox;
  }

  /** The checkpoint a restart loads is at the last record or at the one before. */
  lemma FoundCheckpoint(cfg: Config, s: State)
    requires Inv(cfg, s)
    ensures var c := if s.saved.visible.Some? then s.saved.visible.value else Checkpoint(cfg.journalId, 0, |cfg.header|);
            && c.recordId <= |s.log| <= c.recordId + 1 && c == CheckpointAt(View(cfg, s), c.recordId)
            && (c.recordId == |s.log| <==> IsAt(cfg, s.ends, s.saved.visible, |s.ends|))
  {
    assert s.saved.Survives(s.saved.visible);
  }

  lemma ReopenedFile(cfg: Config, s: State)
    requires Inv(cfg, s)
    ensures var synced := if s.endOffset < |s.file| then s.endOffset else s.synced;
            FileOk(cfg, s.log, s.ends, s.endOffset, s.file[..s.endOffset], synced, s.saved, s.store)
  {
    assert s.file[..s.endOffset][s.endOffset..] == [];
    assert s.endOffset == |s.file| ==> s.file[..s.endOffset] == s.file;
  }

  /** The record of a whole frame becomes the open one, synced or not. */
  lemma RestartsWithOneMore(cfg: Config, s: State, e: Entry<Command>, t: State)
    requires Inv(cfg, s) && !s.up && s.endOffset < |s.file|
    requires JournalOk(cfg, s.log + [e], s.ends + [|s.file|], |s.file|, s.file)
    requires Encodable(cfg.codec, e) && s.file[s.endOffset..] == Frame(cfg.codec, e)
    requires t == s.(up := true, booted := |s.log| + 1, log := s.log + [e], ends := s.ends + [|s.file|], endOffset := |s.file|,
                     checkpoint := CheckpointAt(View(cfg, s), |s.ends|))
    ensures Inv(cfg, t)
  {
    QuietMeansStored(cfg, s);
    DiskOneBehind(cfg, s.log, s.ends, s.saved, s.store, e, |s.file|);
    NewlyOpen(cfg, s, e);
  }

  lemma NewlyOpen(cfg: Config, s: State, e: Entry<Command>)
    requires Inv(cfg, s) && s.endOffset < |s.file| && StoreIs(cfg, s.log, s.store)
    requires Encodable(cfg.codec, e) && s.file[s.endOffset..] == Frame(cfg.codec, e)
    ensures FileOk(cfg, s.log + [e], s.ends + [|s.file|], |s.file|, s.file, s.synced, s.saved, s.store)
  {
    NotAhead(cfg, s);
    assert (s.log + [e])[..|s.log|] == s.log && (s.ends + [|s.file|])[..|s.ends|] == s.ends;
    assert s.file[|s.file|..] == [];
    OffsetOfLast(cfg, s.log, s.ends, s.endOffset, s.file);
  }

  /** The checkpoint of the last record is at the end of the journal. */
  lemma OffsetOfLast(cfg: Config, log: seq<Entry<Command>>, ends: seq<nat>, endOffset: nat, file: seq<byte>)
    requires JournalOk(cfg, log, ends, endOffset, file)
    ensures CheckpointAt(Tables(cfg.journalId, |cfg.header|, ends), |ends|).offset == endOffset
  {
    EndsWithTheLast(cfg.codec, file[..endOffset], |cfg.header|, 1, log, ends);
  }

  lemma RestartKeeps(cfg: Config, s: State)
    requires Inv(cfg, s) && Enabled(cfg, s, Restart)
    ensures Inv(cfg, Step(cfg, s, Restart))
  {
    var extra := ScanFinds(cfg, s.log, s.ends, s.endOffset, s.file);
    if extra == None {
      RestartsUnchanged(cfg, s);
    } else {
      assert s.file[..|s.file|] == s.file;
      RestartsWithOneMore(cfg, s, extra.value, Step(cfg, s, Restart));
    }
  }

  // ----- over whole runs -----

  lemma StepKeeps(cfg: Config, s: State, a: Action)
    requires Inv(cfg, s) && Enabled(cfg, s, a) && Prudent(s, a)
    ensures Inv(cfg, Step(cfg, s, a))
  {
    match a
    case Enqueue(i) => EnqueueKeeps(cfg, s, i);
    case DropTail => DropTailKeeps(cfg, s);
    case WriteFrame(cut) => WriteFrameKeeps(cfg, s, cut);
    case SyncFrame => SyncFrameKeeps(cfg, s);
    case Confirm => ConfirmKeeps(cfg, s);
    case Fetch =>
    case StoreRename => StoreRenameKeeps(cfg, s);
    case StoreSync => StoreSyncKeeps(cfg, s);
    case Skip => SkipKeeps(cfg, s);
    case CheckpointRename => CheckpointRenameKeeps(cfg, s);
    case CheckpointSync => CheckpointSyncKeeps(cfg, s);
    case Fail =>
    case Die => DieKeeps(cfg, s);
    case Crash(kept, savedLeft, storeLeft) => CrashKeeps(cfg, s, kept, savedLeft, storeLeft);
    case Restart => RestartKeeps(cfg, s);
  }

  /** The records no power loss can take back. */
  function Synced(s: State): seq<Entry<Command>> {
    if s.synced < s.endOffset && s.log != [] then Prefix(s.log) else s.log
  }

  lemma RestartForgetsNothing(cfg: Config, s: State)
    requires Inv(cfg, s) && Enabled(cfg, s, Restart)
    ensures Synced(s) <= Synced(Step(cfg, s, Restart)) && s.log <= Step(cfg, s, Restart).log
  {
    var extra := ScanFinds(cfg, s.log, s.ends, s.endOffset, s.file);
    if extra.Some? {
      NotAhead(cfg, s);
    }
  }

  lemma CrashForgetsNothing(cfg: Config, s: State, a: Action)
    requires Inv(cfg, s) && a.Crash? && Enabled(cfg, s, a)
    ensures Synced(s) <= Synced(Step(cfg, s, a))
  {
  }

  /** No step forgets a synced record, not even a power loss; and nothing but a power loss forgets one that
      is not. */
  lemma StepForgetsNothing(cfg: Config, s: State, a: Action)
    requires Inv(cfg, s) && Enabled(cfg, s, a)
    ensures Synced(s) <= Synced(Step(cfg, s, a))
    ensures !a.Crash? ==> s.log <= Step(cfg, s, a).log
  {
    if a.Restart? {
      RestartForgetsNothing(cfg, s);
    } else if a.Crash? {
      CrashForgetsNothing(cfg, s, a);
    }
  }

  /** The invariant over every prudent run, with the process dying and the power going anywhere; the synced
      journal only ever grows. */
  lemma {:induction false} RunKeeps(cfg: Config, s: State, actions: seq<Action>)
    requires Inv(cfg, s) && Runs(cfg, s, actions) && PrudentRun(cfg, s, actions)
    ensures Inv(cfg, End(cfg, s, actions)) && Synced(s) <= Synced(End(cfg, s, actions))
    decreases |actions|
  {
    if actions != [] {
      StepKeeps(cfg, s, actions[0]);
      StepForgetsNothing(cfg, s, actions[0]);
      RunKeeps(cfg, Step(cfg, s, actions[0]), actions[1..]);
    }
  }

  function Holding(initial: map<string, StoreRecord>): (r: Store)
    ensures forall id :: At(r, id) == Cell(if id in initial then Some(initial[id]) else None, {})
  {
    map id | id in initial :: Cell(Some(initial[id]), {})
  }

  /** A new journal in front of an existing store, about to be opened. */
  function Start(cfg: Config): State {
    State(false, Idle, [], [], 0, [], [], |cfg.header|, Checkpoint(cfg.journalId, 0, |cfg.header|),
          cfg.header, |cfg.header|, Cell(None, {}), Holding(cfg.initial))
  }

  lemma StartIsFine(cfg: Config)
    requires Sound(cfg)
    ensures Inv(cfg, Start(cfg))
  {
    var s := Start(cfg);
    assert s.file[..s.endOffset] == s.file && s.file[s.endOffset..] == [];
  }

  // ----- exactly once -----

  /** The snapshots the journal holds for one character, in journal order. */
  function Mine(log: seq<Entry<Command>>, id: string): seq<Snapshot> {
    if log == [] then [] else
      var i := Last(log).body.intent;
      Mine(Prefix(log), id) + (if i.identity.id == id then [i.snapshot] else [])
  }

  /** A character's initial record, moved on by one revision per snapshot and holding the last one. */
  function Moved(cfg: Config, id: string, snapshots: seq<Snapshot>): Option<StoreRecord> {
    var first := if id in cfg.initial then Some(cfg.initial[id]) else None;
    if snapshots == [] then first
    else Some(StoreRecord(Revision(first) + |snapshots|, cfg.stored(snapshots[|snapshots| - 1])))
  }

  lemma {:induction false} AfterIsMoved(cfg: Config, log: seq<Entry<Command>>, id: string)
    ensures After(cfg, log, id) == Moved(cfg, id, Mine(log, id))
  {
    if log != [] {
      AfterIsMoved(cfg, Prefix(log), id);
    }
  }

  /** Exactly-once replay. Over every prudent run from a new journal, with crashes between any two
      steps: once checkpoint and journal agree, each character's store record is its initial one moved
      on by exactly its journal records; and what a crash would leave at any moment is that, or that
      without the last journal record. */
  lemma ExactlyOnce(cfg: Config, actions: seq<Action>)
    requires Sound(cfg) && Runs(cfg, Start(cfg), actions) && PrudentRun(cfg, Start(cfg), actions)
    ensures var s := End(cfg, Start(cfg), actions);
            && (s.up && CaughtUp(s) ==> forall id :: At(s.store, id) == Cell(Moved(cfg, id, Mine(s.log, id)), {}))
            && (forall id, r :: At(s.store, id).Survives(r) ==>
                  r == Moved(cfg, id, Mine(s.log, id)) || (s.log != [] && r == Moved(cfg, id, Mine(Prefix(s.log), id))))
  {
    StartIsFine(cfg);
    RunKeeps(cfg, Start(cfg), actions);
    var s := End(cfg, Start(cfg), actions);
    if s.up && CaughtUp(s) {
      QuietMeansStored(cfg, s);
    }
    forall id
      ensures After(cfg, s.log, id) == Moved(cfg, id, Mine(s.log, id))
      ensures s.log != [] ==> After(cfg, Prefix(s.log), id) == Moved(cfg, id, Mine(Prefix(s.log), id))
    {
      AfterIsMoved(cfg, s.log, id);
      if s.log != [] { AfterIsMoved(cfg, Prefix(s.log), id); }
    }
  }

  /** While the process lives nothing it took is lost, doubled or reordered: the intents taken since its
      start are those journaled since its start followed by those still waiting. */
  lemma NothingTakenIsLost(cfg: Config, actions: seq<Action>)
    requires Sound(cfg) && Runs(cfg, Start(cfg), actions) && PrudentRun(cfg, Start(cfg), actions)
    ensures var s := End(cfg, Start(cfg), actions);
            s.up && !s.stage.Journaled? ==> s.booted <= |s.log| && s.session == Intents(s.log[s.booted..]) + s.outbox
  {
    StartIsFine(cfg);
    RunKeeps(cfg, Start(cfg), actions);
  }

  // ----- recovery -----

  /** Producers enqueue, and earlier releases journaled, only inventories in canonical form, which `Store.Save`
      stores as they are. */
  ghost predicate Canonical(cfg: Config) {
    && (forall i :: cfg.enqueues(i) ==> Stable(cfg, i.snapshot))
    && (forall c :: cfg.found(c) ==> Stable(cfg, c.intent.snapshot))
  }

  /** Replay compares the stored snapshot with the journaled one. It refuses the open record exactly when
      that record is already in the store and its snapshot was not stored as it is. */
  lemma ConflictExactlyWhen(cfg: Config, s: State)
    requires Inv(cfg, s) && s.up && HasCurrent(s)
    ensures Conflict(s) <==> Revision(Holds(s)) != Current(s).body.expectedRevision && !Stable(cfg, Current(s).body.intent.snapshot)
    ensures Canonical(cfg) ==> !Conflict(s)
  {
    OneOpen(cfg, s);
  }

  /** A restart is never refused, and finds at most one record behind the checkpoint. */
  lemma RestartSucceeds(cfg: Config, s: State)
    requires Inv(cfg, s) && !s.up
    ensures Enabled(cfg, s, Restart)
    ensures var t := Step(cfg, s, Restart);
            && t.checkpoint.recordId <= |t.log| <= t.checkpoint.recordId + 1
            && s.log <= t.log && |t.log| <= |s.log| + 1 && t.store == s.store && t.saved == s.saved
  {
    var extra := ScanFinds(cfg, s.log, s.ends, s.endOffset, s.file);
    FoundCheckpoint(cfg, s);
    if extra.Some? {
      IsStillAt(cfg, s.ends, |s.file|, s.saved.visible);
    }
  }

  lemma IsStillAt(cfg: Config, ends: seq<nat>, end: nat, v: Option<Checkpoint>)
    requires v.Some? ==> CheckpointFault(Tables(cfg.journalId, |cfg.header|, ends), v.value) == None
    ensures v.Some? ==> CheckpointFault(Tables(cfg.journalId, |cfg.header|, ends + [end]), v.value) == None
  {
  }

  lemma RunsMore(cfg: Config, s: State, a: Action, rest: seq<Action>)
    requires Enabled(cfg, s, a) && Prudent(s, a) && Runs(cfg, Step(cfg, s, a), rest) && PrudentRun(cfg, Step(cfg, s, a), rest)
    ensures Runs(cfg, s, [a] + rest) && PrudentRun(cfg, s, [a] + rest)
    ensures End(cfg, s, [a] + rest) == End(cfg, Step(cfg, s, a), rest)
  {
    assert ([a] + rest)[1..] == rest;
  }

  /** From the open record to the moved checkpoint, when no rename is in doubt. */
  lemma FinishRecord(cfg: Config, s: State) returns (actions: seq<Action>)
    requires Inv(cfg, s) && s.up && s.stage.Applying? && !Conflict(s) && AllSettled(s.store) && s.endOffset <= s.synced
    ensures |actions| <= 4 && Runs(cfg, s, actions) && PrudentRun(cfg, s, actions) && forall a :: a in actions ==> !a.Crash?
    ensures var t := End(cfg, s, actions); t.up && t.stage.Idle? && CaughtUp(t) && t.log == s.log && t.outbox == s.outbox
  {
    var applied := s;
    if SaveApplies(s) {
      var renamed := Step(cfg, s, StoreRename);
      StepKeeps(cfg, s, StoreRename);
      applied := Step(cfg, renamed, StoreSync);
      StepKeeps(cfg, renamed, StoreSync);
    } else {
      applied := Step(cfg, s, Skip);
      StepKeeps(cfg, s, Skip);
    }
    assert AllSettled(applied.store);
    actions := FinishCheckpoint(cfg, applied);
    if SaveApplies(s) {
      RunsMore(cfg, Step(cfg, s, StoreRename), StoreSync, actions);
      RunsMore(cfg, s, StoreRename, [StoreSync] + actions);
      actions := [StoreRename] + ([StoreSync] + actions);
    } else {
      RunsMore(cfg, s, Skip, actions);
      actions := [Skip] + actions;
    }
  }

  lemma FinishCheckpoint(cfg: Config, s: State) returns (actions: seq<Action>)
    requires Inv(cfg, s) && s.up && s.stage.Applied? && AllSettled(s.store)
    ensures |actions| == 2 && Runs(cfg, s, actions) && PrudentRun(cfg, s, actions) && forall a :: a in actions ==> !a.Crash?
    ensures var t := End(cfg, s, actions); t.up && t.stage.Idle? && CaughtUp(t) && t.log == s.log && t.outbox == s.outbox
  {
    OneOpen(cfg, s);
    var saving := Step(cfg, s, CheckpointRename);
    StepKeeps(cfg, s, CheckpointRename);
    RunsMore(cfg, saving, CheckpointSync, []);
    RunsMore(cfg, s, CheckpointRename, [CheckpointSync] + []);
    actions := [CheckpointRename] + ([CheckpointSync] + []);
  }

  /** Nothing on disk is in doubt. */
  predicate Clean(s: State) {
    s.saved.Settled() && AllSettled(s.store) && s.synced == |s.file|
  }

  lemma PowerLossLeavesNoDoubt(cfg: Config, s: State, kept: nat, savedLeft: Option<Checkpoint>, storeLeft: map<string, Option<StoreRecord>>)
    requires Enabled(cfg, s, Crash(kept, savedLeft, storeLeft))
    ensures Clean(Step(cfg, s, Crash(kept, savedLeft, storeLeft)))
  {
  }

  /** Recovery never wedges: from whatever a power loss leaves, at most six steps bring the process up with
      checkpoint and store at the end of a journal that lost nothing. */
  lemma RecoveryCompletes(cfg: Config, s: State) returns (actions: seq<Action>)
    requires Inv(cfg, s) && !s.up && Clean(s) && Canonical(cfg)
    ensures |actions| <= 6 && Runs(cfg, s, actions) && PrudentRun(cfg, s, actions)
    ensures forall a :: a in actions ==> !a.Crash?
    ensures var t := End(cfg, s, actions);
            t.up && t.stage.Idle? && CaughtUp(t) && s.log <= t.log && StoreIs(cfg, t.log, t.store)
  {
    RestartSucceeds(cfg, s);
    RestartIsSynced(cfg, s);
    var rest := FinishOpen(cfg, Step(cfg, s, Restart));
    RunsMore(cfg, s, Restart, rest);
    actions := [Restart] + rest;
    RunKeeps(cfg, Step(cfg, s, Restart), rest);
    QuietMeansStored(cfg, End(cfg, s, actions));
  }

  lemma RestartIsSynced(cfg: Config, s: State)
    requires Inv(cfg, s) && Enabled(cfg, s, Restart) && Clean(s)
    ensures var t := Step(cfg, s, Restart);
            Inv(cfg, t) && t.up && t.stage.Idle? && AllSettled(t.store) && t.endOffset <= t.synced
  {
    RestartKeeps(cfg, s);
  }

  /** The open record, if there is one, is applied and the checkpoint moved over it. */
  lemma FinishOpen(cfg: Config, s: State) returns (actions: seq<Action>)
    requires Inv(cfg, s) && s.up && s.stage.Idle? && AllSettled(s.store) && s.endOffset <= s.synced && Canonical(cfg)
    ensures |actions| <= 5 && Runs(cfg, s, actions) && PrudentRun(cfg, s, actions) && forall a :: a in actions ==> !a.Crash?
    ensures var t := End(cfg, s, actions); t.up && t.stage.Idle? && CaughtUp(t) && t.log == s.log
  {
    actions := [];
    if HasCurrent(s) {
      var fetched := Step(cfg, s, Fetch);
      StepKeeps(cfg, s, Fetch);
      ConflictExactlyWhen(cfg, fetched);
      actions := FinishRecord(cfg, fetched);
      RunsMore(cfg, s, Fetch, actions);
      actions := [Fetch] + actions;
    }
  }

  /** Restarting over a file that ends with a whole frame. */
  lemma RestartsAsItWas(cfg: Config, s: State)
    requires Inv(cfg, s) && !s.up && s.endOffset == |s.file|
    ensures Enabled(cfg, s, Restart)
    ensures Step(cfg, s, Restart) == s.(up := true, booted := |s.log|, checkpoint :=
              if s.saved.visible.Some? then s.saved.visible.value else Checkpoint(cfg.journalId, 0, |cfg.header|))
  {
    RestartSucceeds(cfg, s);
    WholeScan(cfg, s.log, s.ends, s.file);
    assert s.file[..|s.file|] == s.file;
  }

  // ----- runs step by step -----

  lemma {:induction false} RunsOn(cfg: Config, s: State, actions: seq<Action>, a: Action)
    requires Runs(cfg, s, actions) && Enabled(cfg, End(cfg, s, actions), a)
    ensures Runs(cfg, s, actions + [a]) && End(cfg, s, actions + [a]) == Step(cfg, End(cfg, s, actions), a)
    ensures PrudentRun(cfg, s, actions + [a]) <==> PrudentRun(cfg, s, actions) && Prudent(End(cfg, s, actions), a)
    decreases |actions|
  {
    if actions == [] {
      assert [a][1..] == [];
    } else {
      assert (actions + [a])[1..] == actions[1..] + [a];
      RunsOn(cfg, Step(cfg, s, actions[0]), actions[1..], a);
    }
  }

  lemma {:induction false} RunsJoin(cfg: Config, s: State, first: seq<Action>, then_: seq<Action>)
    requires Runs(cfg, s, first) && Runs(cfg, End(cfg, s, first), then_)
    ensures Runs(cfg, s, first + then_) && End(cfg, s, first + then_) == End(cfg, End(cfg, s, first), then_)
    ensures PrudentRun(cfg, s, first + then_) <==> PrudentRun(cfg, s, first) && PrudentRun(cfg, End(cfg, s, first), then_)
    decreases |first|
  {
    if first == [] {
      assert first + then_ == then_;
    } else {
      assert (first + then_)[1..] == first[1..] + then_;
      RunsJoin(cfg, Step(cfg, s, first[0]), first[1..], then_);
    }
  }

  ghost predicate Moves(cfg: Config, s: State, a: Action, t: State) {
    Enabled(cfg, s, a) && Step(cfg, s, a) == t
  }

  /** A run with the states it goes through. */
  ghost predicate Path(cfg: Config, states: seq<State>, actions: seq<Action>) {
    && |states| == |actions| + 1
    && forall k {:trigger actions[k]} :: 0 <= k < |actions| ==> Moves(cfg, states[k], actions[k], states[k + 1])
  }

  lemma MovesAt(cfg: Config, states: seq<State>, actions: seq<Action>, k: nat)
    requires Path(cfg, states, actions) && k < |actions|
    ensures Moves(cfg, states[k], actions[k], states[k + 1]) && actions[k] in actions
  {
  }

  lemma PathBehind(cfg: Config, states: seq<State>, actions: seq<Action>)
    requires Path(cfg, states, actions) && actions != []
    ensures Path(cfg, states[1..], actions[1..])
  {
    forall k | 0 <= k < |actions| - 1 ensures Moves(cfg, states[1..][k], actions[1..][k], states[1..][k + 1]) {
      assert actions[1..][k] == actions[k + 1];
    }
  }

  lemma {:induction false} PathRuns(cfg: Config, states: seq<State>, actions: seq<Action>)
    requires Path(cfg, states, actions)
    ensures Runs(cfg, states[0], actions) && End(cfg, states[0], actions) == states[|actions|]
    decreases |actions|
  {
    if actions != [] {
      MovesAt(cfg, states, actions, 0);
      PathBehind(cfg, states, actions);
      PathRuns(cfg, states[1..], actions[1..]);
    }
  }

  lemma PathPrefix(cfg: Config, states: seq<State>, actions: seq<Action>, k: nat)
    requires Path(cfg, states, actions) && k <= |actions|
    ensures Path(cfg, states[..k + 1], actions[..k])
  {
    forall j | 0 <= j < k ensures Moves(cfg, states[..k + 1][j], actions[..k][j], states[..k + 1][j + 1]) {
      assert actions[..k][j] == actions[j];
    }
  }

  ghost predicate PrudentPath(states: seq<State>, actions: seq<Action>) {
    |states| == |actions| + 1 && forall k {:trigger actions[k]} :: 0 <= k < |actions| ==> Prudent(states[k], actions[k])
  }

  lemma {:induction false} PathIsPrudent(cfg: Config, states: seq<State>, actions: seq<Action>)
    requires Path(cfg, states, actions) && PrudentPath(states, actions) && Runs(cfg, states[0], actions)
    ensures PrudentRun(cfg, states[0], actions)
    decreases |actions|
  {
    if actions != [] {
      MovesAt(cfg, states, actions, 0);
      PathBehind(cfg, states, actions);
      assert PrudentPath(states[1..], actions[1..]) by {
        forall k | 0 <= k < |actions| - 1 ensures Prudent(states[1..][k], actions[1..][k]) {
          assert actions[1..][k] == actions[k + 1];
        }
      }
      PathIsPrudent(cfg, states[1..], actions[1..]);
    }
  }

  /** The invariant at every state of a prudent run. */
  lemma PathKeeps(cfg: Config, states: seq<State>, actions: seq<Action>, k: nat)
    requires Path(cfg, states, actions) && Inv(cfg, states[0]) && k < |states| && PrudentPath(states, actions)
    ensures Inv(cfg, states[k])
  {
    PathPrefix(cfg, states, actions, k);
    PathRuns(cfg, states[..k + 1], actions[..k]);
    assert PrudentPath(states[..k + 1], actions[..k]) by {
      forall j | 0 <= j < k ensures Prudent(states[..k + 1][j], actions[..k][j]) {
        assert actions[..k][j] == actions[j];
      }
    }
    PathIsPrudent(cfg, states[..k + 1], actions[..k]);
    RunKeeps(cfg, states[0], actions[..k]);
  }

  lemma PathOn(cfg: Config, states: seq<State>, actions: seq<Action>, a: Action, t: State)
    requires Path(cfg, states, actions) && Moves(cfg, states[|actions|], a, t)
    ensures Path(cfg, states + [t], actions + [a])
  {
    var more := actions + [a];
    forall k | 0 <= k < |more| ensures Moves(cfg, (states + [t])[k], more[k], (states + [t])[k + 1]) {
      if k < |actions| { assert more[k] == actions[k]; }
    }
  }

  // ----- an intent the journal does not take -----

  ghost predicate Unjournalable(cfg: Config, i: Intent) {
    forall revision :: !cfg.codec.accepts(Command(revision, i))
  }

  /** The intent waits and is not being written. */
  ghost predicate Waits(cfg: Config, s: State, i: Intent) {
    && s.up && i in s.outbox && Unjournalable(cfg, i)
    && (s.stage.Written? || s.stage.Journaled? ==> !Unjournalable(cfg, s.outbox[0]))
  }

  /** It waits for as long as the process lives: only the end of the process takes it out of the outbox. */
  lemma StepLeavesItWaiting(cfg: Config, s: State, a: Action, i: Intent)
    requires Waits(cfg, s, i) && Enabled(cfg, s, a) && !a.Die? && !a.Crash?
    ensures Waits(cfg, Step(cfg, s, a), i)
  {
    if a.WriteFrame? {
      assert cfg.codec.accepts(Command(NextEntry(s).body.expectedRevision, s.outbox[0]));
    }
  }

  /** No process has ended. */
  predicate Lived(actions: seq<Action>) {
    forall a :: a in actions ==> !a.Die? && !a.Crash?
  }

  lemma {:induction false} PathLeavesItWaiting(cfg: Config, states: seq<State>, actions: seq<Action>, k: nat, n: nat, i: Intent)
    requires Path(cfg, states, actions) && Lived(actions) && k <= n < |states| && Waits(cfg, states[k], i)
    ensures Waits(cfg, states[n], i)
  {
    if k < n {
      PathLeavesItWaiting(cfg, states, actions, k, n - 1, i);
      assert Moves(cfg, states[n - 1], actions[n - 1], states[n]);
      StepLeavesItWaiting(cfg, states[n - 1], actions[n - 1], i);
    }
  }
}
