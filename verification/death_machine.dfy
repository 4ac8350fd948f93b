/** The steps of the death-outcome pipeline behind its outbox: one action for each effect on the journal file, the
    consumer and the checkpoint file, with the death of the process and the loss of power between any two. */
module DeathMachine {
  import opened Outcomes
  import opened Framing
  import opened Journals

  datatype Event = Event(eventId: nat, entityId: nat, revision: nat, body: int)

  /** What does not change from process to process. */
  datatype Setup = Setup(codec: Codec<Event>, magic: seq<byte>, header: seq<byte>)

  datatype Stage =
    | Idle
    | Writing(event: Event)  // the frame is in the file, as far as the write went, but not synced
    | Delivered              // the consumer has taken the record
    | Renamed                // its checkpoint is renamed into place, the directory not synced

  /** `entries`, `ends`, `endOffset` and `checkpoint` are what the open journal and its process know; while none
      runs they are only history. The first `synced` bytes of the file are durable. `deliveries` are all calls of
      the consumer ever, `faults` the deliveries that were given up and the processes that have ended. */
  datatype Moment = Moment(
    up: bool, stage: Stage, entries: seq<Entry<Event>>, ends: seq<nat>, endOffset: nat, file: seq<byte>, synced: nat,
    saved: Cell<Option<Checkpoint>>, checkpoint: Checkpoint, deliveries: seq<Entry<Event>>, faults: nat)

  datatype Action =
    | DropTail
    | Write(event: Event, cut: nat)
    | SyncFrame
    | Deliver
    | SaveRename
    | SaveSync
    | GiveUp
    | Die
    | LosePower(kept: nat, left: Option<Checkpoint>)
    | Start

  function TablesOf(setup: Setup, ends: seq<nat>): Tables
    requires |setup.magic| <= |setup.header|
  {
    Tables(setup.header[|setup.magic|..], |setup.header|, ends)
  }

  predicate HasOpen(m: Moment) {
    m.checkpoint.recordId < |m.entries| == |m.ends|
  }

  /** The checkpoint of the record behind the one in memory. */
  function Following(setup: Setup, m: Moment): Checkpoint
    requires |setup.magic| <= |setup.header| && HasOpen(m)
  {
    CheckpointAt(TablesOf(setup, m.ends), m.checkpoint.recordId + 1)
  }

  function NextEntry(m: Moment, event: Event): Entry<Event> {
    Entry(|m.entries| + 1, event)
  }

  /** What is durable behind the start of the next process: the end of a torn tail is cut off and synced. */
  function SyncedAt(scan: ScanResult<Event>, synced: nat): nat {
    if scan.Recovered? && scan.torn then scan.end else synced
  }

  predicate CanStart(setup: Setup, m: Moment) {
    && !m.up && |setup.magic| <= |setup.header| && setup.header <= m.file
    && var scan := Scan(setup.codec, m.file, |setup.header|, 1);
    && scan.Recovered?
    && (m.saved.visible.Some? ==> CheckpointFault(TablesOf(setup, scan.ends), m.saved.visible.value) == None)
  }

  ghost predicate Enabled(setup: Setup, m: Moment, a: Action) {
    && |setup.magic| <= |setup.header| && Lawful(setup.codec)
    && match a
       case DropTail => m.up && m.stage.Idle? && m.endOffset <= |m.file|
       case Write(event, cut) =>
         && m.up && m.stage.Idle? && m.endOffset == |m.file| && |m.entries| < MAX_UINT64
         && Encodable(setup.codec, NextEntry(m, event)) && cut <= |Frame(setup.codec, NextEntry(m, event))|
       case SyncFrame =>
         && m.up && m.stage.Writing? && m.endOffset <= |m.file| && Encodable(setup.codec, NextEntry(m, m.stage.event))
         && m.file[m.endOffset..] == Frame(setup.codec, NextEntry(m, m.stage.event))
       case Deliver => m.up && m.stage.Idle? && HasOpen(m)
       case SaveRename => m.up && m.stage.Delivered? && HasOpen(m)
       case SaveSync => m.up && m.stage.Renamed? && HasOpen(m)
       case GiveUp => m.up && !m.stage.Idle?
       case Die => m.up
       case LosePower(kept, left) => !m.up && m.synced <= kept <= |m.file| && m.saved.Survives(left)
       case Start => CanStart(setup, m)
  }

  ghost function Step(setup: Setup, m: Moment, a: Action): Moment
    requires Enabled(setup, m, a)
  {
    match a
    case DropTail => m.(file := m.file[..m.endOffset])
    case Write(event, cut) => m.(file := m.file + Frame(setup.codec, NextEntry(m, event))[..cut], stage := Writing(event))
    case SyncFrame =>
      m.(entries := m.entries + [NextEntry(m, m.stage.event)], ends := m.ends + [|m.file|], endOffset := |m.file|,
         synced := |m.file|, stage := Idle)
    case Deliver => m.(deliveries := m.deliveries + [m.entries[m.checkpoint.recordId]], stage := Delivered)
    case SaveRename => m.(saved := m.saved.Rename(Some(Following(setup, m))), stage := Renamed)
    case SaveSync => m.(saved := m.saved.Sync(), checkpoint := Following(setup, m), stage := Idle)
    case GiveUp => m.(stage := Idle, faults := m.faults + if m.stage.Writing? then 0 else 1)
    case Die => m.(up := false, stage := Idle, faults := m.faults + 1)
    case LosePower(kept, left) => m.(file := m.file[..kept], synced := kept, saved := Cell(left, {}))
    case Start =>
      var scan := Scan(setup.codec, m.file, |setup.header|, 1);
      m.(up := true, stage := Idle, entries := scan.entries, ends := scan.ends, endOffset := scan.end, file := m.file[..scan.end],
         synced := SyncedAt(scan, m.synced),
         checkpoint := if m.saved.visible.Some? then m.saved.visible.value else CheckpointAt(TablesOf(setup, scan.ends), 0))
  }

  // ----- runs -----

  ghost predicate Moves(setup: Setup, m: Moment, a: Action, n: Moment) {
    Enabled(setup, m, a) && Step(setup, m, a) == n
  }

  ghost predicate Path(setup: Setup, moments: seq<Moment>, actions: seq<Action>) {
    && |moments| == |actions| + 1
    && forall k {:trigger actions[k]} :: 0 <= k < |actions| ==> Moves(setup, moments[k], actions[k], moments[k + 1])
  }

  ghost predicate Runs(setup: Setup, m: Moment, actions: seq<Action>, n: Moment) {
    exists moments :: Path(setup, moments, actions) && moments[0] == m && moments[|actions|] == n
  }

  lemma RunsJoin(setup: Setup, m: Moment, first: seq<Action>, n: Moment, then_: seq<Action>, o: Moment)
    requires Runs(setup, m, first, n) && Runs(setup, n, then_, o)
    ensures Runs(setup, m, first + then_, o)
  {
    var before :| Path(setup, before, first) && before[0] == m && before[|first|] == n;
    var behind :| Path(setup, behind, then_) && behind[0] == n && behind[|then_|] == o;
    var all, actions := before + behind[1..], first + then_;
    forall k | 0 <= k < |actions| ensures Moves(setup, all[k], actions[k], all[k + 1]) {
      if k < |first| { assert actions[k] == first[k]; } else { assert actions[k] == then_[k - |first|]; }
    }
    assert Path(setup, all, actions) && all[0] == m && all[|actions|] == o;
  }

  lemma RunsNowhere(setup: Setup, m: Moment)
    ensures Runs(setup, m, [], m)
  {
    assert Path(setup, [m], []) && [m][0] == m;
  }

  lemma RunsOne(setup: Setup, m: Moment, a: Action)
    requires Enabled(setup, m, a)
    ensures Runs(setup, m, [a], Step(setup, m, a))
  {
    var n := Step(setup, m, a);
    assert Path(setup, [m, n], [a]) && [m, n][0] == m && [m, n][1] == n;
  }

  lemma RunsOn(setup: Setup, m: Moment, actions: seq<Action>, n: Moment, a: Action, o: Moment)
    requires Runs(setup, m, actions, n) && Moves(setup, n, a, o)
    ensures Runs(setup, m, actions + [a], o)
  {
    RunsOne(setup, n, a);
    RunsJoin(setup, m, actions, n, [a], o);
  }

  lemma PathOn(setup: Setup, moments: seq<Moment>, actions: seq<Action>, a: Action, n: Moment)
    requires Path(setup, moments, actions) && Moves(setup, moments[|actions|], a, n)
    ensures Path(setup, moments + [n], actions + [a])
  {
    var more := actions + [a];
    forall k | 0 <= k < |more| ensures Moves(setup, (moments + [n])[k], more[k], (moments + [n])[k + 1]) {
      if k < |actions| { assert more[k] == actions[k]; }
    }
  }

  /** A new journal and no checkpoint yet. */
  function New(setup: Setup): Moment
    requires |setup.magic| <= |setup.header|
  {
    Moment(true, Idle, [], [], |setup.header|, setup.header, |setup.header|, Cell(None, {}), CheckpointAt(TablesOf(setup, []), 0), [], 0)
  }
}
