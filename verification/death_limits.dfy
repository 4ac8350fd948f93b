/** Where the order of deliveries ends: runs in which no call fails and the consumer still sees a record again behind
    a later one, or one that the journal then no longer has. */
module DeathLimits {
  import opened Outcomes
  import opened Framing
  import opened Journals
  import opened DeathMachine
  import opened DeathGuarantees

  /** No call fails; processes may die and the power may go. */
  predicate Flawless(actions: seq<Action>) {
    forall a :: a in actions ==> !a.GiveUp?
  }

  /** A process at rest, with everything synced and nothing in doubt. */
  ghost predicate AtRest(setup: Setup, m: Moment) {
    && Lawful(setup.codec) && |setup.magic| <= |setup.header| && setup.header <= m.file && |m.entries| <= MAX_UINT64
    && m.up && m.stage.Idle? && m.endOffset == |m.file| == m.synced
    && Intact(setup.codec, m.file, |setup.header|, 1, m.entries, m.ends)
    && m.checkpoint.recordId <= |m.entries| == |m.ends|
    && m.checkpoint == CheckpointAt(TablesOf(setup, m.ends), m.checkpoint.recordId)
    && m.saved == Cell(if m.checkpoint.recordId == 0 then None else Some(m.checkpoint), {})
  }

  // ----- exactly when it may -----

  /** A process that starts from a checkpoint at `level` delivers out of order. */
  predicate GoesBack(log: seq<Entry<Event>>, deliveries: seq<Entry<Event>>, level: nat) {
    level < |log| && !InOrder(log, deliveries + [log[level]])
  }

  /** Behind a delivery a power loss may make the consumer see an earlier record, exactly when the one delivered was new
      to it and the checkpoint before it is not synced. */
  lemma MayGoBackExactlyWhen(setup: Setup, m: Moment)
    requires Inv(setup, m) && InvPrudent(setup, m) && Enabled(setup, m, Deliver)
    ensures (exists c :: m.saved.Survives(c) && GoesBack(m.entries, Step(setup, m, Deliver).deliveries, Level(c)))
            <==> !m.saved.Settled() && LastId(m.deliveries) != m.checkpoint.recordId + 1
  {
    var log, level := m.entries, m.checkpoint.recordId;
    var more := m.deliveries + [log[level]];
    AnchoredExactlyWhen(setup, m);
    SeenInOrder(log, m.deliveries, log[level]);
    if Anchored(m.saved, level) {
      forall c | m.saved.Survives(c) ensures !GoesBack(log, more, Level(c)) {
        if Level(c) < |log| { SeenInOrder(log, more, log[Level(c)]); }
      }
    } else {
      var c :| m.saved.Survives(c) && Level(c) < level;
      var again := more + [log[Level(c)]];
      assert again[..|more|] == more && !DeliveryOk(log, again, |more|);
      assert GoesBack(log, more, Level(c));
    }
  }

  /** A power loss may leave the journal without a record exactly when the record is not synced. */
  lemma MayMissExactlyWhen(codec: Codec<Event>, file: seq<byte>, start: nat, entries: seq<Entry<Event>>, ends: seq<nat>, synced: nat, k: nat)
    requires Intact(codec, file, start, 1, entries, ends) && start <= synced <= |file| && k < |entries| == |ends|
    ensures (exists kept :: synced <= kept <= |file| && Misses(codec, file[..kept], start, k)) <==> WholeUpTo(ends, synced) <= k
  {
    CutAnywhere(codec, file, start, entries, ends, synced);
    if WholeUpTo(ends, synced) <= k {
      assert Misses(codec, file[..synced], start, k);
    } else {
      forall kept | synced <= kept <= |file| ensures !Misses(codec, file[..kept], start, k) {
        CutAnywhere(codec, file, start, entries, ends, kept);
        LaterCutKeepsMore(ends, synced, kept);
      }
    }
  }

  /** The journal that is opened does not hold the k-th record. */
  ghost predicate Misses(codec: Codec<Event>, file: seq<byte>, start: nat, k: nat)
    requires start <= |file|
  {
    var scan := Scan(codec, file, start, 1);
    scan.Recovered? && |scan.entries| <= k
  }

  // ----- pieces of runs -----

  /** The record behind the checkpoint is delivered and its checkpoint renamed; then the process dies, and the next one
      goes on from there. */
  function Redone(setup: Setup, m: Moment): Moment
    requires |setup.magic| <= |setup.header| && HasOpen(m)
  {
    var next := Following(setup, m);
    m.(deliveries := m.deliveries + [m.entries[m.checkpoint.recordId]], saved := m.saved.Rename(Some(next)), checkpoint := next,
       faults := m.faults + 1)
  }

  /** What the next process finds. */
  ghost predicate Readable(setup: Setup, m: Moment) {
    && Lawful(setup.codec) && |setup.magic| <= |setup.header| && setup.header <= m.file
    && m.up && m.stage.Idle? && m.endOffset == |m.file| && |m.entries| == |m.ends|
    && Intact(setup.codec, m.file, |setup.header|, 1, m.entries, m.ends)
  }

  /** A delivery up to the rename of its checkpoint. */
  function Renamed(setup: Setup, m: Moment): Moment
    requires |setup.magic| <= |setup.header| && HasOpen(m)
  {
    m.(deliveries := m.deliveries + [m.entries[m.checkpoint.recordId]], saved := m.saved.Rename(Some(Following(setup, m))), stage := Stage.Renamed)
  }

  lemma DeliversAndRenames(setup: Setup, m: Moment) returns (actions: seq<Action>)
    requires Readable(setup, m) && HasOpen(m)
    ensures Runs(setup, m, actions, Renamed(setup, m)) && Flawless(actions)
  {
    var delivered := Step(setup, m, Deliver);
    RunsOne(setup, m, Deliver);
    RunsOn(setup, m, [Deliver], delivered, SaveRename, Renamed(setup, m));
    actions := [Deliver] + [SaveRename];
  }

  lemma DiesBehindTheRename(setup: Setup, m: Moment) returns (actions: seq<Action>)
    requires Readable(setup, m) && HasOpen(m)
    ensures Readable(setup, Redone(setup, m)) && Runs(setup, m, actions, Redone(setup, m)) && Flawless(actions)
  {
    actions := DeliversAndRenames(setup, m);
    var renamed := Renamed(setup, m);
    var down := Step(setup, renamed, Die);
    StartsAsItWas(setup, down, m.entries, m.ends);
    RunsOn(setup, m, actions, renamed, Die, down);
    RunsOn(setup, m, actions + [Die], down, Start, Redone(setup, m));
    actions := actions + [Die] + [Start];
  }

  /** A start over a file that ends with a whole frame. */
  lemma StartsAsItWas(setup: Setup, down: Moment, entries: seq<Entry<Event>>, ends: seq<nat>)
    requires Lawful(setup.codec) && |setup.magic| <= |setup.header| && setup.header <= down.file && !down.up
    requires Intact(setup.codec, down.file, |setup.header|, 1, entries, ends)
    requires down.saved.visible.Some? ==> CheckpointFault(TablesOf(setup, ends), down.saved.visible.value) == None
    ensures Enabled(setup, down, Start)
    ensures Step(setup, down, Start)
            == down.(up := true, stage := Idle, entries := entries, ends := ends, endOffset := |down.file|, checkpoint :=
                 if down.saved.visible.Some? then down.saved.visible.value else CheckpointAt(TablesOf(setup, ends), 0))
  {
    assert down.file[..|down.file|] == down.file;
  }

  /** The process dies, the power goes and takes whole frames and a checkpoint with it, and the next process starts. */
  lemma LosesAndStarts(setup: Setup, m: Moment, kept: nat, left: Option<Checkpoint>, entries: seq<Entry<Event>>, ends: seq<nat>)
    returns (actions: seq<Action>)
    requires Lawful(setup.codec) && |setup.magic| <= |setup.header| <= kept && setup.header <= m.file && m.up
    requires m.synced <= kept <= |m.file| && m.saved.Survives(left)
    requires Intact(setup.codec, m.file[..kept], |setup.header|, 1, entries, ends)
    requires left.Some? ==> CheckpointFault(TablesOf(setup, ends), left.value) == None
    ensures Flawless(actions)
    ensures Runs(setup, m, actions, m.(stage := Idle, entries := entries, ends := ends, endOffset := kept, file := m.file[..kept], synced := kept,
                                       faults := m.faults + 1,
                                       saved := Cell(left, {}), checkpoint := if left.Some? then left.value else CheckpointAt(TablesOf(setup, ends), 0)))
  {
    var dead := Step(setup, m, Die);
    var down := Step(setup, dead, LosePower(kept, left));
    assert setup.header <= m.file[..kept];
    StartsAsItWas(setup, down, entries, ends);
    RunsOne(setup, m, Die);
    RunsOn(setup, m, [Die], dead, LosePower(kept, left), down);
    RunsOn(setup, m, [Die] + [LosePower(kept, left)], down, Start, Step(setup, down, Start));
    actions := [Die] + [LosePower(kept, left)] + [Start];
  }

  // ----- an earlier record behind a later one -----

  lemma RenamesTwice(setup: Setup, m: Moment) returns (actions: seq<Action>)
    requires AtRest(setup, m) && m.checkpoint.recordId + 2 <= |m.entries|
    ensures Runs(setup, m, actions, Renamed(setup, Redone(setup, m))) && Flawless(actions)
  {
    actions := DiesBehindTheRename(setup, m);
    var more := DeliversAndRenames(setup, Redone(setup, m));
    RunsJoin(setup, m, actions, Redone(setup, m), more, Renamed(setup, Redone(setup, m)));
    actions := actions + more;
  }

  lemma TakesBothBack(setup: Setup, m: Moment) returns (actions: seq<Action>, n: Moment)
    requires AtRest(setup, m) && m.checkpoint.recordId + 2 <= |m.entries|
    ensures var twice := Renamed(setup, Redone(setup, m));
            && Runs(setup, twice, actions, n) && Flawless(actions)
            && n.entries == m.entries && n.deliveries == twice.deliveries + [m.entries[m.checkpoint.recordId]]
  {
    var twice := Renamed(setup, Redone(setup, m));
    assert m.file[..|m.file|] == m.file;
    actions := LosesAndStarts(setup, twice, |m.file|, m.saved.visible, m.entries, m.ends);
    var back := twice.(stage := Idle, faults := twice.faults + 1, endOffset := |m.file|, synced := |m.file|, saved := m.saved, checkpoint := m.checkpoint);
    n := Step(setup, back, Deliver);
    RunsOn(setup, twice, actions, back, Deliver, n);
    actions := actions + [Deliver];
  }

  /** Twice the process dies between the rename of a checkpoint and the sync of its directory; then a power loss takes
      both checkpoints. The consumer sees two records and then the first of them again. */
  lemma SeenAgain(setup: Setup, m: Moment) returns (actions: seq<Action>, n: Moment)
    requires AtRest(setup, m) && m.checkpoint.recordId + 2 <= |m.entries|
    ensures Runs(setup, m, actions, n) && Flawless(actions)
    ensures var k := m.checkpoint.recordId;
            n.entries == m.entries && n.deliveries == m.deliveries + [m.entries[k], m.entries[k + 1], m.entries[k]]
    ensures !InOrder(n.entries, n.deliveries)
  {
    var k := m.checkpoint.recordId;
    var more;
    actions := RenamesTwice(setup, m);
    more, n := TakesBothBack(setup, m);
    RunsJoin(setup, m, actions, Renamed(setup, Redone(setup, m)), more, n);
    actions := actions + more;
    ReadsBack(setup.codec, m.file, |setup.header|, 1, m.entries, m.ends, k);
    ReadsBack(setup.codec, m.file, |setup.header|, 1, m.entries, m.ends, k + 1);
    OutOfOrder(m.entries, m.deliveries, m.entries[k], m.entries[k + 1]);
  }

  lemma OutOfOrder(log: seq<Entry<Event>>, deliveries: seq<Entry<Event>>, first: Entry<Event>, second: Entry<Event>)
    requires first.id < second.id
    ensures deliveries + [first] + [second] + [first] == deliveries + [first, second, first]
    ensures !InOrder(log, deliveries + [first, second, first])
  {
    var more, i := deliveries + [first, second, first], |deliveries| + 2;
    assert more[..i] == deliveries + [first, second];
    assert !DeliveryOk(log, more, i);
  }

  // ----- a record that is delivered and gone -----

  /** The frame of one more event, written and not synced, as the next process takes it in. */
  ghost function TakenIn(setup: Setup, m: Moment, event: Event): Moment
    requires Lawful(setup.codec) && Encodable(setup.codec, NextEntry(m, event))
  {
    var file := m.file + Frame(setup.codec, NextEntry(m, event));
    m.(entries := m.entries + [NextEntry(m, event)], ends := m.ends + [|file|], endOffset := |file|, file := file, faults := m.faults + 1)
  }

  lemma DiesBehindTheFrame(setup: Setup, m: Moment, event: Event) returns (actions: seq<Action>)
    requires AtRest(setup, m) && |m.entries| < MAX_UINT64 && Encodable(setup.codec, NextEntry(m, event))
    ensures Readable(setup, TakenIn(setup, m, event)) && Runs(setup, m, actions, TakenIn(setup, m, event)) && Flawless(actions)
  {
    var n, frame := TakenIn(setup, m, event), Frame(setup.codec, NextEntry(m, event));
    var written := Step(setup, m, Write(event, |frame|));
    assert frame[..|frame|] == frame;
    var down := Step(setup, written, Die);
    ScanWholeAppend(setup.codec, m.file, |setup.header|, m.entries, m.ends, NextEntry(m, event));
    StartsAsItWas(setup, down, n.entries, n.ends);
    RunsOne(setup, m, Write(event, |frame|));
    RunsOn(setup, m, [Write(event, |frame|)], written, Die, down);
    RunsOn(setup, m, [Write(event, |frame|)] + [Die], down, Start, n);
    actions := [Write(event, |frame|)] + [Die] + [Start];
  }

  /** The process dies between the write and the sync of a frame; the next one delivers the record; then a power loss
      takes the frame. The consumer has seen a record that the journal does not have. */
  lemma SeenAndGone(setup: Setup, m: Moment, event: Event) returns (actions: seq<Action>, n: Moment)
    requires AtRest(setup, m) && |m.entries| < MAX_UINT64 && Encodable(setup.codec, NextEntry(m, event))
    requires m.checkpoint.recordId == |m.entries|
    ensures Runs(setup, m, actions, n) && Flawless(actions) && AtRest(setup, n)
    ensures n.entries == m.entries && n.checkpoint == m.checkpoint && n.deliveries == m.deliveries + [NextEntry(m, event)]
    ensures !InOrder(n.entries, n.deliveries)
  {
    var taken := TakenIn(setup, m, event);
    actions := DiesBehindTheFrame(setup, m, event);
    var seen := Step(setup, taken, Deliver);
    RunsOn(setup, m, actions, taken, Deliver, seen);
    actions := actions + [Deliver];
    assert seen.file[..|m.file|] == m.file;
    var more := LosesAndStarts(setup, seen, |m.file|, m.saved.visible, m.entries, m.ends);
    n := m.(deliveries := m.deliveries + [NextEntry(m, event)], faults := m.faults + 2);
    RunsJoin(setup, m, actions, seen, more, n);
    actions := actions + more;
    assert !DeliveryOk(n.entries, n.deliveries, |m.deliveries|);
  }

  /** Its id then goes to the next event, and the consumer sees two records with one id. */
  lemma OneIdForTwo(setup: Setup, m: Moment, event: Event, other: Event) returns (actions: seq<Action>, n: Moment)
    requires AtRest(setup, m) && |m.entries| < MAX_UINT64 && m.checkpoint.recordId == |m.entries|
    requires Encodable(setup.codec, NextEntry(m, event)) && Encodable(setup.codec, NextEntry(m, other))
    ensures Runs(setup, m, actions, n) && Flawless(actions)
    ensures n.deliveries == m.deliveries + [NextEntry(m, event), NextEntry(m, other)] && n.entries == m.entries + [NextEntry(m, other)]
  {
    var gone;
    actions, gone := SeenAndGone(setup, m, event);
    var more := Appends(setup, gone, other);
    var appended := Appended(setup, gone, other);
    RunsJoin(setup, m, actions, gone, more, appended);
    actions := actions + more;
    n := Step(setup, appended, Deliver);
    RunsOn(setup, m, actions, appended, Deliver, n);
    actions := actions + [Deliver];
  }

  /** If the checkpoint got over that record and was synced, no start succeeds any more. */
  lemma AheadForGood(setup: Setup, m: Moment, event: Event) returns (actions: seq<Action>, n: Moment)
    requires AtRest(setup, m) && |m.entries| < MAX_UINT64 && Encodable(setup.codec, NextEntry(m, event))
    requires m.checkpoint.recordId == |m.entries|
    ensures Runs(setup, m, actions, n) && Flawless(actions)
    ensures !n.up && setup.header <= n.file && Scan(setup.codec, n.file, |setup.header|, 1) == Recovered(m.entries, m.ends, |m.file|, false)
    ensures n.saved.visible.Some? && CheckpointFault(TablesOf(setup, m.ends), n.saved.visible.value) == Some(CheckpointAhead)
  {
    var taken := TakenIn(setup, m, event);
    actions := DiesBehindTheFrame(setup, m, event);
    var more := DeliversAndRenames(setup, taken);
    RunsJoin(setup, m, actions, taken, more, Renamed(setup, taken));
    actions := actions + more;
    more, n := SavesAndLoses(setup, Renamed(setup, taken), |m.file|);
    RunsJoin(setup, m, actions, Renamed(setup, taken), more, n);
    actions := actions + more;
    assert n.file == m.file;
  }

  lemma SavesAndLoses(setup: Setup, m: Moment, kept: nat) returns (actions: seq<Action>, n: Moment)
    requires Enabled(setup, m, SaveSync) && m.synced <= kept <= |m.file|
    ensures Runs(setup, m, actions, n) && Flawless(actions)
    ensures !n.up && n.file == m.file[..kept] && n.saved == m.saved.Sync()
  {
    var saved := Step(setup, m, SaveSync);
    var dead := Step(setup, saved, Die);
    var lose := LosePower(kept, dead.saved.visible);
    n := Step(setup, dead, lose);
    RunsOne(setup, m, SaveSync);
    RunsOn(setup, m, [SaveSync], saved, Die, dead);
    RunsOn(setup, m, [SaveSync] + [Die], dead, lose, n);
    actions := [SaveSync] + [Die] + [lose];
  }

  // ----- from a new journal -----

  ghost function Appended(setup: Setup, m: Moment, event: Event): Moment
    requires Lawful(setup.codec) && Encodable(setup.codec, NextEntry(m, event))
  {
    TakenIn(setup, m, event).(synced := |TakenIn(setup, m, event).file|, faults := m.faults)
  }

  lemma Appends(setup: Setup, m: Moment, event: Event) returns (actions: seq<Action>)
    requires AtRest(setup, m) && |m.entries| < MAX_UINT64 && Encodable(setup.codec, NextEntry(m, event))
    ensures Runs(setup, m, actions, Appended(setup, m, event)) && Flawless(actions) && AtRest(setup, Appended(setup, m, event))
  {
    var n, frame := Appended(setup, m, event), Frame(setup.codec, NextEntry(m, event));
    var written := Step(setup, m, Write(event, |frame|));
    assert frame[..|frame|] == frame && written.file[m.endOffset..] == frame;
    ScanWholeAppend(setup.codec, m.file, |setup.header|, m.entries, m.ends, NextEntry(m, event));
    RunsOne(setup, m, Write(event, |frame|));
    RunsOn(setup, m, [Write(event, |frame|)], written, SyncFrame, n);
    actions := [Write(event, |frame|)] + [SyncFrame];
  }

  /** From a new journal, with any two events: the consumer sees the first, the second, and the first again. */
  lemma SeenAgainIsReachable(setup: Setup, first: Event, second: Event) returns (actions: seq<Action>, n: Moment)
    requires Lawful(setup.codec) && |setup.magic| <= |setup.header|
    requires Encodable(setup.codec, Entry(1, first)) && Encodable(setup.codec, Entry(2, second))
    ensures Runs(setup, New(setup), actions, n) && Flawless(actions)
    ensures n.deliveries == [Entry(1, first), Entry(2, second), Entry(1, first)] && n.entries == [Entry(1, first), Entry(2, second)]
  {
    var two, more;
    actions, two := AppendsTwo(setup, first, second);
    more, n := SeenAgain(setup, two);
    RunsJoin(setup, New(setup), actions, two, more, n);
    actions := actions + more;
  }

  lemma AppendsTwo(setup: Setup, first: Event, second: Event) returns (actions: seq<Action>, n: Moment)
    requires Lawful(setup.codec) && |setup.magic| <= |setup.header|
    requires Encodable(setup.codec, Entry(1, first)) && Encodable(setup.codec, Entry(2, second))
    ensures Runs(setup, New(setup), actions, n) && Flawless(actions) && AtRest(setup, n)
    ensures n.entries == [Entry(1, first), Entry(2, second)] && n.deliveries == [] && n.checkpoint.recordId == 0
  {
    var one := Appended(setup, New(setup), first);
    actions := Appends(setup, New(setup), first);
    var more := Appends(setup, one, second);
    n := Appended(setup, one, second);
    RunsJoin(setup, New(setup), actions, one, more, n);
    actions := actions + more;
  }

  /** From a new journal, with any event: the consumer sees it, and the journal is empty. */
  lemma SeenAndGoneIsReachable(setup: Setup, event: Event) returns (actions: seq<Action>, n: Moment)
    requires Lawful(setup.codec) && |setup.magic| <= |setup.header| && Encodable(setup.codec, Entry(1, event))
    ensures Runs(setup, New(setup), actions, n) && Flawless(actions) && n.deliveries == [Entry(1, event)] && n.entries == []
  {
    actions, n := SeenAndGone(setup, New(setup), event);
  }
}
