/** What the death-outcome pipeline guarantees: at-least-once delivery over every run of its machine, and delivery in
    the order of the journal over every run in which nothing is built on what a power loss may undo. */
module DeathGuarantees {
  import opened Outcomes
  import opened Framing
  import opened Journals
  import opened DeathMachine

  // ----- the order of deliveries -----

  /** The record delivered last, or 0. */
  function LastId(deliveries: seq<Entry<Event>>): nat {
    if deliveries == [] then 0 else deliveries[|deliveries| - 1].id
  }

  /** The i-th delivery is a journal record: the one delivered before it again, or the next one. */
  predicate DeliveryOk(log: seq<Entry<Event>>, deliveries: seq<Entry<Event>>, i: nat)
    requires i < |deliveries|
  {
    && 0 < deliveries[i].id <= |log| && deliveries[i] == log[deliveries[i].id - 1]
    && LastId(deliveries[..i]) <= deliveries[i].id <= LastId(deliveries[..i]) + 1
  }

  /** The consumer sees the journal in order, none skipped. */
  predicate InOrder(log: seq<Entry<Event>>, deliveries: seq<Entry<Event>>) {
    forall i {:trigger DeliveryOk(log, deliveries, i)} :: 0 <= i < |deliveries| ==> DeliveryOk(log, deliveries, i)
  }

  lemma SeenInOrder(log: seq<Entry<Event>>, deliveries: seq<Entry<Event>>, e: Entry<Event>)
    requires InOrder(log, deliveries) && LastId(deliveries) <= e.id <= LastId(deliveries) + 1
    requires 0 < e.id <= |log| && e == log[e.id - 1]
    ensures InOrder(log, deliveries + [e]) && LastId(deliveries + [e]) == e.id
  {
    var more := deliveries + [e];
    forall i | 0 <= i < |more| ensures DeliveryOk(log, more, i) {
      assert more[..i] == deliveries[..i];
      if i == |deliveries| {
        assert deliveries[..i] == deliveries;
      } else {
        assert DeliveryOk(log, deliveries, i);
      }
    }
  }

  /** So it does over any journal with the same records up to the last one seen. */
  lemma InOrderOver(log: seq<Entry<Event>>, other: seq<Entry<Event>>, deliveries: seq<Entry<Event>>, n: nat)
    requires InOrder(log, deliveries) && LastId(deliveries) <= n <= |log| && log[..n] <= other
    ensures InOrder(other, deliveries)
  {
    forall i | 0 <= i < |deliveries| ensures DeliveryOk(other, deliveries, i) {
      NeverBack(log, deliveries, i, |deliveries| - 1);
      assert DeliveryOk(log, deliveries, i);
      assert log[..n][deliveries[i].id - 1] == other[deliveries[i].id - 1];
    }
  }

  lemma {:induction false} NeverBack(log: seq<Entry<Event>>, deliveries: seq<Entry<Event>>, i: nat, j: nat)
    requires InOrder(log, deliveries) && i <= j < |deliveries|
    ensures deliveries[i].id <= deliveries[j].id
  {
    if i < j {
      NeverBack(log, deliveries, i, j - 1);
      assert DeliveryOk(log, deliveries, j);
    }
  }

  lemma {:induction false} InOrderSteps(log: seq<Entry<Event>>, deliveries: seq<Entry<Event>>, i: nat, j: nat)
    requires InOrder(log, deliveries) && i <= j < |deliveries|
    ensures deliveries[i].id <= deliveries[j].id <= deliveries[i].id + (j - i)
  {
    if i < j {
      InOrderSteps(log, deliveries, i, j - 1);
      assert DeliveryOk(log, deliveries, j);
    }
  }

  // ----- none skipped -----

  function Level(c: Option<Checkpoint>): nat {
    if c.Some? then c.value.recordId else 0
  }

  /** The greatest record id seen so far. */
  function MaxId(deliveries: seq<Entry<Event>>): nat {
    if deliveries == [] then 0 else
      var m, last := MaxId(deliveries[..|deliveries| - 1]), deliveries[|deliveries| - 1].id;
      if m < last then last else m
  }

  predicate NextOk(deliveries: seq<Entry<Event>>, i: nat)
    requires i < |deliveries|
  {
    0 < deliveries[i].id <= MaxId(deliveries[..i]) + 1
  }

  /** No id is seen before all the ids below it. */
  predicate NoneSkipped(deliveries: seq<Entry<Event>>) {
    forall i {:trigger NextOk(deliveries, i)} :: 0 <= i < |deliveries| ==> NextOk(deliveries, i)
  }

  lemma OneMoreSeen(deliveries: seq<Entry<Event>>, e: Entry<Event>)
    requires NoneSkipped(deliveries) && 0 < e.id <= MaxId(deliveries) + 1
    ensures NoneSkipped(deliveries + [e])
    ensures MaxId(deliveries + [e]) == if MaxId(deliveries) < e.id then e.id else MaxId(deliveries)
  {
    var more := deliveries + [e];
    assert more[..|deliveries|] == deliveries;
    forall i | 0 <= i < |more| ensures NextOk(more, i) {
      assert more[..i] == deliveries[..i];
      if i == |deliveries| {
        assert deliveries[..i] == deliveries;
      } else {
        assert NextOk(deliveries, i);
      }
    }
  }

  lemma {:induction false} AllSeen(deliveries: seq<Entry<Event>>, id: nat)
    requires NoneSkipped(deliveries) && 1 <= id <= MaxId(deliveries)
    ensures exists k :: 0 <= k < |deliveries| && deliveries[k].id == id
    decreases |deliveries|
  {
    var n := |deliveries| - 1;
    assert NextOk(deliveries, n);
    if id <= MaxId(deliveries[..n]) {
      assert NoneSkipped(deliveries[..n]) by {
        forall i | 0 <= i < n ensures NextOk(deliveries[..n], i) {
          assert NextOk(deliveries, i) && deliveries[..n][..i] == deliveries[..i];
        }
      }
      AllSeen(deliveries[..n], id);
      var k :| 0 <= k < n && deliveries[..n][k].id == id;
      assert deliveries[k].id == id;
    }
  }

  // ----- the journal file -----

  /** Bytes behind the last record are the beginning of one more frame. */
  ghost predicate TailOk(codec: Codec<Event>, n: nat, tail: seq<byte>)
    requires Lawful(codec)
  {
    tail != [] ==> exists e: Entry<Event> :: e.id == n + 1 && Encodable(codec, e) && tail <= Frame(codec, e)
  }

  ghost predicate FileOk(codec: Codec<Event>, header: seq<byte>, entries: seq<Entry<Event>>, ends: seq<nat>, endOffset: nat, file: seq<byte>) {
    && Lawful(codec) && header <= file && endOffset <= |file|
    && Intact(codec, file[..endOffset], |header|, 1, entries, ends)
    && TailOk(codec, |entries|, file[endOffset..])
  }

  lemma LaterCutKeepsMore(ends: seq<nat>, a: nat, b: nat)
    requires a <= b
    ensures WholeUpTo(ends, a) <= WholeUpTo(ends, b)
  {
  }

  lemma FindsAll(codec: Codec<Event>, header: seq<byte>, entries: seq<Entry<Event>>, ends: seq<nat>, endOffset: nat, whole: seq<byte>, file: seq<byte>)
    requires FileOk(codec, header, entries, ends, endOffset, whole) && file <= whole && endOffset <= |file|
    ensures var scan := Scan(codec, file, |header|, 1);
            && scan.Recovered? && entries <= scan.entries && ends <= scan.ends && |entries| == |ends| && (scan.torn ==> scan.ends == ends && scan.end == endOffset)
            && (!scan.torn ==> scan.end == |file|)
  {
    IntactParts(codec, whole[..endOffset], |header|, 1, entries, ends);
    assert file[..endOffset] == whole[..endOffset];
    var tail := file[endOffset..];
    assert file == file[..endOffset] + tail;
    if tail == [] {
      assert file[..endOffset] == file;
    } else {
      assert whole[endOffset..] != [] && tail <= whole[endOffset..];
      var e: Entry<Event> :| e.id == |entries| + 1 && Encodable(codec, e) && whole[endOffset..] <= Frame(codec, e);
      if tail == Frame(codec, e) {
        ScanWholeAppend(codec, file[..endOffset], |header|, entries, ends, e);
      } else {
        assert tail == Frame(codec, e)[..|tail|];
        ScanTornAppend(codec, file[..endOffset], |header|, entries, ends, e, |tail|);
      }
    }
  }

  /** The next process finds every synced record again, and keeps it. */
  ghost predicate Finds(codec: Codec<Event>, header: seq<byte>, entries: seq<Entry<Event>>, ends: seq<nat>, file: seq<byte>, synced: nat)
    requires |header| <= |file|
  {
    var scan, n := Scan(codec, file, |header|, 1), WholeUpTo(ends, synced);
    && scan.Recovered? && n <= |entries| == |ends| && entries[..n] <= scan.entries && ends[..n] <= scan.ends
    && n <= WholeUpTo(scan.ends, SyncedAt(scan, synced)) && |header| <= SyncedAt(scan, synced) <= scan.end
  }

  lemma FindsSynced(codec: Codec<Event>, header: seq<byte>, entries: seq<Entry<Event>>, ends: seq<nat>, endOffset: nat, whole: seq<byte>,
                    file: seq<byte>, synced: nat)
    requires FileOk(codec, header, entries, ends, endOffset, whole) && file <= whole && |header| <= synced <= |file|
    ensures Finds(codec, header, entries, ends, file, synced)
  {
    if endOffset <= |file| {
      FindsBehindTheEnd(codec, header, entries, ends, endOffset, whole, file, synced);
    } else {
      FindsInside(codec, header, entries, ends, endOffset, whole, file, synced);
    }
  }

  lemma FindsBehindTheEnd(codec: Codec<Event>, header: seq<byte>, entries: seq<Entry<Event>>, ends: seq<nat>, endOffset: nat, whole: seq<byte>,
                          file: seq<byte>, synced: nat)
    requires FileOk(codec, header, entries, ends, endOffset, whole) && file <= whole && |header| <= synced <= |file| && endOffset <= |file|
    ensures Finds(codec, header, entries, ends, file, synced)
  {
    var scan, n := Scan(codec, file, |header|, 1), WholeUpTo(ends, synced);
    FindsAll(codec, header, entries, ends, endOffset, whole, file);
    EndsBefore(codec, whole[..endOffset], |header|, entries, ends, n);
    StillEnds(ends, scan.ends, n, synced, SyncedAt(scan, synced));
  }

  lemma EndsBefore(codec: Codec<Event>, file: seq<byte>, start: nat, entries: seq<Entry<Event>>, ends: seq<nat>, n: nat)
    requires Intact(codec, file, start, 1, entries, ends) && n <= |ends|
    ensures n > 0 ==> ends[n - 1] <= |file|
  {
    IntactParts(codec, file, start, 1, entries, ends);
    if n > 0 { ReadsBack(codec, file, start, 1, entries, ends, n - 1); }
  }

  lemma FindsInside(codec: Codec<Event>, header: seq<byte>, entries: seq<Entry<Event>>, ends: seq<nat>, endOffset: nat, whole: seq<byte>,
                    file: seq<byte>, synced: nat)
    requires FileOk(codec, header, entries, ends, endOffset, whole) && file <= whole && |header| <= synced <= |file| < endOffset
    ensures Finds(codec, header, entries, ends, file, synced)
  {
    var scan, n, k := Scan(codec, file, |header|, 1), WholeUpTo(ends, synced), WholeUpTo(ends, |file|);
    CutAnywhere(codec, whole[..endOffset], |header|, entries, ends, |file|);
    assert whole[..endOffset][..|file|] == file;
    LaterCutKeepsMore(ends, synced, |file|);
    assert entries[..k][..n] == entries[..n] && ends[..k][..n] == ends[..n];
    EndsBefore(codec, whole[..endOffset], |header|, entries, ends, k);
    EndsIncrease(codec, whole[..endOffset], |header|, 1, entries, ends);
    StillEnds(ends, scan.ends, n, synced, SyncedAt(scan, synced));
  }

  lemma StillEnds(ends: seq<nat>, found: seq<nat>, n: nat, synced: nat, later: nat)
    requires n == WholeUpTo(ends, synced) && ends[..n] <= found && (n > 0 ==> ends[n - 1] <= later)
    ensures n <= WholeUpTo(found, later)
  {
    assert n > 0 ==> found[n - 1] == ends[..n][n - 1];
  }

  lemma {:induction false} EndsIncrease(codec: Codec<Event>, file: seq<byte>, start: nat, first: nat, entries: seq<Entry<Event>>, ends: seq<nat>)
    requires Intact(codec, file, start, first, entries, ends)
    ensures forall i, j :: 0 <= i < j < |ends| ==> start < ends[i] < ends[j]
    decreases |entries|
  {
    IntactParts(codec, file, start, first, entries, ends);
    if entries != [] {
      EndsIncrease(codec, file, ends[0], first + 1, entries[1..], ends[1..]);
      forall i, j | 0 <= i < j < |ends| ensures start < ends[i] < ends[j] {
        assert ends[j] == ends[1..][j - 1];
        if i > 0 { assert ends[i] == ends[1..][i - 1]; } else { FirstEnd(codec, file, ends[0], first + 1, entries[1..], ends[1..], j - 1); }
      }
    }
  }

  lemma FirstEnd(codec: Codec<Event>, file: seq<byte>, start: nat, first: nat, entries: seq<Entry<Event>>, ends: seq<nat>, k: nat)
    requires Intact(codec, file, start, first, entries, ends) && k < |ends|
    ensures start < ends[k]
  {
    IntactParts(codec, file, start, first, entries, ends);
    ReadsBack(codec, file, start, first, entries, ends, k);
  }

  predicate Numbered(entries: seq<Entry<Event>>) {
    forall k {:trigger entries[k]} :: 0 <= k < |entries| ==> entries[k].id == k + 1
  }

  lemma IntactIsNumbered(codec: Codec<Event>, file: seq<byte>, start: nat, entries: seq<Entry<Event>>, ends: seq<nat>)
    requires Intact(codec, file, start, 1, entries, ends)
    ensures |entries| == |ends| && Numbered(entries)
  {
    IntactParts(codec, file, start, 1, entries, ends);
    forall k | 0 <= k < |entries| ensures entries[k].id == k + 1 {
      ReadsBack(codec, file, start, 1, entries, ends, k);
    }
  }

  // ----- what holds over every run -----

  /** The consumer has the open record, its checkpoint is not saved yet. */
  predicate Pending(m: Moment) {
    m.stage.Delivered? || m.stage.Renamed?
  }

  /** The file is the one the last process saw, or after a power loss a part of it. */
  ghost predicate DiskOk(setup: Setup, m: Moment) {
    && |setup.magic| <= |setup.header| <= m.synced <= |m.file|
    && exists whole :: FileOk(setup.codec, setup.header, m.entries, m.ends, m.endOffset, whole) && m.file <= whole
                       && (m.up ==> m.file == whole && m.synced <= m.endOffset)
  }

  predicate StageOk(setup: Setup, m: Moment)
    requires |setup.magic| <= |setup.header|
  {
    && (!m.up ==> m.stage.Idle?)
    && (Pending(m) ==> HasOpen(m) && m.deliveries != [] && LastId(m.deliveries) == m.checkpoint.recordId + 1)
    && (m.stage.Renamed? ==> m.saved.visible == Some(Following(setup, m)))
  }

  /** Behind `level` there are at most as many deliveries as faults, the one under way aside. */
  predicate Within(m: Moment, level: nat) {
    level <= MaxId(m.deliveries) && |m.deliveries| <= level + m.faults + if Pending(m) then 1 else 0
  }

  /** From the checkpoint in memory, and from any a power loss may leave, at most as many records are seen again as
      deliveries were given up and processes have ended. */
  ghost predicate Counted(m: Moment) {
    && NoneSkipped(m.deliveries) && m.saved.visible !in m.saved.others
    && (forall c :: m.saved.Survives(c) ==> Within(m, Level(c)))
    && (m.up ==> Within(m, m.checkpoint.recordId) && m.checkpoint.recordId <= |m.entries| && m.checkpoint.recordId <= Level(m.saved.visible))
  }

  ghost predicate Inv(setup: Setup, m: Moment) {
    && DiskOk(setup, m) && |m.entries| == |m.ends| && Numbered(m.entries)
    && StageOk(setup, m) && Counted(m)
  }

  lemma NewIsFine(setup: Setup)
    requires Lawful(setup.codec) && |setup.magic| <= |setup.header|
    ensures Inv(setup, New(setup))
  {
    var m := New(setup);
    assert m.file[..m.endOffset] == m.file && m.file[m.endOffset..] == [];
    assert FileOk(setup.codec, setup.header, m.entries, m.ends, m.endOffset, m.file);
  }

  lemma AppendKeepsDisk(setup: Setup, m: Moment, a: Action)
    requires DiskOk(setup, m) && |m.entries| == |m.ends| && Enabled(setup, m, a) && (a.DropTail? || a.Write? || a.SyncFrame?)
    ensures DiskOk(setup, Step(setup, m, a))
  {
    var n := Step(setup, m, a);
    match a {
      case DropTail =>
        assert n.file[..n.endOffset] == m.file[..m.endOffset] && n.file[n.endOffset..] == [];
      case Write(event, cut) =>
        assert n.file[..n.endOffset] == m.file[..m.endOffset] && n.file[n.endOffset..] == Frame(setup.codec, NextEntry(m, event))[..cut];
      case SyncFrame =>
        var e := NextEntry(m, m.stage.event);
        assert n.file[..n.endOffset] == n.file == m.file[..m.endOffset] + Frame(setup.codec, e) && n.file[n.endOffset..] == [];
        ScanWholeAppend(setup.codec, m.file[..m.endOffset], |setup.header|, m.entries, m.ends, e);
    }
    assert FileOk(setup.codec, setup.header, n.entries, n.ends, n.endOffset, n.file);
  }

  lemma StartKeepsDisk(setup: Setup, m: Moment)
    requires DiskOk(setup, m) && Enabled(setup, m, Start)
    ensures DiskOk(setup, Step(setup, m, Start)) && Finds(setup.codec, setup.header, m.entries, m.ends, m.file, m.synced)
    ensures Numbered(Step(setup, m, Start).entries)
  {
    var whole :| FileOk(setup.codec, setup.header, m.entries, m.ends, m.endOffset, whole) && m.file <= whole;
    FindsSynced(setup.codec, setup.header, m.entries, m.ends, m.endOffset, whole, m.file, m.synced);
    var n := Step(setup, m, Start);
    RecoveredIsIntact(setup.codec, m.file, |setup.header|, 1);
    IntactIsNumbered(setup.codec, m.file[..n.endOffset], |setup.header|, n.entries, n.ends);
    assert n.file[..n.endOffset] == m.file[..n.endOffset] && n.file[n.endOffset..] == [];
    assert FileOk(setup.codec, setup.header, n.entries, n.ends, n.endOffset, n.file);
  }

  lemma DeliverKeeps(setup: Setup, m: Moment)
    requires Inv(setup, m) && Enabled(setup, m, Deliver)
    ensures Inv(setup, Step(setup, m, Deliver))
  {
    OneMoreSeen(m.deliveries, m.entries[m.checkpoint.recordId]);
  }

  lemma EndKeepsDisk(setup: Setup, m: Moment, a: Action)
    requires DiskOk(setup, m) && Enabled(setup, m, a) && (a.Die? || a.LosePower?)
    ensures DiskOk(setup, Step(setup, m, a))
  {
    var whole :| FileOk(setup.codec, setup.header, m.entries, m.ends, m.endOffset, whole) && m.file <= whole && (m.up ==> m.file == whole);
    assert Step(setup, m, a).file <= whole;
  }

  lemma StartKeeps(setup: Setup, m: Moment)
    requires Inv(setup, m) && Enabled(setup, m, Start)
    ensures Inv(setup, Step(setup, m, Start))
  {
    StartKeepsDisk(setup, m);
    assert m.saved.Survives(m.saved.visible);
  }

  lemma AppendKeeps(setup: Setup, m: Moment, a: Action)
    requires Inv(setup, m) && Enabled(setup, m, a) && (a.DropTail? || a.Write? || a.SyncFrame?)
    ensures Inv(setup, Step(setup, m, a))
  {
    AppendKeepsDisk(setup, m, a);
  }

  lemma SaveKeeps(setup: Setup, m: Moment, a: Action)
    requires Inv(setup, m) && Enabled(setup, m, a) && (a.SaveRename? || a.SaveSync? || a.GiveUp?)
    ensures Inv(setup, Step(setup, m, a))
  {
  }

  lemma EndKeeps(setup: Setup, m: Moment, a: Action)
    requires Inv(setup, m) && Enabled(setup, m, a) && (a.Die? || a.LosePower?)
    ensures Inv(setup, Step(setup, m, a))
  {
    EndKeepsDisk(setup, m, a);
  }

  /** Every step keeps it, failed calls, deaths and power losses included. */
  lemma StepKeeps(setup: Setup, m: Moment, a: Action)
    requires Inv(setup, m) && Enabled(setup, m, a)
    ensures Inv(setup, Step(setup, m, a))
  {
    if a.Deliver? { DeliverKeeps(setup, m); }
    else if a.Start? { StartKeeps(setup, m); }
    else if a.Die? || a.LosePower? { EndKeeps(setup, m, a); }
    else if a.SaveRename? || a.SaveSync? || a.GiveUp? { SaveKeeps(setup, m, a); }
    else { AppendKeeps(setup, m, a); }
  }

  lemma {:induction false} PathKeeps(setup: Setup, moments: seq<Moment>, actions: seq<Action>, k: nat)
    requires Path(setup, moments, actions) && Inv(setup, moments[0]) && k < |moments|
    ensures Inv(setup, moments[k])
  {
    if k > 0 {
      PathKeeps(setup, moments, actions, k - 1);
      assert Moves(setup, moments[k - 1], actions[k - 1], moments[k]);
      StepKeeps(setup, moments[k - 1], actions[k - 1]);
    }
  }

  /** At-least-once delivery, over every run with any failures, deaths and power losses: each id up to the greatest one
      seen has been seen, none before the ids below it, and at most as many calls were repeats as deliveries were given
      up and processes have ended. */
  lemma AtLeastOnce(setup: Setup, moments: seq<Moment>, actions: seq<Action>, id: nat)
    requires Path(setup, moments, actions) && Lawful(setup.codec) && |setup.magic| <= |setup.header| && moments[0] == New(setup)
    ensures var m := moments[|actions|];
            && (1 <= id <= MaxId(m.deliveries) ==> exists k :: 0 <= k < |m.deliveries| && m.deliveries[k].id == id)
            && |m.deliveries| <= MaxId(m.deliveries) + m.faults + (if Pending(m) then 1 else 0) && NoneSkipped(m.deliveries)
  {
    NewIsFine(setup);
    PathKeeps(setup, moments, actions, |actions|);
    var m := moments[|actions|];
    assert m.saved.Survives(m.saved.visible);
    if 1 <= id <= MaxId(m.deliveries) { AllSeen(m.deliveries, id); }
  }

  // ----- what holds while every delivery is prudent -----

  /** A record is delivered only once it is synced, and for the first time only over a checkpoint that is. The code
      checks neither; it breaks it in a process that starts over what the death of another left. */
  predicate Prudent(m: Moment, a: Action) {
    a.Deliver? && HasOpen(m) ==>
      && m.ends[m.checkpoint.recordId] <= m.synced
      && (m.saved.Settled() || LastId(m.deliveries) == m.checkpoint.recordId + 1)
  }

  /** No power loss takes the checkpoint below the one in memory. */
  ghost predicate Anchored(saved: Cell<Option<Checkpoint>>, level: nat) {
    forall c :: saved.Survives(c) ==> level <= Level(c)
  }

  /** The checkpoint file trails the last delivery by at most one record, and holds checkpoints of the journal. */
  ghost predicate Trails(t: Tables, saved: Cell<Option<Checkpoint>>, last: nat) {
    forall c :: saved.Survives(c) ==>
                  && Level(c) <= last <= Level(c) + 1
                  && (c.Some? ==> c.value.recordId > 0 && CheckpointFault(t, c.value) == None)
  }

  /** The consumer has seen the journal in order, and only records that are synced. */
  ghost predicate Sees(t: Tables, log: seq<Entry<Event>>, synced: nat, saved: Cell<Option<Checkpoint>>, deliveries: seq<Entry<Event>>) {
    && InOrder(log, deliveries) && LastId(deliveries) <= WholeUpTo(t.ends, synced) && |log| == |t.ends|
    && Trails(t, saved, LastId(deliveries))
  }

  ghost predicate InvPrudent(setup: Setup, m: Moment)
    requires |setup.magic| <= |setup.header|
  {
    && Sees(TablesOf(setup, m.ends), m.entries, m.synced, m.saved, m.deliveries)
    && (m.up ==> m.checkpoint.recordId <= LastId(m.deliveries) <= m.checkpoint.recordId + 1)
  }

  /** So nothing that a prudent consumer relies on is gone. */
  lemma SeesAgain(t: Tables, log: seq<Entry<Event>>, synced: nat, saved: Cell<Option<Checkpoint>>, deliveries: seq<Entry<Event>>,
                  u: Tables, found: seq<Entry<Event>>, later: nat)
    requires Sees(t, log, synced, saved, deliveries) && t.journalId == u.journalId && t.headerSize == u.headerSize
    requires var n := WholeUpTo(t.ends, synced);
             log[..n] <= found && t.ends[..n] <= u.ends && n <= WholeUpTo(u.ends, later) && |found| == |u.ends|
    ensures Sees(u, found, later, saved, deliveries)
  {
    var n := WholeUpTo(t.ends, synced);
    InOrderOver(log, found, deliveries, n);
    forall c | saved.Survives(c) && c.Some? ensures CheckpointFault(u, c.value) == None {
      assert c.value.recordId <= n && t.ends[..n][c.value.recordId - 1] == u.ends[c.value.recordId - 1];
    }
  }

  /** A power loss takes nothing a prudent consumer relies on. */
  lemma SeesAfterPowerLoss(t: Tables, log: seq<Entry<Event>>, synced: nat, saved: Cell<Option<Checkpoint>>, deliveries: seq<Entry<Event>>,
                           kept: nat, left: Option<Checkpoint>)
    requires Sees(t, log, synced, saved, deliveries) && synced <= kept && saved.Survives(left)
    ensures Sees(t, log, kept, Cell(left, {}), deliveries)
  {
    LaterCutKeepsMore(t.ends, synced, kept);
  }

  /** No power loss takes the checkpoint below the one in memory exactly when it is synced, or the record behind it has
      been delivered before. */
  lemma AnchoredExactlyWhen(setup: Setup, m: Moment)
    requires Inv(setup, m) && InvPrudent(setup, m) && m.up
    ensures Anchored(m.saved, m.checkpoint.recordId) <==> m.saved.Settled() || LastId(m.deliveries) == m.checkpoint.recordId + 1
  {
    assert m.saved.Survives(m.saved.visible);
    if !m.saved.Settled() && LastId(m.deliveries) == m.checkpoint.recordId {
      var c :| c in m.saved.others;
      assert m.saved.Survives(c) && Level(c) != m.checkpoint.recordId;
    }
  }

  /** The k-th record is among those that are synced exactly when its end is. */
  lemma SyncedExactlyWhen(setup: Setup, m: Moment, k: nat)
    requires DiskOk(setup, m) && k < |m.ends| == |m.entries|
    ensures m.ends[k] <= m.synced <==> k < WholeUpTo(m.ends, m.synced)
  {
    var whole :| FileOk(setup.codec, setup.header, m.entries, m.ends, m.endOffset, whole) && m.file <= whole;
    EndsIncrease(setup.codec, whole[..m.endOffset], |setup.header|, 1, m.entries, m.ends);
  }

  lemma PrudentDelivery(setup: Setup, m: Moment)
    requires Inv(setup, m) && InvPrudent(setup, m) && Enabled(setup, m, Deliver) && Prudent(m, Deliver)
    ensures InvPrudent(setup, Step(setup, m, Deliver))
  {
    AnchoredExactlyWhen(setup, m);
    SyncedExactlyWhen(setup, m, m.checkpoint.recordId);
    SeenInOrder(m.entries, m.deliveries, m.entries[m.checkpoint.recordId]);
  }

  lemma SyncKeepsSeen(setup: Setup, m: Moment)
    requires Inv(setup, m) && InvPrudent(setup, m) && Enabled(setup, m, SyncFrame)
    ensures InvPrudent(setup, Step(setup, m, SyncFrame))
  {
    var n, k := Step(setup, m, SyncFrame), WholeUpTo(m.ends, m.synced);
    assert m.entries[..k] <= n.entries && m.ends[..k] <= n.ends;
    StillEnds(m.ends, n.ends, k, m.synced, n.synced);
    SeesAgain(TablesOf(setup, m.ends), m.entries, m.synced, m.saved, m.deliveries, TablesOf(setup, n.ends), n.entries, n.synced);
  }

  lemma StartKeepsSeen(setup: Setup, m: Moment)
    requires Inv(setup, m) && InvPrudent(setup, m) && Enabled(setup, m, Start)
    ensures InvPrudent(setup, Step(setup, m, Start))
  {
    var n := Step(setup, m, Start);
    StartKeepsDisk(setup, m);
    SeesAgain(TablesOf(setup, m.ends), m.entries, m.synced, m.saved, m.deliveries, TablesOf(setup, n.ends), n.entries, n.synced);
    assert m.saved.Survives(m.saved.visible);
  }

  lemma PrudentStepKeeps(setup: Setup, m: Moment, a: Action)
    requires Inv(setup, m) && InvPrudent(setup, m) && Enabled(setup, m, a) && Prudent(m, a)
    ensures InvPrudent(setup, Step(setup, m, a))
  {
    match a
    case SyncFrame => SyncKeepsSeen(setup, m);
    case Deliver => PrudentDelivery(setup, m);
    case LosePower(kept, left) =>
      SeesAfterPowerLoss(TablesOf(setup, m.ends), m.entries, m.synced, m.saved, m.deliveries, kept, left);
    case Start => StartKeepsSeen(setup, m);
    case _ =>
  }

  ghost predicate PrudentPath(moments: seq<Moment>, actions: seq<Action>) {
    |moments| == |actions| + 1 && forall k {:trigger actions[k]} :: 0 <= k < |actions| ==> Prudent(moments[k], actions[k])
  }

  lemma {:induction false} PrudentPathKeeps(setup: Setup, moments: seq<Moment>, actions: seq<Action>, k: nat)
    requires Path(setup, moments, actions) && PrudentPath(moments, actions) && k < |moments|
    requires Inv(setup, moments[0]) && InvPrudent(setup, moments[0])
    ensures InvPrudent(setup, moments[k])
  {
    if k > 0 {
      PathKeeps(setup, moments, actions, k - 1);
      PrudentPathKeeps(setup, moments, actions, k - 1);
      assert Moves(setup, moments[k - 1], actions[k - 1], moments[k]) && Prudent(moments[k - 1], actions[k - 1]);
      PrudentMove(setup, moments[k - 1], actions[k - 1], moments[k]);
    }
  }

  lemma PrudentMove(setup: Setup, m: Moment, a: Action, n: Moment)
    requires Inv(setup, m) && InvPrudent(setup, m) && Moves(setup, m, a, n) && Prudent(m, a)
    ensures InvPrudent(setup, n)
  {
    PrudentStepKeeps(setup, m, a);
  }

  /** What a consumer of a prudent run has seen: the journal's own records in their order, each perhaps several times in
      a row, none skipped, and all of them durable. */
  ghost predicate SeenInJournalOrder(m: Moment) {
    && InOrder(m.entries, m.deliveries)
    && forall i, j :: 0 <= i <= j < |m.deliveries| ==>
         && m.deliveries[i].id <= m.deliveries[j].id <= m.deliveries[i].id + (j - i)
         && 0 < m.deliveries[i].id <= |m.entries| && m.deliveries[i] == m.entries[m.deliveries[i].id - 1]
         && m.deliveries[i].id <= WholeUpTo(m.ends, m.synced)
  }

  lemma InJournalOrder(setup: Setup, moments: seq<Moment>, actions: seq<Action>)
    requires Path(setup, moments, actions) && PrudentPath(moments, actions)
    requires Lawful(setup.codec) && |setup.magic| <= |setup.header| && moments[0] == New(setup)
    ensures SeenInJournalOrder(moments[|actions|])
    ensures !moments[|actions|].up ==> Enabled(setup, moments[|actions|], Start)
  {
    var m := moments[|actions|];
    NewIsFine(setup);
    PathKeeps(setup, moments, actions, |actions|);
    PrudentPathKeeps(setup, moments, actions, |actions|);
    forall i, j | 0 <= i <= j < |m.deliveries|
      ensures m.deliveries[i].id <= m.deliveries[j].id <= m.deliveries[i].id + (j - i)
      ensures 0 < m.deliveries[i].id <= |m.entries| && m.deliveries[i] == m.entries[m.deliveries[i].id - 1]
      ensures m.deliveries[i].id <= WholeUpTo(m.ends, m.synced)
    {
      InOrderSteps(m.entries, m.deliveries, i, j);
      NeverBack(m.entries, m.deliveries, i, |m.deliveries| - 1);
      assert DeliveryOk(m.entries, m.deliveries, i);
    }
    if !m.up { StartSucceeds(setup, m); }
  }

  /** Only an imprudent delivery can have left the checkpoint ahead of the journal. */
  lemma StartSucceeds(setup: Setup, m: Moment)
    requires Inv(setup, m) && InvPrudent(setup, m) && !m.up
    ensures Enabled(setup, m, Start)
  {
    var whole :| FileOk(setup.codec, setup.header, m.entries, m.ends, m.endOffset, whole) && m.file <= whole;
    FindsSynced(setup.codec, setup.header, m.entries, m.ends, m.endOffset, whole, m.file, m.synced);
    var scan := Scan(setup.codec, m.file, |setup.header|, 1);
    SeesAgain(TablesOf(setup, m.ends), m.entries, m.synced, m.saved, m.deliveries, TablesOf(setup, scan.ends), scan.entries, SyncedAt(scan, m.synced));
    assert m.saved.Survives(m.saved.visible);
  }

  // ----- when every delivery is prudent -----

  /** A start over this file takes in no record that is not synced: everything is, or what is not is cut off. */
  predicate TakesInNothingUnsynced(setup: Setup, m: Moment) {
    || m.synced == |m.file|
    || (|setup.header| <= |m.file| && var scan := Scan(setup.codec, m.file, |setup.header|, 1); scan.Recovered? && scan.torn)
  }

  /** No process starts over a checkpoint or a whole frame that is not synced. Behind a power loss none does. */
  predicate Timely(setup: Setup, m: Moment, a: Action) {
    a.Start? ==> m.saved.Settled() && TakesInNothingUnsynced(setup, m)
  }

  predicate Steady(m: Moment) {
    m.up ==> m.endOffset <= m.synced && (m.saved.Settled() || LastId(m.deliveries) == m.checkpoint.recordId + 1)
  }

  lemma SteadyStep(setup: Setup, m: Moment, a: Action)
    requires Inv(setup, m) && Steady(m) && Enabled(setup, m, a) && Timely(setup, m, a)
    ensures Prudent(m, a) && Steady(Step(setup, m, a))
  {
    if a.Deliver? {
      RecordEnds(setup, m, m.checkpoint.recordId);
    }
  }

  lemma RecordEnds(setup: Setup, m: Moment, k: nat)
    requires DiskOk(setup, m) && k < |m.ends| == |m.entries|
    ensures m.ends[k] <= m.endOffset
  {
    var whole :| FileOk(setup.codec, setup.header, m.entries, m.ends, m.endOffset, whole) && m.file <= whole;
    EndsBefore(setup.codec, whole[..m.endOffset], |setup.header|, m.entries, m.ends, k + 1);
  }

  lemma {:induction false} SteadyPath(setup: Setup, moments: seq<Moment>, actions: seq<Action>, k: nat)
    requires Path(setup, moments, actions) && Inv(setup, moments[0]) && Steady(moments[0]) && k < |moments|
    requires forall j {:trigger actions[j]} :: 0 <= j < |actions| ==> Timely(setup, moments[j], actions[j])
    ensures Steady(moments[k])
  {
    if k > 0 {
      SteadyPath(setup, moments, actions, k - 1);
      PathKeeps(setup, moments, actions, k - 1);
      assert Moves(setup, moments[k - 1], actions[k - 1], moments[k]);
      SteadyMove(setup, moments[k - 1], actions[k - 1], moments[k]);
    }
  }

  lemma SteadyIsPrudent(setup: Setup, moments: seq<Moment>, actions: seq<Action>, k: nat)
    requires Path(setup, moments, actions) && Inv(setup, moments[0]) && Steady(moments[0]) && k < |actions|
    requires forall j {:trigger actions[j]} :: 0 <= j < |actions| ==> Timely(setup, moments[j], actions[j])
    ensures Prudent(moments[k], actions[k])
  {
    SteadyPath(setup, moments, actions, k);
    PathKeeps(setup, moments, actions, k);
    assert Moves(setup, moments[k], actions[k], moments[k + 1]);
    SteadyMove(setup, moments[k], actions[k], moments[k + 1]);
  }

  lemma SteadyMove(setup: Setup, m: Moment, a: Action, n: Moment)
    requires Inv(setup, m) && Steady(m) && Moves(setup, m, a, n) && Timely(setup, m, a)
    ensures Prudent(m, a) && Steady(n)
  {
    SteadyStep(setup, m, a);
  }

  /** So with any failed calls and power losses the consumer sees the journal in order, none skipped, as long as no
      process starts over what the death of another has left unsynced. */
  lemma InJournalOrderWhileTimely(setup: Setup, moments: seq<Moment>, actions: seq<Action>)
    requires Path(setup, moments, actions) && Lawful(setup.codec) && |setup.magic| <= |setup.header| && moments[0] == New(setup)
    requires forall j {:trigger actions[j]} :: 0 <= j < |actions| ==> Timely(setup, moments[j], actions[j])
    ensures SeenInJournalOrder(moments[|actions|])
    ensures !moments[|actions|].up ==> Enabled(setup, moments[|actions|], Start)
  {
    NewIsFine(setup);
    forall k {:trigger actions[k]} | 0 <= k < |actions| ensures Prudent(moments[k], actions[k]) {
      SteadyIsPrudent(setup, moments, actions, k);
    }
    InJournalOrder(setup, moments, actions);
  }
}
