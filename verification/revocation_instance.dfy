/** One `worldd` instance under revocation distribution: reload, publication, the durable
    acknowledgement that is also its epoch floor, and credential checks running in between. The process may
    die at any point, or the power may go, which undoes what is not synced. */
module RevocationInstance {
  import opened Outcomes

  // ----- files -----

  /** SHA-256 over the sorted identifiers, taken as injective; `Other` is any other 64-digit text. */
  datatype Digest = Of(revoked: set<string>) | Other(hex: string)

  datatype Revocation = Revocation(revision: string, revoked: set<string>)
  datatype Lease = Lease(epoch: nat, digest: Digest, validUntil: int)
  datatype Ack = Ack(instanceId: string, epoch: nat, revision: string, digest: Digest, validUntil: int, at: int)

  /** Times are in milliseconds; the files hold whole seconds. */
  const MAX_LEASE: int := 24 * 60 * 60 * 1000

  function WholeSeconds(at: int): int {
    at - at % 1000
  }

  /** What one epoch says. */
  datatype Authority = Authority(epoch: nat, digest: Digest, validUntil: int)

  function LeaseAuthority(l: Lease): Authority { Authority(l.epoch, l.digest, l.validUntil) }

  function AckAuthority(a: Ack): Authority { Authority(a.epoch, a.digest, a.validUntil) }

  /** A later epoch, or the same epoch saying the same. */
  predicate NotBelow(a: Authority, b: Authority) {
    a.epoch > b.epoch || a == b
  }

  /** `loadSessionLeafRevocationDistributionSnapshot`; `None` is a file that is missing or refused. */
  function LoadLease(file: Option<Lease>, expected: Digest, now: int): Option<Lease> {
    if file.Some? && file.value.epoch > 0 && file.value.digest == expected
       && now < file.value.validUntil <= now + MAX_LEASE then file else None
  }

  /** `loadCandidate`: no rollback, and no reuse of the current epoch for anything else. */
  function LoadCandidate(current: Lease, file: Option<Lease>, candidate: Revocation, now: int): Option<(Lease, bool)> {
    match LoadLease(file, Of(candidate.revoked), now)
    case None => None
    case Some(l) =>
      if l.epoch < current.epoch then None
      else if l.epoch == current.epoch then if l == current then Some((l, false)) else None
      else Some((l, true))
  }

  /** `validateAckFloor`. */
  predicate FloorAllows(instanceId: string, floor: Ack, candidate: Lease) {
    && floor.instanceId == instanceId
    && floor.epoch <= candidate.epoch
    && (floor.epoch == candidate.epoch ==> floor.digest == candidate.digest && floor.validUntil == candidate.validUntil)
  }

  /** `authorityAvailable`. */
  predicate Available(lease: Lease, ackHealthy: bool, digest: Digest, now: int) {
    ackHealthy && lease.digest == digest && now < lease.validUntil
  }

  // ----- the machine -----

  /** Where a reload, or the start of the process, stands. */
  datatype Stage =
    | Idle
    | Read(candidate: Revocation)
    | Checked(candidate: Revocation, lease: Lease, changed: bool, at: int)
    | Published(lease: Lease, at: int)
    | Acking(starting: bool, at: int)
    | AckRenamed(starting: bool)

  /** A credential that was let through: which, under which set and authority, and when. */
  datatype Grant = Grant(id: string, revoked: set<string>, authority: Authority, at: int)

  /** `seen` are the snapshots this process has published: a credential check may still hold any of
      them. `installed` are the authorities in force at some time, `granted` all grants ever. */
  datatype State = State(
    up: bool, stage: Stage, current: Revocation, seen: set<Revocation>, generation: nat, lease: Lease, ackHealthy: bool,
    ack: Cell<Option<Ack>>, installed: set<Authority>, granted: seq<Grant>)

  datatype Action =
    | Start(revocation: Revocation, file: Option<Lease>, now: int)
    | ReadRevocation(candidate: Revocation)
    | ReadDistribution(file: Option<Lease>, now: int)
    | Publish
    | Install
    | RenameAck
    | SyncAck
    | FailAck
    | Check(held: Revocation, id: string, now: int)
    | Die
    | Crash(left: Option<Ack>)

  predicate Passes(s: State, held: Revocation, id: string, now: int) {
    Available(s.lease, s.ackHealthy, Of(held.revoked), now) && id !in held.revoked
  }

  /** `publishCandidate`: the same set keeps the generation, and the snapshot unless its metadata are
      to be refreshed. */
  function PublishedSnapshot(current: Revocation, candidate: Revocation, refresh: bool): Revocation {
    if Of(current.revoked) == Of(candidate.revoked) && !refresh then current else candidate
  }

  function PublishedGeneration(current: Revocation, candidate: Revocation, generation: nat): Option<nat> {
    if Of(current.revoked) == Of(candidate.revoked) then Some(generation)
    else if generation == MAX_UINT64 then None else Some(generation + 1)
  }

  predicate Enabled(instanceId: string, s: State, a: Action) {
    match a
    case Start(r, file, now) =>
      !s.up && var l := LoadLease(file, Of(r.revoked), now);
      l.Some? && (s.ack.visible.Some? ==> FloorAllows(instanceId, s.ack.visible.value, l.value))
    case ReadRevocation(_) => s.up && s.stage.Idle?
    case ReadDistribution(_, _) => s.up && s.stage.Read?
    case Publish => s.up && s.stage.Checked?
    case Install => s.up && s.stage.Published?
    case RenameAck => s.up && s.stage.Acking?
    case SyncAck => s.up && s.stage.AckRenamed?
    case FailAck => s.up && (s.stage.Acking? || s.stage.AckRenamed?)
    case Check(held, _, _) => s.up && held in s.seen
    case Die => s.up
    case Crash(left) => s.ack.Survives(left)
  }

  function Step(instanceId: string, s: State, a: Action): State
    requires Enabled(instanceId, s, a)
  {
    match a
    case Start(r, file, now) =>
      s.(up := true, stage := Acking(true, now), current := r, seen := {r}, generation := 1, lease := file.value,
         ackHealthy := false, installed := s.installed + {LeaseAuthority(file.value)})
    case ReadRevocation(candidate) => s.(stage := Read(candidate))
    case ReadDistribution(file, now) =>
      (match LoadCandidate(s.lease, file, s.stage.candidate, now)
       case None => s.(stage := Idle)
       case Some((l, changed)) => s.(stage := Checked(s.stage.candidate, l, changed, now)))
    case Publish =>
      (match PublishedGeneration(s.current, s.stage.candidate, s.generation)
       case None => s.(stage := Idle)
       case Some(g) =>
         var published := PublishedSnapshot(s.current, s.stage.candidate, s.stage.changed);
         s.(stage := Published(s.stage.lease, s.stage.at), current := published, seen := s.seen + {published}, generation := g))
    case Install =>
      s.(stage := Acking(false, s.stage.at), lease := s.stage.lease, ackHealthy := false,
         installed := s.installed + {LeaseAuthority(s.stage.lease)})
    case RenameAck =>
      s.(stage := AckRenamed(s.stage.starting),
         ack := s.ack.Rename(Some(Ack(instanceId, s.lease.epoch, s.current.revision, s.lease.digest, s.lease.validUntil, WholeSeconds(s.stage.at)))))
    case SyncAck => s.(stage := Idle, ack := s.ack.Sync(), ackHealthy := true)
    case FailAck => s.(stage := Idle, up := !s.stage.starting)
    case Check(held, id, now) =>
      if Passes(s, held, id, now)
      then s.(granted := s.granted + [Grant(id, held.revoked, LeaseAuthority(s.lease), now)]) else s
    case Die => s.(up := false, stage := Idle, ackHealthy := false)
    case Crash(left) => s.(up := false, stage := Idle, ackHealthy := false, ack := Cell(left, {}))
  }

  predicate Moves(instanceId: string, s: State, a: Action, t: State) {
    Enabled(instanceId, s, a) && Step(instanceId, s, a) == t
  }

  ghost predicate Path(instanceId: string, states: seq<State>, actions: seq<Action>) {
    && |states| == |actions| + 1
    && forall k {:trigger actions[k]} :: 0 <= k < |actions| ==> Moves(instanceId, states[k], actions[k], states[k + 1])
  }

  // ----- the invariant -----

  ghost predicate AckCovers(ack: Cell<Option<Ack>>, a: Authority) {
    forall left :: ack.Survives(left) ==> left.Some? && NotBelow(AckAuthority(left.value), a)
  }

  ghost predicate Ordered(granted: seq<Grant>) {
    forall i, j :: 0 <= i <= j < |granted| ==> NotBelow(granted[j].authority, granted[i].authority)
  }

  ghost predicate StageOk(s: State) {
    match s.stage
    case Idle => true
    case Read(_) => true
    case Checked(c, l, changed, at) => l.digest == Of(c.revoked) && NotBelow(LeaseAuthority(l), LeaseAuthority(s.lease)) && (changed <==> l != s.lease)
    case Published(l, at) => l.digest == Of(s.current.revoked) && NotBelow(LeaseAuthority(l), LeaseAuthority(s.lease))
    case Acking(_, _) => !s.ackHealthy
    case AckRenamed(_) => !s.ackHealthy && s.ack.visible.Some? && AckAuthority(s.ack.visible.value) == LeaseAuthority(s.lease)
  }

  ghost predicate Inv(instanceId: string, s: State) {
    && Ordered(s.granted)
    && (forall g :: g in s.granted ==> AckCovers(s.ack, g.authority) && g.authority in s.installed)
    && (forall left :: s.ack.Survives(left) && left.Some? ==> left.value.instanceId == instanceId && AckAuthority(left.value) in s.installed)
    && (s.up ==>
          && StageOk(s)
          && (forall g :: g in s.granted ==> NotBelow(LeaseAuthority(s.lease), g.authority))
          && LeaseAuthority(s.lease) in s.installed
          && (s.ackHealthy ==> s.ack.Settled() && s.ack.visible.Some? && AckAuthority(s.ack.visible.value) == LeaseAuthority(s.lease))
          && (!s.stage.Published? ==> s.lease.digest == Of(s.current.revoked)))
    && (forall left :: s.ack.Survives(left) && left.Some? ==>
          s.ack.visible.Some? && NotBelow(AckAuthority(s.ack.visible.value), AckAuthority(left.value)))
    && (s.up ==> forall left :: s.ack.Survives(left) && left.Some? ==> NotBelow(LeaseAuthority(s.lease), AckAuthority(left.value)))
    && (forall a :: a in s.installed ==> a.epoch > 0 && a.digest.Of?)
    && (!s.up ==> s.stage.Idle?)
    && (forall g :: g in s.granted ==> g.authority.digest == Of(g.revoked) && g.id !in g.revoked && g.at < g.authority.validUntil)
  }

  lemma CheckKeeps(instanceId: string, s: State, a: Action)
    requires Inv(instanceId, s) && Enabled(instanceId, s, a) && a.Check?
    ensures Inv(instanceId, Step(instanceId, s, a))
  {
    var t := Step(instanceId, s, a);
    assert forall g :: g in t.granted ==> g in s.granted || g == t.granted[|t.granted| - 1];
  }

  lemma AckKeeps(instanceId: string, s: State, a: Action)
    requires Inv(instanceId, s) && Enabled(instanceId, s, a) && (a.RenameAck? || a.SyncAck? || a.FailAck? || a.Die? || a.Crash?)
    ensures Inv(instanceId, Step(instanceId, s, a))
  {
  }

  lemma StepKeeps(instanceId: string, s: State, a: Action)
    requires Inv(instanceId, s) && Enabled(instanceId, s, a)
    ensures Inv(instanceId, Step(instanceId, s, a))
  {
    if a.Check? {
      CheckKeeps(instanceId, s, a);
    } else if a.RenameAck? || a.SyncAck? || a.FailAck? || a.Die? || a.Crash? {
      AckKeeps(instanceId, s, a);
    } else {
      assert Step(instanceId, s, a).granted == s.granted;
    }
  }

  lemma StepForgetsNothing(instanceId: string, s: State, a: Action)
    requires Enabled(instanceId, s, a)
    ensures s.granted <= Step(instanceId, s, a).granted && s.installed <= Step(instanceId, s, a).installed
  {
  }

  lemma {:induction false} PathKeeps(instanceId: string, states: seq<State>, actions: seq<Action>, k: nat)
    requires Path(instanceId, states, actions) && Inv(instanceId, states[0]) && k < |states|
    ensures Inv(instanceId, states[k]) && states[0].granted <= states[k].granted && states[0].installed <= states[k].installed
  {
    if k > 0 {
      PathKeeps(instanceId, states, actions, k - 1);
      assert Moves(instanceId, states[k - 1], actions[k - 1], states[k]);
      StepKeeps(instanceId, states[k - 1], actions[k - 1]);
      StepForgetsNothing(instanceId, states[k - 1], actions[k - 1]);
    }
  }

  // ----- what an instance promises -----

  /** An instance that has never run; its acknowledgement file may exist from an earlier deployment. */
  ghost predicate Fresh(instanceId: string, s: State) {
    && !s.up && s.stage.Idle? && s.granted == [] && s.ack.Settled()
    && (if s.ack.visible == None then s.installed == {} else
          var a := s.ack.visible.value;
          a.instanceId == instanceId && a.epoch > 0 && a.digest.Of? && s.installed == {AckAuthority(a)})
  }

  /** The epochs of the grants never go back, and one epoch always means one revoked set. */
  ghost predicate Monotone(granted: seq<Grant>) {
    forall i, j :: 0 <= i <= j < |granted| ==>
                     && granted[i].authority.epoch <= granted[j].authority.epoch
                     && (granted[i].authority.epoch == granted[j].authority.epoch ==> granted[i].revoked == granted[j].revoked)
  }

  predicate Within(g: Grant, left: Option<Ack>) {
    left.Some? && g.authority.epoch <= left.value.epoch
  }

  /** No grant is above an acknowledgement that a crash would leave. */
  ghost predicate Bounded(granted: seq<Grant>, ack: Cell<Option<Ack>>) {
    forall i, left :: 0 <= i < |granted| && ack.Survives(left) ==> Within(granted[i], left)
  }

  /** Over any reloads, failed acknowledgements, crashes and restarts, the epochs under which an instance
      lets credentials through never go back and never pass its durable acknowledgement. */
  lemma EpochsNeverGoBack(instanceId: string, states: seq<State>, actions: seq<Action>)
    requires Path(instanceId, states, actions) && Fresh(instanceId, states[0])
    ensures Monotone(states[|actions|].granted) && Bounded(states[|actions|].granted, states[|actions|].ack)
  {
    PathKeeps(instanceId, states, actions, |actions|);
    OrderedIsMonotone(states[|actions|].granted);
    CoveredIsBounded(states[|actions|].granted, states[|actions|].ack);
  }

  lemma OrderedIsMonotone(granted: seq<Grant>)
    requires Ordered(granted) && forall g :: g in granted ==> g.authority.digest == Of(g.revoked)
    ensures Monotone(granted)
  {
    forall i, j | 0 <= i <= j < |granted|
      ensures NotBelow(granted[j].authority, granted[i].authority)
      ensures granted[i].authority == granted[j].authority ==> granted[i].revoked == granted[j].revoked
    {
      assert granted[i] in granted && granted[j] in granted;
    }
  }

  lemma CoveredIsBounded(granted: seq<Grant>, ack: Cell<Option<Ack>>)
    requires forall g :: g in granted ==> AckCovers(ack, g.authority)
    ensures Bounded(granted, ack)
  {
    forall i, left | 0 <= i < |granted| && ack.Survives(left)
      ensures Within(granted[i], left)
    {
      assert granted[i] in granted && AckCovers(ack, granted[i].authority);
    }
  }

  /** The acknowledgement of what is in force has been made durable by this process. */
  predicate Acknowledged(s: State) {
    s.ack.Settled() && s.ack.visible.Some? && AckAuthority(s.ack.visible.value) == LeaseAuthority(s.lease)
  }

  /** At every point inside a reload a check lets a credential through exactly when this process has had its
      acknowledgement written, the snapshot the check holds is the one the distribution in force names, the
      credential is outside of it, and the lease runs; and then the acknowledgement of just that distribution is
      durable. The other way round a durable acknowledgement is not enough: a process that has started over one,
      or has failed to write it again, lets nothing through. */
  lemma CheckPassesExactlyWhen(instanceId: string, s: State, held: Revocation, id: string, now: int)
    requires Inv(instanceId, s) && s.up && held in s.seen
    ensures Passes(s, held, id, now)
            <==> && s.ackHealthy && now < s.lease.validUntil && s.lease.digest == Of(held.revoked)
                 && (forall revoked :: s.lease.digest == Of(revoked) ==> id !in revoked)
    ensures Passes(s, held, id, now) ==> Acknowledged(s)
    ensures s.stage.Acking? || s.stage.AckRenamed? ==> !Passes(s, held, id, now)
  {
    assert Of(held.revoked) == Of(held.revoked);
  }

  /** Durability is not enough: a process that starts over the durable acknowledgement of the very lease it loads
      lets nothing through until it has written it again. */
  lemma DurableIsNotEnough(instanceId: string, s: State, r: Revocation, l: Lease, now: int)
    requires Fresh(instanceId, s) && Enabled(instanceId, s, Action.Start(r, Some(l), now))
    requires s.ack.visible.Some? && AckAuthority(s.ack.visible.value) == LeaseAuthority(l)
    ensures var t := Step(instanceId, s, Action.Start(r, Some(l), now));
            && Acknowledged(t) && now < t.lease.validUntil && t.lease.digest == Of(r.revoked) && r in t.seen
            && forall held, id, at :: !Passes(t, held, id, at)
  {
  }

  /** A reload that runs to its acknowledgement leaves the authority as it was or installs exactly the
      set and the lease it read; one that is refused leaves it as it was. */
  lemma ReloadIsAllOrNothing(instanceId: string, s: State, candidate: Revocation, file: Option<Lease>, now: int)
    requires Inv(instanceId, s) && s.up && s.stage.Idle?
    ensures var read := Step(instanceId, Step(instanceId, s, ReadRevocation(candidate)), ReadDistribution(file, now));
            if !read.stage.Checked? then read == s
            else
              && file == Some(read.stage.lease) && file.value.digest == Of(candidate.revoked)
              && var published := Step(instanceId, read, Publish);
              if !published.stage.Published? then published == s && s.generation == MAX_UINT64
              else
                && var installed := Step(instanceId, published, Install);
                && installed.lease == file.value && installed.current.revoked == candidate.revoked
                && (installed.generation == s.generation <==> candidate.revoked == s.current.revoked)
                && (file.value.epoch == s.lease.epoch ==> installed.lease == s.lease && installed.current == s.current)
  {
    assert Of(s.current.revoked) == Of(candidate.revoked) <==> s.current.revoked == candidate.revoked;
  }

  // ----- the acknowledgement as a floor -----

  /** Whatever happens next, nothing is let through below `epoch`. */
  ghost predicate IsFloor(instanceId: string, s: State, epoch: nat) {
    forall states: seq<State>, actions: seq<Action> ::
      Path(instanceId, states, actions) && states[0] == s ==>
        forall j :: |s.granted| <= j < |states[|actions|].granted| ==> states[|actions|].granted[j].authority.epoch >= epoch
  }

  ghost predicate Above(s: State, epoch: nat) {
    && (forall left :: s.ack.Survives(left) ==> left.Some? && left.value.epoch >= epoch)
    && (s.up ==> s.lease.epoch >= epoch && (s.stage.Checked? || s.stage.Published? ==> s.stage.lease.epoch >= epoch))
  }

  lemma StepStaysAbove(instanceId: string, s: State, a: Action, epoch: nat)
    requires Inv(instanceId, s) && Enabled(instanceId, s, a) && Above(s, epoch)
    ensures var t := Step(instanceId, s, a);
            && Above(t, epoch) && s.granted <= t.granted
            && (forall j :: |s.granted| <= j < |t.granted| ==> t.granted[j].authority.epoch >= epoch)
  {
  }

  lemma {:induction false} StaysAbove(instanceId: string, states: seq<State>, actions: seq<Action>, epoch: nat, k: nat)
    requires Path(instanceId, states, actions) && Inv(instanceId, states[0]) && Above(states[0], epoch) && k < |states|
    ensures Above(states[k], epoch) && |states[0].granted| <= |states[k].granted|
    ensures forall j :: |states[0].granted| <= j < |states[k].granted| ==> states[k].granted[j].authority.epoch >= epoch
  {
    if k > 0 {
      StaysAbove(instanceId, states, actions, epoch, k - 1);
      PathKeeps(instanceId, states, actions, k - 1);
      assert Moves(instanceId, states[k - 1], actions[k - 1], states[k]);
      StepStaysAbove(instanceId, states[k - 1], actions[k - 1], epoch);
    }
  }

  lemma {:induction false} PathOn(instanceId: string, states: seq<State>, actions: seq<Action>, a: Action)
    requires Path(instanceId, states, actions) && Enabled(instanceId, states[|actions|], a)
    ensures Path(instanceId, states + [Step(instanceId, states[|actions|], a)], actions + [a])
  {
    var more, t := actions + [a], states + [Step(instanceId, states[|actions|], a)];
    forall k | 0 <= k < |more| ensures Moves(instanceId, t[k], more[k], t[k + 1]) {
      if k < |actions| { assert more[k] == actions[k]; }
    }
  }

  /** Roll the files back and restart over the acknowledgement `left`: the old epoch is in force again. */
  lemma RollbackRun(instanceId: string, s: State, left: Option<Ack>, old_: Lease, revoked: set<string>, id: string)
    returns (states: seq<State>, actions: seq<Action>)
    requires Inv(instanceId, s) && s.ack.Survives(left) && old_.epoch > 0 && old_.digest == Of(revoked) && id !in revoked
    requires left.Some? ==> AckAuthority(left.value) == LeaseAuthority(old_)
    ensures Path(instanceId, states, actions) && states[0] == s
    ensures var t := states[|actions|]; |t.granted| == |s.granted| + 1 && t.granted[|s.granted|].authority.epoch == old_.epoch
  {
    var held, now := Revocation("r", revoked), old_.validUntil - 1;
    var run := [Crash(left), Start(held, Some(old_), now), RenameAck, SyncAck, Check(held, id, now)];
    states, actions := [s], [];
    for k := 0 to |run|
      invariant |actions| == k && Path(instanceId, states, actions) && states[0] == s
      invariant var t := states[|actions|];
                && t.granted == s.granted + (if k == 5 then [Grant(id, revoked, LeaseAuthority(old_), now)] else [])
                && (k == 0 ==> t == s)
                && (k == 1 ==> !t.up && t.ack.visible == left)
                && (2 <= k <= 3 ==> t.up && t.lease == old_ && t.seen == {held} && t.current == held)
                && (k == 2 ==> t.stage.Acking?) && (k == 3 ==> t.stage.AckRenamed?)
                && (k == 4 ==> t.up && t.lease == old_ && held in t.seen && t.ackHealthy)
    {
      PathOn(instanceId, states, actions, run[k]);
      states, actions := states + [Step(instanceId, states[k], run[k])], actions + [run[k]];
    }
  }

  lemma Outside(revoked: set<string>) returns (id: string)
    ensures id !in revoked
  {
    var rest: set<string>, n: nat := revoked, 0;
    while rest != {}
      invariant rest <= revoked && forall x :: x in revoked && x !in rest ==> |x| < n
    {
      var x :| x in rest;
      rest, n := rest - {x}, if n > |x| then n else |x| + 1;
    }
    id := seq(n, _ => 'x');
  }

  /** An acknowledgement is a floor for ever exactly when it is durable: while a crash may still bring an
      older one back, files rolled back to that older epoch are accepted again. */
  lemma AckIsAFloorExactlyWhen(instanceId: string, s: State, epoch: nat)
    requires Inv(instanceId, s) && s.ack.visible.Some? && s.ack.visible.value.epoch == epoch > 1
    ensures IsFloor(instanceId, s, epoch) <==> forall left :: s.ack.Survives(left) ==> left.Some? && left.value.epoch >= epoch
  {
    if forall left :: s.ack.Survives(left) ==> left.Some? && left.value.epoch >= epoch {
      assert s.ack.Survives(s.ack.visible);
      assert Above(s, epoch);
      forall states: seq<State>, actions: seq<Action> | Path(instanceId, states, actions) && states[0] == s
        ensures forall j :: |s.granted| <= j < |states[|actions|].granted| ==> states[|actions|].granted[j].authority.epoch >= epoch
      {
        StaysAbove(instanceId, states, actions, epoch, |actions|);
      }
    } else {
      var left :| s.ack.Survives(left) && !(left.Some? && left.value.epoch >= epoch);
      var revoked := if left.Some? then left.value.digest.revoked else {};
      var lease := if left.Some? then Lease(left.value.epoch, left.value.digest, left.value.validUntil) else Lease(1, Of({}), 0);
      var id := Outside(revoked);
      var states, actions := RollbackRun(instanceId, s, left, lease, revoked, id);
      assert !IsFloor(instanceId, s, epoch);
    }
  }

  /** Every new epoch goes through such a moment: a process that starts over an older acknowledgement, or none, and
      has renamed its own into place shows an acknowledgement that is no floor before its directory is synced. */
  lemma AckIsNoFloorBeforeItsSync(instanceId: string, s: State, r: Revocation, l: Lease, now: int)
    requires Fresh(instanceId, s) && Enabled(instanceId, s, Action.Start(r, Some(l), now))
    requires l.epoch > 1 && (s.ack.visible.Some? ==> s.ack.visible.value.epoch < l.epoch)
    ensures var t := Step(instanceId, Step(instanceId, s, Action.Start(r, Some(l), now)), RenameAck);
            && t.ack.visible.Some? && t.ack.visible.value.epoch == l.epoch
            && !IsFloor(instanceId, t, l.epoch) && IsFloor(instanceId, Step(instanceId, t, SyncAck), l.epoch)
  {
    var up := Step(instanceId, s, Action.Start(r, Some(l), now));
    var t := Step(instanceId, up, RenameAck);
    StepKeeps(instanceId, s, Action.Start(r, Some(l), now));
    StepKeeps(instanceId, up, RenameAck);
    StepKeeps(instanceId, t, SyncAck);
    assert t.ack.Survives(s.ack.visible);
    AckIsAFloorExactlyWhen(instanceId, t, l.epoch);
    AckIsAFloorExactlyWhen(instanceId, Step(instanceId, t, SyncAck), l.epoch);
  }

  /** There is such a process. */
  lemma AckOfASecondEpoch()
    ensures exists s, r, l, now ::
              && Fresh("a", s) && Enabled("a", s, Action.Start(r, Some(l), now))
              && s.ack.visible.Some? && s.ack.visible.value.epoch < l.epoch
  {
    var r, l := Revocation("r", {}), Lease(2, Of({}), 1000);
    var s := State(false, Idle, r, {}, 1, l, false, Cell(Some(Ack("a", 1, "r", Of({}), 1000, 0)), {}), {Authority(1, Of({}), 1000)}, []);
    assert Fresh("a", s) && Enabled("a", s, Action.Start(r, Some(l), 0));
  }

  /** What the controller may conclude from an acknowledgement it reads: this instance has had exactly
      the revoked set and lease of that epoch in force. */
  lemma AckIsEvidence(instanceId: string, states: seq<State>, actions: seq<Action>, a: Ack, revoked: set<string>)
    requires Path(instanceId, states, actions) && Fresh(instanceId, states[0])
    requires states[|actions|].ack.visible == Some(a) && a.digest == Of(revoked)
    ensures Authority(a.epoch, Of(revoked), a.validUntil) in states[|actions|].installed && a.instanceId == instanceId
    ensures Inv(instanceId, states[|actions|])
  {
    PathKeeps(instanceId, states, actions, |actions|);
    assert states[|actions|].ack.Survives(Some(a));
  }

  // ----- the code -----

  datatype ReloadResult = ReloadResult(previousGeneration: nat, generation: nat, previousRevision: string, revision: string,
                                       authorityChanged: bool, distributionChanged: bool, epoch: nat, ackHealthy: bool)

  datatype CheckError = Unavailable | Revoked

  /** `reloadableSessionLeafRevocation` with its distribution runtime. Every method is a run of the
      machine above, in which checks may come between any two steps. */
  class LeafRevocation {
    const instanceId: string
    var current: Revocation
    var generation: nat
    var lease: Lease
    var ackHealthy: bool
    var ackFile: Cell<Option<Ack>>
    ghost var path: seq<State>
    ghost var trace: seq<Action>

    ghost function Now(): State
      reads this
      requires path != []
    {
      path[|path| - 1]
    }

    ghost predicate Valid()
      reads this
    {
      && Path(instanceId, path, trace)
      && Now() == State(true, Now().stage, current, Now().seen, generation, lease, ackHealthy, ackFile, Now().installed, Now().granted)
      && current in Now().seen
    }

    constructor (instanceId: string, revocation: Revocation, lease: Lease, now: int, ackFile: Cell<Option<Ack>>, ghost down: State)
      requires !down.up && down.ack == ackFile && Enabled(instanceId, down, Action.Start(revocation, Some(lease), now))
      ensures Valid() && path[0] == down && Now() == Step(instanceId, down, Action.Start(revocation, Some(lease), now))
      ensures this.instanceId == instanceId
    {
      this.instanceId, current, generation, this.lease, ackHealthy, this.ackFile := instanceId, revocation, 1, lease, false, ackFile;
      path := [down, Step(instanceId, down, Action.Start(revocation, Some(lease), now))];
      trace := [Action.Start(revocation, Some(lease), now)];
    }

    ghost method Note(a: Action)
      requires Path(instanceId, path, trace) && Enabled(instanceId, Now(), a)
      modifies this`path, this`trace
      ensures Path(instanceId, path, trace) && path == old(path) + [Step(instanceId, old(Now()), a)]
      ensures Now() == Step(instanceId, old(Now()), a)
    {
      PathOn(instanceId, path, trace, a);
      path, trace := path + [Step(instanceId, Now(), a)], trace + [a];
    }

    /** `writeAck`: temp file, rename, directory sync; `ackHealthy` is set by the caller. */
    method WriteAck(starting: bool, at: int) returns (ok: bool)
      requires Valid() && Now().stage == Acking(starting, at) && !ackHealthy
      modifies this
      ensures Path(instanceId, path, trace) && old(path) <= path
      ensures current == old(current) && generation == old(generation) && lease == old(lease) && !ackHealthy
      ensures ok ==> ackFile.Settled() && ackFile.visible.Some? && AckAuthority(ackFile.visible.value) == LeaseAuthority(lease)
      ensures ok ==> Now() == old(Now()).(stage := Idle, ack := ackFile, ackHealthy := true)
      ensures !ok ==> Now() == old(Now()).(stage := Idle, ack := ackFile, up := !starting)
    {
      var writeFails: bool := *;
      if writeFails {
        Note(FailAck);
        return false;
      }
      ackFile := ackFile.Rename(Some(Ack(instanceId, lease.epoch, current.revision, lease.digest, lease.validUntil, WholeSeconds(at))));
      Note(RenameAck);
      var syncFails: bool := *;
      if syncFails {
        Note(FailAck);
        return false;
      }
      ackFile := ackFile.Sync();
      Note(SyncAck);
      return true;
    }

    /** `newSessionLeafRevocationDistributionRuntime`: no instance serves before its acknowledgement of
        the authority it starts with is durable. */
    static method Start(instanceId: string, revocation: Revocation, file: Option<Lease>, now: int, ackFile: Cell<Option<Ack>>,
                        ghost down: State)
      returns (r: Option<LeafRevocation>)
      requires !down.up && down.ack == ackFile
      ensures r.Some? ==> fresh(r.value) && r.value.Valid() && r.value.Now().stage.Idle? && r.value.ackHealthy && r.value.path[0] == down
      ensures r.Some? ==>
                && file == Some(r.value.lease) && r.value.current == revocation && r.value.lease.digest == Of(revocation.revoked)
                && (ackFile.visible.Some? ==> FloorAllows(instanceId, ackFile.visible.value, r.value.lease))
    {
      var loaded := LoadLease(file, Of(revocation.revoked), now);
      if loaded == None { return None; }
      if ackFile.visible.Some? && !FloorAllows(instanceId, ackFile.visible.value, loaded.value) { return None; }
      var runtime := new LeafRevocation(instanceId, revocation, loaded.value, now, ackFile, down);
      var ok := runtime.WriteAck(true, now);
      if !ok { return None; }
      runtime.ackHealthy := true;
      return Some(runtime);
    }

    /** `publishCandidate`. */
    method PublishCandidate(candidate: Revocation, refresh: bool) returns (ok: bool)
      requires Valid() && Now().stage.Checked? && Now().stage.candidate == candidate && Now().stage.changed == refresh
      modifies this
      ensures Path(instanceId, path, trace) && old(path) <= path && lease == old(lease) && ackHealthy == old(ackHealthy) && ackFile == old(ackFile)
      ensures Now() == Step(instanceId, old(Now()), Publish) && current == Now().current && generation == Now().generation
      ensures ok <==> Now().stage.Published?
    {
      var same := Of(current.revoked) == Of(candidate.revoked);
      if !same && generation == MAX_UINT64 {
        Note(Publish);
        return false;
      }
      if same {
        if refresh { current := candidate; }
      } else {
        current, generation := candidate, generation + 1;
      }
      Note(Publish);
      return true;
    }

    /** The lease comes into force unacknowledged, then the acknowledgement is written. */
    method InstallLease(next: Lease, at: int) returns (acked: bool)
      requires Path(instanceId, path, trace) && Now().up && Now().stage == Published(next, at) && current in Now().seen
      requires Now() == State(true, Now().stage, current, Now().seen, generation, lease, ackHealthy, ackFile, Now().installed, Now().granted)
      modifies this
      ensures Valid() && old(path) <= path && Now().stage.Idle?
      ensures lease == next && ackHealthy == acked && current == old(current) && generation == old(generation)
    {
      lease, ackHealthy := next, false;
      Note(Install);
      acked := WriteAck(false, at);
      ackHealthy := acked;
    }

    /** `reloadDistributed`. An error leaves the authority alone; success installs exactly what was read,
        healthy or not. */
    method ReloadDistributed(candidate: Revocation, file: Option<Lease>, now: int) returns (r: Option<ReloadResult>)
      requires Valid() && Now().stage.Idle?
      modifies this
      ensures Valid() && old(path) <= path && Now().stage.Idle?
      ensures r == None ==> current == old(current) && lease == old(lease) && generation == old(generation) && ackHealthy == old(ackHealthy)
      ensures r.Some? ==>
                && LoadCandidate(old(lease), file, candidate, now) == Some((lease, r.value.distributionChanged))
                && (Of(current.revoked) == Of(candidate.revoked)) && r.value.ackHealthy == ackHealthy
                && r.value.generation == generation && r.value.revision == current.revision && r.value.epoch == lease.epoch
    {
      Note(ReadRevocation(candidate));
      var loaded := LoadCandidate(lease, file, candidate, now);
      Note(ReadDistribution(file, now));
      if loaded == None { return None; }
      var (next, changed) := loaded.value;
      var previous := (generation, current.revision);
      var ok := PublishCandidate(candidate, changed);
      if !ok { return None; }
      var acked := InstallLease(next, now);
      return Some(ReloadResult(previous.0, generation, previous.1, current.revision, generation != previous.0, changed, lease.epoch, acked));
    }

    /** `credentialAuthorizationError`: take the snapshot, then ask the distribution, then the snapshot. */
    method CredentialAuthorizationError(id: string, now: int) returns (error: Option<CheckError>)
      requires Valid()
      modifies this`path, this`trace
      ensures Valid() && old(path) <= path
      ensures error == None <==> Passes(old(Now()), current, id, now)
      ensures error == None ==> Now().granted == old(Now()).granted + [Grant(id, current.revoked, LeaseAuthority(lease), now)]
      ensures error.Some? ==> Now() == old(Now()) && (error.value.Revoked? ==> id in current.revoked)
    {
      Note(Check(current, id, now));
      if !Available(lease, ackHealthy, Of(current.revoked), now) { return Some(Unavailable); }
      if id in current.revoked { return Some(Revoked); }
      return None;
    }
  }
}
