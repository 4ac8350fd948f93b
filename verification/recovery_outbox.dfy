/** Recovery challenges with durable delivery: the provider's challenges, the outbox records behind
    them, the delivery worker, and the restore after a restart. */
module RecoveryOutbox {
  import opened Outcomes

  // ----- values -----

  datatype Subject = Subject(loginId: string, accountId: string, version: nat)

  /** SHA-256 of a proof, taken as injective; `Other` is any other digest. */
  datatype Verifier = Of(proof: string) | Other(hex: string)

  datatype Challenge = Challenge(subject: Subject, verifier: Verifier, active: bool, expires: int, attempts: nat)

  datatype DeliveryState = Pending | Delivered | Failed

  datatype Record = Record(
    requestId: string, subject: Subject, verifier: Verifier, active: bool, expires: int, attempts: nat,
    state: DeliveryState, destination: string, proof: string, deliveries: nat, nextAttempt: Option<int>)

  datatype Grant = Grant(accountId: string, version: nat)

  /** What the delivery adapter reports. */
  datatype Transport = Accepted | Canceled | Transient | Refused

  const MAX_VERIFICATION_ATTEMPTS: nat := 20
  const MAX_DELIVERY_ATTEMPTS: nat := 64
  const WORKER_BATCH: nat := 32

  /** `validateRecord`: what may be written, and read back. */
  predicate ValidRecord(r: Record) {
    && r.requestId != "" && r.subject.loginId != "" && r.subject.accountId != "" && r.subject.version != 0
    && r.attempts <= MAX_VERIFICATION_ATTEMPTS && r.deliveries <= MAX_DELIVERY_ATTEMPTS
    && match r.state
       case Pending => r.active && r.destination != "" && r.proof != "" && r.nextAttempt.Some? && r.verifier == Of(r.proof)
       case Delivered => r.active && r.destination == "" && r.proof == "" && r.nextAttempt == None
       case Failed => !r.active && r.destination == "" && r.proof == "" && r.nextAttempt == None
  }

  /** `sameSessionRecoveryOutboxDelivery`. */
  predicate SameDelivery(a: Record, b: Record) {
    && a.requestId == b.requestId && a.subject == b.subject && a.verifier == b.verifier && a.expires == b.expires
    && a.destination == b.destination && a.proof == b.proof
  }

  // ----- retries -----

  function Doubled(delay: int, times: nat): int {
    if times == 0 then delay else 2 * Doubled(delay, times - 1)
  }

  /** `retryDelay`: the initial delay doubled once per earlier attempt, and the maximum from the attempt
      on behind which doubling would pass it. */
  method RetryDelay(retryMin: int, retryMax: int, attempts: int) returns (delay: int)
    requires 0 < retryMin <= retryMax
    ensures retryMin <= delay <= retryMax
    ensures attempts <= 0 ==> delay == retryMin
    ensures attempts > 0 ==>
              if forall k :: 0 <= k < attempts - 1 ==> Doubled(retryMin, k) < retryMax / 2
              then delay == Doubled(retryMin, attempts - 1) else delay == retryMax
  {
    if attempts <= 0 { return retryMin; }
    delay := retryMin;
    for i := 1 to attempts
      invariant delay == Doubled(retryMin, i - 1) && retryMin <= delay <= retryMax
      invariant forall k :: 0 <= k < i - 1 ==> Doubled(retryMin, k) < retryMax / 2
    {
      if delay >= retryMax / 2 { return retryMax; }
      delay := delay * 2;
    }
    if delay > retryMax { return retryMax; }
  }

  // ----- the directory -----

  type Disk = Directory<Record>

  function Renamed(disk: Disk, id: string, r: Option<Record>): (d: Disk)
    ensures forall other :: At(d, other) == if other == id then At(disk, id).Rename(r) else At(disk, other)
  {
    disk[id := At(disk, id).Rename(r)]
  }

  // ----- what holds over all restarts -----

  /** `used`: every request id ever given out. `granted`: the grants returned for a request since its id was
      drawn, over all restarts. `failed`: requests whose delivery has failed for good. */
  datatype History = History(used: set<string>, granted: map<string, nat>, failed: set<string>)

  function Granted(h: History, id: string): nat {
    if id in h.granted then h.granted[id] else 0
  }

  function Live(challenges: map<string, Challenge>, now: int): map<string, Challenge>
  {
    map id | id in challenges && now < challenges[id].expires :: challenges[id]
  }

  /** The id of a new request: a drawn one that is free, and none exactly when every place is taken or every
      drawn id. */
  predicate Picked(live: map<string, Challenge>, maxActive: nat, drawn: seq<string>, id: Option<string>) {
    && (id == None <==> |live| >= maxActive || forall k :: 0 <= k < |drawn| ==> drawn[k] in live)
    && (id.Some? ==> id.value in drawn && id.value !in live)
  }

  /** The live challenges, and the new one if there is one. */
  predicate Opened(live: map<string, Challenge>, c: Challenge, id: Option<string>, active: bool, challenges: map<string, Challenge>) {
    challenges == if id.Some? then live[id.value := c.(active := active)] else live
  }

  /** A new request, with an id that may have been in use before. */
  function Begun(h: History, id: string): History {
    History(h.used + {id}, h.granted - {id}, h.failed - {id})
  }

  predicate RecordOk(h: History, id: string, r: Record) {
    && ValidRecord(r) && r.requestId == id && id in h.used
    && Granted(h, id) <= r.attempts
    && (id in h.failed ==> r.state.Failed?)
  }

  ghost predicate DiskOk(h: History, disk: Disk) {
    forall id, r :: At(disk, id).Survives(Some(r)) ==> RecordOk(h, id, r)
  }

  predicate RecordsOk(h: History, records: map<string, Record>) {
    forall id :: id in records ==> RecordOk(h, id, records[id])
  }

  predicate ChallengesOk(h: History, challenges: map<string, Challenge>) {
    forall id :: id in challenges ==> id in h.used && Granted(h, id) <= challenges[id].attempts
  }

  predicate HistoryOk(h: History, maxAttempts: nat) {
    && (forall id :: id in h.granted ==> id in h.used && h.granted[id] <= maxAttempts)
    && h.failed <= h.used
  }

  lemma BegunIsOk(h: History, disk: Disk, records: map<string, Record>, challenges: map<string, Challenge>, maxAttempts: nat, id: string)
    requires DiskOk(h, disk) && RecordsOk(h, records) && ChallengesOk(h, challenges) && HistoryOk(h, maxAttempts)
    ensures var next := Begun(h, id);
            DiskOk(next, disk) && RecordsOk(next, records) && ChallengesOk(next, challenges) && HistoryOk(next, maxAttempts)
  {
  }

  lemma AgainIsOk(h: History, disk: Disk, records: map<string, Record>, challenges: map<string, Challenge>, maxAttempts: nat, id: string)
    requires DiskOk(h, disk) && RecordsOk(h, records) && ChallengesOk(h, challenges) && HistoryOk(h, maxAttempts)
    ensures var next := h.(failed := h.failed - {id});
            DiskOk(next, disk) && RecordsOk(next, records) && ChallengesOk(next, challenges) && HistoryOk(next, maxAttempts)
  {
  }

  /** A record that may replace what the directory holds. */
  lemma DiskRenamed(h: History, disk: Disk, id: string, r: Option<Record>)
    requires DiskOk(h, disk) && (r.Some? ==> RecordOk(h, id, r.value))
    ensures DiskOk(h, Renamed(disk, id, r)) && DiskOk(h, SyncAll(Renamed(disk, id, r)))
  {
  }

  /** What the end of a process leaves of the directory: all of it, or after a power loss what the renames that are
      not synced may leave. */
  function Base(disk: Disk, lost: bool, left: map<string, Option<Record>>): Disk {
    if lost then map id | id in left :: Cell(left[id], {}) else disk
  }

  ghost predicate CanLeave(disk: Disk, lost: bool, left: map<string, Option<Record>>) {
    left.Keys == disk.Keys && forall id :: id in left ==> if lost then disk[id].Survives(left[id]) else left[id] == disk[id].visible
  }

  /** The records of a directory that have not expired. */
  function Unexpired(left: map<string, Option<Record>>, now: int): map<string, Record> {
    map id | id in left && left[id].Some? && now < left[id].value.expires :: left[id].value
  }

  /** The challenges that records bring back. */
  function Restored(live: map<string, Record>, maxAttempts: nat): map<string, Challenge> {
    map id | id in live ::
      Challenge(live[id].subject, live[id].verifier, live[id].active && live[id].attempts < maxAttempts, live[id].expires, live[id].attempts)
  }

  function PendingOf(live: map<string, Record>): set<string> {
    set id | id in live && live[id].state.Pending?
  }

  lemma RestoredIsOk(h: History, live: map<string, Record>, maxAttempts: nat)
    requires RecordsOk(h, live)
    ensures ChallengesOk(h, Restored(live, maxAttempts))
  {
  }

  /** The directory without its expired records. */
  function Pruned(base: Disk, live: map<string, Record>): Disk {
    map id | id in base :: if id in live then base[id] else base[id].Rename(None)
  }

  /** What is left, without its expired part, is as good as what was there. */
  lemma LeftIsOk(h: History, disk: Disk, lost: bool, left: map<string, Option<Record>>, now: int)
    requires DiskOk(h, disk) && CanLeave(disk, lost, left)
    ensures RecordsOk(h, Unexpired(left, now))
    ensures DiskOk(h, Pruned(Base(disk, lost, left), Unexpired(left, now)))
    ensures DiskOk(h, SyncAll(Pruned(Base(disk, lost, left), Unexpired(left, now))))
  {
    var live := Unexpired(left, now);
    var pruned := Pruned(Base(disk, lost, left), live);
    forall id | id in live ensures RecordOk(h, id, live[id]) {
      assert At(disk, id).Survives(Some(live[id]));
    }
    forall id, r | At(pruned, id).Survives(Some(r)) ensures At(disk, id).Survives(Some(r)) {
      assert id in disk <==> id in left;
    }
  }

  datatype RecoveryError = Unavailable | RecoveryRejected | DeliveryPermanent | DeliveryTransient

  /** The static provider of one generation together with the process-wide durable outbox. */
  class RecoveryRuntime {
    const ttl: int
    const maxAttempts: nat
    const maxActive: nat
    const maxRecords: nat
    const maxDeliveries: nat
    const retryMin: int
    const retryMax: int
    var challenges: map<string, Challenge>
    var records: map<string, Record>
    var ready: set<string>
    var disk: Disk
    ghost var h: History

    constructor (ttl: int, maxAttempts: nat, maxActive: nat, maxRecords: nat, maxDeliveries: nat, retryMin: int, retryMax: int)
      requires 0 < maxAttempts <= MAX_VERIFICATION_ATTEMPTS && 0 < maxDeliveries <= MAX_DELIVERY_ATTEMPTS && 0 < retryMin <= retryMax
      ensures Valid() && h == History({}, map[], {})
    {
      this.ttl, this.maxAttempts, this.maxActive, this.maxRecords := ttl, maxAttempts, maxActive, maxRecords;
      this.maxDeliveries, this.retryMin, this.retryMax := maxDeliveries, retryMin, retryMax;
      challenges, records, ready, disk, h := map[], map[], {}, map[], History({}, map[], {});
    }

    ghost predicate Valid()
      reads this
    {
      && 0 < maxAttempts <= MAX_VERIFICATION_ATTEMPTS && 0 < maxDeliveries <= MAX_DELIVERY_ATTEMPTS && 0 < retryMin <= retryMax
      && DiskOk(h, disk) && RecordsOk(h, records) && ChallengesOk(h, challenges) && HistoryOk(h, maxAttempts)
    }

    /** `writeRecordLocked`: validate, temp file, rename, directory sync. */
    method WriteRecord(r: Record) returns (ok: bool)
      requires Valid() && (ValidRecord(r) ==> RecordOk(h, r.requestId, r))
      modifies this`disk
      ensures Valid()
      ensures ok ==> ValidRecord(r) && disk == SyncAll(Renamed(old(disk), r.requestId, Some(r)))
      ensures !ok ==> disk == old(disk) || (ValidRecord(r) && disk == Renamed(old(disk), r.requestId, Some(r)))
    {
      if !ValidRecord(r) { return false; }
      DiskRenamed(h, disk, r.requestId, Some(r));
      var writeFails: bool := *;
      if writeFails { return false; }
      disk := Renamed(disk, r.requestId, Some(r));
      var syncFails: bool := *;
      if syncFails { return false; }
      disk := SyncAll(disk);
      return true;
    }

    /** `deleteRecordLocked`. A removal whose directory sync fails is reported, but the record is gone
        from memory. */
    method DeleteRecord(id: string) returns (ok: bool)
      requires Valid()
      modifies this`disk, this`records, this`ready
      ensures Valid()
      ensures ok ==> id !in records
      ensures records == old(records) || records == old(records) - {id}
      ensures ready <= old(ready)
      ensures disk == old(disk) || disk == Renamed(old(disk), id, None) || disk == SyncAll(Renamed(old(disk), id, None))
    {
      if id !in records {
        ready := ready - {id};
        return true;
      }
      DiskRenamed(h, disk, id, None);
      var removeFails: bool := *;
      if removeFails { return false; }
      disk := Renamed(disk, id, None);
      records, ready := records - {id}, ready - {id};
      var syncFails: bool := *;
      if syncFails { return false; }
      disk := SyncAll(disk);
      return true;
    }

    /** `sessionRecoveryChallengeAuthorizing`: the fence every grant has to pass. */
    predicate Authorizing(id: string)
      reads this
    {
      id in records && records[id].active && (records[id].state.Pending? || records[id].state.Delivered?)
    }

    /** `Consume` of the provider, and `deactivateSessionRecoveryChallenge`. */
    method Consume(id: string)
      modifies this`challenges
      ensures challenges == old(challenges) - {id}
    {
      challenges := challenges - {id};
    }

    method Deactivate(id: string)
      modifies this`challenges
      ensures challenges == if id in old(challenges) then old(challenges)[id := old(challenges)[id].(active := false)] else old(challenges)
    {
      if id in challenges { challenges := challenges[id := challenges[id].(active := false)]; }
    }

    /** `PersistChallenge`. */
    method PersistChallenge(id: string) returns (ok: bool)
      requires Valid()
      modifies this`disk, this`records
      ensures Valid()
      ensures ok && id in challenges && id in old(records) ==>
                && id in records && records[id].attempts == challenges[id].attempts && records[id].state == old(records)[id].state
                && At(disk, id) == Cell(Some(records[id]), {})
      ensures !(ok && id in challenges && id in old(records)) ==> records == old(records)
    {
      if id !in challenges || id !in records { return true; }
      var challenge, record := challenges[id], records[id];
      var next := record.(attempts := challenge.attempts, active := if record.state.Failed? then record.active else challenge.active);
      ok := WriteRecord(next);
      if ok { records := records[id := next]; }
    }

    /** `persistSessionRecoveryDurableChallenge`: the attempt has to be durable and the outbox has to agree
        before a grant may leave. */
    method PersistDurable(id: string) returns (ok: bool)
      requires Valid()
      modifies this`disk, this`records, this`ready, this`challenges
      ensures Valid()
      ensures ok && id in old(challenges) ==>
                && challenges == old(challenges) && id !in h.failed
                && id in records && records[id].attempts == challenges[id].attempts && At(disk, id) == Cell(Some(records[id]), {})
    {
      var persisted := PersistChallenge(id);
      if !persisted {
        var deleted := DeleteRecord(id);
        if deleted { Consume(id); } else { Deactivate(id); }
        return false;
      }
      if !Authorizing(id) {
        Deactivate(id);
        return false;
      }
      return true;
    }

    /** `Verify` of the provider with the persist behind it, as one step. Every attempt on a live challenge
        counts; a grant leaves only for the right proof, within the attempts, once the count is durable. */
    method Verify(id: string, proof: string, now: int) returns (r: Result<Grant, RecoveryError>)
      requires Valid()
      modifies this`disk, this`records, this`ready, this`challenges, this`h
      ensures Valid() && h.used == old(h).used && h.failed == old(h).failed
      ensures r.Ok? ==>
                && id in old(challenges) && id !in h.failed
                && var c := old(challenges)[id];
                && c.active && c.verifier == Of(proof) && now < c.expires && c.attempts < maxAttempts
                && r.value == Grant(c.subject.accountId, c.subject.version)
                && h.granted == old(h).granted[id := Granted(old(h), id) + 1]
      ensures r.Err? ==> h == old(h)
    {
      var matched, counts, active := false, false, false;
      if id in challenges {
        var c := challenges[id];
        matched, active := c.verifier == Of(proof), c.active;
        counts := now < c.expires && c.attempts < maxAttempts;
        if counts { challenges := challenges[id := c.(attempts := c.attempts + 1)]; }
      }
      var granting := counts && active && matched;
      var ok := PersistDurable(id);
      if !ok || !granting { return Err(RecoveryRejected); }
      h := h.(granted := h.granted[id := Granted(h, id) + 1]);
      return Ok(Grant(challenges[id].subject.accountId, challenges[id].subject.version));
    }

    /** `Consume` with the deletion of the durable record, behind a reset or for a request that is over. */
    method ConsumeRequest(id: string)
      requires Valid()
      modifies this`disk, this`records, this`ready, this`challenges
      ensures Valid() && id !in challenges
    {
      Consume(id);
      var deleted := DeleteRecord(id);
    }

    /** `pruneExpiredLocked`. */
    method PruneExpired(now: int)
      requires Valid()
      modifies this`disk, this`records, this`ready
      ensures Valid() && records.Keys <= old(records).Keys && ready <= old(ready)
      ensures forall id :: id in records ==> records[id] == old(records)[id]
      ensures forall id :: id in old(records) && now < old(records)[id].expires ==> id in records
    {
      var todo := records.Keys;
      while todo != {}
        invariant Valid() && todo <= old(records).Keys && records.Keys <= old(records).Keys && ready <= old(ready)
        invariant forall id :: id in records ==> records[id] == old(records)[id]
        invariant forall id :: id in old(records) && (id in todo || now < old(records)[id].expires) ==> id in records
      {
        var id :| id in todo;
        if now >= records[id].expires { var deleted := DeleteRecord(id); }
        todo := todo - {id};
      }
    }

    /** `Deliver`: enqueue the delivery of a challenge of this provider, durably, before it is accepted.
        `Begin` calls it behind the draw of the request id. */
    method Deliver(id: string, destination: string, proof: string, expires: int, now: int) returns (fault: Option<RecoveryError>)
      requires Valid()
      modifies this`disk, this`records, this`ready, this`h
      ensures Valid() && h == old(h).(failed := h.failed)
      ensures h.failed == old(h).failed || (h.failed == old(h).failed - {id} && (id !in old(records) || now >= old(records)[id].expires))
      ensures fault == None ==>
                && id in challenges && challenges[id].verifier == Of(proof) && challenges[id].expires == expires && now < expires
                && id in records && records[id].destination == destination && records[id].proof == proof && records[id].state.Pending?
    {
      if id !in challenges { return Some(DeliveryPermanent); }
      var c := challenges[id];
      if c.expires != expires || c.verifier != Of(proof) || now >= expires { return Some(DeliveryPermanent); }
      var record := Record(id, c.subject, c.verifier, true, expires, c.attempts, Pending, destination, proof, 0, Some(now));
      if !ValidRecord(record) { return Some(DeliveryPermanent); }
      PruneExpired(now);
      if id in records {
        if SameDelivery(records[id], record) { return None; }
        return Some(DeliveryPermanent);
      }
      if |records| >= maxRecords { return Some(DeliveryTransient); }
      var ok := Accept(record);
      fault := if ok then None else Some(DeliveryTransient);
    }

    /** A delivery is written, and what an earlier one for this id came to is over. */
    method Accept(record: Record) returns (ok: bool)
      requires Valid() && record.requestId in h.used && Granted(h, record.requestId) <= record.attempts
      modifies this`disk, this`records, this`h
      ensures Valid() && h == old(h).(failed := old(h).failed - {record.requestId})
      ensures records == if ok then old(records)[record.requestId := record] else old(records)
    {
      AgainIsOk(h, disk, records, challenges, maxAttempts, record.requestId);
      h := h.(failed := h.failed - {record.requestId});
      ok := WriteRecord(record);
      if ok { records := records[record.requestId := record]; }
    }

    /** The first of the drawn ids that no challenge has. */
    method Draw(drawn: seq<string>) returns (id: Option<string>)
      ensures id.Some? ==> id.value in drawn && id.value !in challenges
      ensures id == None ==> forall k :: 0 <= k < |drawn| ==> drawn[k] in challenges
    {
      for k := 0 to |drawn|
        invariant forall i :: 0 <= i < k ==> drawn[i] in challenges
      {
        if drawn[k] !in challenges { return Some(drawn[k]); }
      }
      return None;
    }

    /** The first half of `Begin`, under the lock. The history of an earlier request with the same id ends here. */
    method Reserve(subject: Subject, proof: string, drawn: seq<string>, now: int) returns (id: Option<string>)
      requires Valid()
      modifies this`challenges, this`h
      ensures Valid()
      ensures Picked(Live(old(challenges), now), maxActive, drawn, id)
      ensures h == if id.Some? then Begun(old(h), id.value) else old(h)
      ensures Opened(Live(old(challenges), now), Challenge(subject, Of(proof), false, now + ttl, 0), id, false, challenges)
    {
      challenges := Live(challenges, now);
      if |challenges| >= maxActive { return None; }
      id := Draw(drawn);
      if id.Some? {
        BegunIsOk(h, disk, records, challenges, maxAttempts, id.value);
        h := Begun(h, id.value);
        challenges := challenges[id.value := Challenge(subject, Of(proof), false, now + ttl, 0)];
      }
    }

    /** `Begin` with durable delivery. `drawn` are the request ids the random source yields: at most four, fewer if
        it fails. The challenge authorizes nothing until its delivery is durable. */
    method Begin(subject: Subject, destination: Option<string>, proof: string, drawn: seq<string>, now: int, later: int)
      returns (r: Result<string, RecoveryError>, ghost active: bool)
      requires Valid() && |drawn| <= 4 && now <= later
      modifies this`disk, this`records, this`ready, this`challenges, this`h
      ensures Valid()
      ensures Picked(Live(old(challenges), now), maxActive, drawn, if r.Ok? then Some(r.value) else None)
      ensures h == if r.Ok? then Begun(old(h), r.value) else old(h)
      ensures Opened(Live(old(challenges), now), Challenge(subject, Of(proof), false, now + ttl, 0), if r.Ok? then Some(r.value) else None, active, challenges)
      ensures active ==>
                r.Ok? && destination.Some? && r.value in records && records[r.value].state.Pending? && records[r.value].destination == destination.value
                && records[r.value].proof == proof
    {
      ghost var live := Live(challenges, now);
      var id := Reserve(subject, proof, drawn, now);
      active := false;
      if id == None { return Err(Unavailable), false; }
      r := Ok(id.value);
      if destination.Some? { active := ActivateBehindDelivery(live, id.value, destination.value, proof, later); }
    }

    /** Its second half. */
    method ActivateBehindDelivery(ghost live: map<string, Challenge>, id: string, destination: string, proof: string, later: int) returns (active: bool)
      requires Valid() && id in challenges && !challenges[id].active && id !in h.failed && challenges == live[id := challenges[id]]
      modifies this`disk, this`records, this`ready, this`challenges, this`h
      ensures Valid() && h == old(h) && Opened(live, old(challenges)[id], Some(id), active, challenges)
      ensures active ==> id in records && records[id].state.Pending? && records[id].destination == destination && records[id].proof == proof
    {
      var c := challenges[id];
      var fault := Deliver(id, destination, proof, c.expires, later);
      active := fault == None && later < c.expires;
      if active { challenges := challenges[id := c.(active := true)]; }
    }

    /** `PublishChallenge`: only now may the worker send it. */
    method PublishChallenge(id: string)
      requires Valid()
      modifies this`ready
      ensures Valid() && ready == old(ready) + (if id in records && records[id].state.Pending? then {id} else {})
    {
      if id in records && records[id].state.Pending? { ready := ready + {id}; }
    }

    // ----- the worker -----

    /** The first half of `attempt`, under the lock. */
    method StartAttempt(id: string, now: int) returns (sends: bool)
      requires Valid()
      modifies this`disk, this`records, this`ready, this`challenges
      ensures Valid()
      ensures sends ==>
                && records == old(records) && challenges == old(challenges) && id in records && records[id].state.Pending?
                && now < records[id].expires && (records[id].nextAttempt.Some? ==> records[id].nextAttempt.value <= now)
      ensures records.Keys <= old(records).Keys && forall other :: other in records ==> records[other] == old(records)[other]
    {
      if id !in records || !records[id].state.Pending? { return false; }
      if now >= records[id].expires {
        var deleted := DeleteRecord(id);
        Consume(id);
        return false;
      }
      if records[id].nextAttempt.Some? && records[id].nextAttempt.value > now { return false; }
      return true;
    }

    function Next(r: Record, state: DeliveryState): Record {
      r.(deliveries := r.deliveries + 1, state := state, active := r.active && !state.Failed?, destination := "", proof := "", nextAttempt := None)
    }

    method Update(r: Record) returns (ok: bool)
      requires Valid() && (ValidRecord(r) ==> RecordOk(h, r.requestId, r))
      modifies this`disk, this`records
      ensures Valid()
      ensures ok ==> ValidRecord(r) && records == old(records)[r.requestId := r] && At(disk, r.requestId) == Cell(Some(r), {})
      ensures !ok ==> records == old(records)
    {
      ok := WriteRecord(r);
      if ok { records := records[r.requestId := r]; }
    }

    /** Retry exhausted or refused: not before the failure is durable is the challenge retired. */
    method Fail(id: string)
      requires Valid() && id in records && records[id].state.Pending?
      modifies this`disk, this`records, this`challenges, this`h
      ensures Valid() && h.used == old(h).used && h.granted == old(h).granted
      ensures if id in h.failed
              then h.failed == old(h).failed + {id} && records == old(records)[id := Next(old(records)[id], Failed)]
                   && At(disk, id) == Cell(Some(records[id]), {}) && (id in challenges ==> !challenges[id].active)
              else h == old(h) && records == old(records) && challenges == old(challenges)
    {
      var ok := Update(Next(records[id], Failed));
      if !ok { return; }
      h := h.(failed := h.failed + {id});
      Deactivate(id);
    }

    /** The second half, with what the transport said. The record is read again: it may have gone. A
        delivery counts as failed only once that is durable, and for ever. */
    method FinishAttempt(id: string, expires: int, outcome: Transport, now: int)
      requires Valid()
      modifies this`disk, this`records, this`challenges, this`h
      ensures Valid() && h.used == old(h).used && h.granted == old(h).granted
      ensures records == old(records) ||
              (id in old(records) && old(records)[id].state.Pending? && !outcome.Canceled? && id in records &&
               records == old(records)[id := records[id]] && records[id].deliveries == old(records)[id].deliveries + 1)
      ensures records != old(records) ==> (records[id].state.Delivered? <==> outcome.Accepted?) && (records[id].state.Failed? <==> id in h.failed)
      ensures h.failed != old(h).failed ==>
                && h.failed == old(h).failed + {id} && id in records && At(disk, id) == Cell(Some(records[id]), {})
                && (id in challenges ==> !challenges[id].active)
                && (outcome.Refused? || (outcome.Transient? && (records[id].deliveries >= maxDeliveries || now + retryMax >= expires)))
    {
      if id !in records || !records[id].state.Pending? || outcome.Canceled? { return; }
      if outcome.Accepted? {
        var delivered := Update(Next(records[id], Delivered));
        return;
      }
      var deliveries := records[id].deliveries + 1;
      var delay := RetryDelay(retryMin, retryMax, deliveries);
      if outcome.Refused? || deliveries >= maxDeliveries || now + delay >= expires {
        Fail(id);
        return;
      }
      var later := Update(records[id].(deliveries := deliveries, nextAttempt := Some(now + delay)));
    }

    predicate Due(id: string, now: int)
      reads this
    {
      && id in records && records[id].state.Pending? && id in ready
      && (records[id].nextAttempt.Some? ==> records[id].nextAttempt.value <= now)
    }

    /** Up to one batch of published deliveries that are due. */
    method TakeDue(now: int) returns (due: set<string>)
      ensures |due| <= WORKER_BATCH && forall id :: id in due ==> Due(id, now)
      ensures |due| < WORKER_BATCH ==> forall id :: Due(id, now) ==> id in due
    {
      due := {};
      var todo := records.Keys;
      while todo != {} && |due| < WORKER_BATCH
        invariant todo <= records.Keys && |due| <= WORKER_BATCH
        invariant forall id :: id in due ==> Due(id, now)
        invariant forall id :: Due(id, now) ==> id in due || id in todo
      {
        var id :| id in todo;
        if Due(id, now) { due := due + {id}; }
        todo := todo - {id};
      }
    }

    /** `processDue`: prune, then attempt each delivery of one batch. */
    method ProcessDue(now: int) returns (due: set<string>)
      requires Valid()
      modifies this`disk, this`records, this`ready, this`challenges, this`h
      ensures Valid() && |due| <= WORKER_BATCH && records.Keys <= old(records).Keys
      ensures forall id :: id in due ==> old(Due(id, now))
      ensures forall id :: id in records && id !in due ==> records[id] == old(records)[id]
    {
      PruneExpired(now);
      due := TakeDue(now);
      var left := due;
      while left != {}
        invariant Valid() && left <= due && records.Keys <= old(records).Keys
        invariant forall id :: id in records && id !in due ==> records[id] == old(records)[id]
      {
        var id :| id in left;
        left := left - {id};
        var later: int := *;
        Attempt(id, later);
      }
    }

    /** `attempt`, when nothing comes between its halves. */
    method Attempt(id: string, now: int)
      requires Valid()
      modifies this`disk, this`records, this`ready, this`challenges, this`h
      ensures Valid() && records.Keys <= old(records).Keys
      ensures forall other :: other in records && other != id ==> records[other] == old(records)[other]
    {
      var sends := StartAttempt(id, now);
      if sends {
        var outcome: Transport := *;
        var later: int := *;
        FinishAttempt(id, records[id].expires, outcome, later);
      }
    }

    // ----- restart -----

    /** The process dies, or the power goes (`lost`), and the next one runs `loadAndRestore` over what is left.
        Everything not on disk is forgotten, expired records are removed, every other one gets its challenge back
        with the attempts it had used, and the directory is synced; if there are too many records, or the sync
        fails, the start is refused. */
    method CrashAndRestart(lost: bool, left: map<string, Option<Record>>, now: int) returns (ok: bool)
      requires Valid() && CanLeave(disk, lost, left)
      modifies this
      ensures Valid() && h == old(h)
      ensures ok ==>
                && records == Unexpired(left, now) && challenges == Restored(records, maxAttempts) && ready == PendingOf(records)
                && disk == SyncAll(Pruned(Base(old(disk), lost, left), records))
      ensures !ok ==> records == map[] && challenges == map[] && disk == Pruned(Base(old(disk), lost, left), Unexpired(left, now))
    {
      var live := Unexpired(left, now);
      LeftIsOk(h, disk, lost, left, now);
      RestoredIsOk(h, live, maxAttempts);
      challenges, records, ready, disk := map[], map[], {}, Pruned(Base(disk, lost, left), live);
      var syncFails: bool := *;
      ok := |live| <= maxRecords && |live| <= maxActive && !syncFails;
      if ok {
        challenges, records, ready, disk := Restored(live, maxAttempts), live, PendingOf(live), SyncAll(disk);
      }
    }

    /** Over every run, with the process dying or the power going at any time: no request is granted more than
        `maxAttempts` times; whatever may be left on disk has used up at least as many attempts as it has yielded
        grants; delivered and failed records hold neither proof nor destination; and a failed request stays failed
        until its id is drawn again, or its record has gone and a delivery for it is attempted once more. */
    lemma AlwaysHolds(id: string, r: Record)
      requires Valid()
      ensures Granted(h, id) <= maxAttempts
      ensures At(disk, id).Survives(Some(r)) || (id in records && records[id] == r) ==>
                && Granted(h, id) <= r.attempts
                && (!r.state.Pending? ==> r.proof == "" && r.destination == "")
                && (id in h.failed ==> r.state.Failed? && !r.active)
      ensures id in h.failed ==> !Authorizing(id)
    {
    }
  }
}
