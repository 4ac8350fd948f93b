/** The durable character snapshot: validation, the store record of schemas 1 to 13, the save-journal
    record of schemas 1 to 12, and the migrations between them. JSON itself stays opaque. */
module Snapshots {
  import opened Outcomes
  import opened Framing
  import opened InventoryStates

  // ----- values -----

  /** A float32, as far as the code looks at it. */
  datatype Float32 = Finite(bits: int) | NotFinite(bits: int)
  datatype Position = Position(x: Float32, y: Float32, z: Float32, layer: nat)
  datatype WorldRef = WorldRef(worldId: string, revision: string, gameplaySha256: string)
  datatype Respawn = Respawn(context: string, spawnPointId: string, spawnClass: string, position: Position,
                             remainingTicks: nat, checkpointId: string)
  datatype Primary = Primary(strength: nat, agility: nat, constitution: nat, intelligence: nat, spirit: nat, charisma: nat)

  const NO_RESPAWN := Respawn("", "", "", Position(Finite(0), Finite(0), Finite(0), 0), 0, "")
  const BASE_PRIMARY: nat := 10
  const DEFAULT_PRIMARY := Primary(10, 10, 10, 10, 10, 10)
  const LEGACY_MAX_MP: nat := 100

  /** `loadout` is the configured prefix of the six slots, `learned` the ids of the learned set. */
  datatype Snapshot = Snapshot(
    world: WorldRef, hp: nat, maxHp: nat, mp: nat, maxMp: nat, defeated: bool, position: Position, yaw: Float32,
    respawn: Respawn, inventory: InventoryState, loadout: seq<string>, learned: seq<string>, stats: Primary, skin: string)

  /** The skill catalog in its order, the skills a loadout may hold, the retired class ids, the skins. */
  datatype Catalog = Catalog(skills: seq<string>, combat: set<string>, classes: set<string>, skins: set<string>)

  const MAX_LEARNED: nat := 20
  const MAX_LOADOUT: nat := 6

  predicate NoDuplicates(ids: seq<string>) {
    forall i, j :: 0 <= i < j < |ids| ==> ids[i] != ids[j]
  }

  predicate Formal(c: Catalog) {
    NoDuplicates(c.skills) && |c.skills| <= MAX_LEARNED && "" !in c.skills
  }

  // ----- learned skills and loadouts -----

  function Filter(ids: seq<string>, keep: seq<string>): (r: seq<string>)
    ensures |r| <= |ids| && (keep == [] ==> r == [])
    ensures forall x :: x in r <==> x in ids && x in keep
  {
    if ids == [] then [] else (if ids[0] in keep then [ids[0]] else []) + Filter(ids[1..], keep)
  }

  /** `learnedskills.NewSet`: no unknown and no repeated id; the result is in catalog order. */
  function NewLearned(c: Catalog, ids: seq<string>): Option<seq<string>> {
    if |ids| > MAX_LEARNED || !NoDuplicates(ids) || exists x :: x in ids && x !in c.skills then None else
      var set_ := Filter(c.skills, ids);
      if |set_| != |ids| then None else Some(set_)
  }

  predicate ValidLearned(c: Catalog, learned: seq<string>) {
    NewLearned(c, learned) == Some(learned)
  }

  predicate ValidLoadout(c: Catalog, ids: seq<string>) {
    |ids| <= MAX_LOADOUT && NoDuplicates(ids) && forall x :: x in ids ==> x in c.skills && x in c.combat
  }

  predicate LoadoutLearned(loadout: seq<string>, learned: seq<string>) {
    forall x :: x in loadout ==> x in learned
  }

  lemma {:induction false} FilterAgrees(ids: seq<string>, a: seq<string>, b: seq<string>)
    requires forall x :: x in ids ==> (x in a <==> x in b)
    ensures Filter(ids, a) == Filter(ids, b)
  {
    if ids != [] {
      FilterAgrees(ids[1..], a, b);
    }
  }

  lemma {:induction false} FilterNoDuplicates(ids: seq<string>, keep: seq<string>)
    requires NoDuplicates(ids)
    ensures NoDuplicates(Filter(ids, keep))
  {
    if ids != [] {
      assert NoDuplicates(ids[1..]);
      FilterNoDuplicates(ids[1..], keep);
      assert ids[0] !in ids[1..];
    }
  }

  /** A learned set the constructor returns is canonical and holds exactly the requested ids. */
  lemma NewLearnedIsCanonical(c: Catalog, ids: seq<string>)
    requires Formal(c) && NewLearned(c, ids).Some?
    ensures var learned := NewLearned(c, ids).value;
            ValidLearned(c, learned) && (forall x :: x in learned <==> x in ids)
  {
    var learned := NewLearned(c, ids).value;
    FilterNoDuplicates(c.skills, ids);
    FilterAgrees(c.skills, ids, learned);
  }

  // ----- snapshot validation -----

  predicate FinitePosition(p: Position) {
    p.x.Finite? && p.y.Finite? && p.z.Finite?
  }

  predicate ValidSha256(v: string) {
    |v| == 64 && forall i :: 0 <= i < 64 ==> '0' <= v[i] <= '9' || 'a' <= v[i] <= 'f'
  }

  predicate ValidBase(p: Primary) {
    && p.strength >= BASE_PRIMARY && p.agility >= BASE_PRIMARY && p.constitution >= BASE_PRIMARY
    && p.intelligence >= BASE_PRIMARY && p.spirit >= BASE_PRIMARY && p.charisma >= BASE_PRIMARY
  }

  predicate ValidSkin(c: Catalog, skin: string) {
    skin == "" || skin in c.skins
  }

  predicate ValidSnapshotBase(s: Snapshot) {
    && s.world.worldId != "" && s.world.revision != "" && ValidSha256(s.world.gameplaySha256)
    && s.maxHp != 0 && s.hp <= s.maxHp && (s.defeated <==> s.hp == 0)
    && FinitePosition(s.position) && s.yaw.Finite?
    && ValidBase(s.stats)
  }

  predicate ValidRespawn(s: Snapshot) {
    if s.defeated then
      && s.respawn.context in {"pve", "pvp", "siege"} && s.respawn.spawnPointId != ""
      && s.respawn.spawnClass in {"safe", "checkpoint", "siege"} && FinitePosition(s.respawn.position)
    else s.respawn == NO_RESPAWN
  }

  predicate ValidV3(s: Snapshot) {
    ValidSnapshotBase(s) && ValidRespawn(s) && s.maxMp != 0 && s.mp <= s.maxMp
  }

  predicate ValidV5(s: Snapshot) {
    ValidV3(s) && Validate(s.inventory)
  }

  predicate ValidV8(c: Catalog, s: Snapshot) {
    ValidV5(s) && ValidLoadout(c, s.loadout) && ValidLearned(c, s.learned) && LoadoutLearned(s.loadout, s.learned)
  }

  /** `validateSnapshotV9`, which the save outbox uses. */
  predicate ValidV9(c: Catalog, s: Snapshot) {
    !HasItemInstances(s.inventory) && ValidV8(c, s)
  }

  /** `validateSnapshotV13`, which the store and the journal use. */
  predicate ValidV13(c: Catalog, s: Snapshot) {
    ValidSkin(c, s.skin) && ValidBase(s.stats) && ValidV8(c, s)
  }

  // ----- what both wire formats carry -----

  datatype WireStats = WireStats(strength: nat, agility: nat, constitution: Option<nat>, intelligence: Option<nat>,
                                 spirit: Option<nat>, charisma: Option<nat>)

  datatype Body = Body(
    world: WorldRef, classId: string, skin: string, hp: nat, maxHp: nat, mp: nat, maxMp: nat, defeated: bool,
    position: Position, yaw: Float32, respawn: Option<Respawn>, inventory: InventoryState,
    loadout: seq<string>, learned: seq<string>, stats: Option<WireStats>)

  predicate HasSix(w: WireStats) {
    w.constitution.Some? && w.intelligence.Some? && w.spirit.Some? && w.charisma.Some?
  }

  function StatsToWire(p: Primary): WireStats {
    WireStats(p.strength, p.agility, Some(p.constitution), Some(p.intelligence), Some(p.spirit), Some(p.charisma))
  }

  function LegacyStat(v: nat): Option<nat> {
    if v == 0 then Some(BASE_PRIMARY) else if v < BASE_PRIMARY then None else Some(v)
  }

  /** `primaryStatsFromWire`: nothing before schema 11, two attributes in it, six behind it. */
  function StatsFromWire(schema: nat, w: Option<WireStats>): (r: Option<Primary>)
    ensures r.Some? ==> ValidBase(r.value)
  {
    if schema < 11 then Some(DEFAULT_PRIMARY)
    else if w == None then None
    else if schema == 11 then
      if HasSix(w.value) then None else
        match (LegacyStat(w.value.strength), LegacyStat(w.value.agility))
        case (Some(s), Some(a)) => Some(DEFAULT_PRIMARY.(strength := s, agility := a))
        case _ => None
    else if !HasSix(w.value) then None else
      var p := Primary(w.value.strength, w.value.agility, w.value.constitution.value, w.value.intelligence.value,
                       w.value.spirit.value, w.value.charisma.value);
      if ValidBase(p) then Some(p) else None
  }

  /** How both encoders lay out a snapshot; only the store canonicalises the inventory first. */
  function ToBody(s: Snapshot, inventory: InventoryState): Body {
    Body(s.world, "", s.skin, s.hp, s.maxHp, s.mp, s.maxMp, s.defeated, s.position, s.yaw,
         if s.defeated then Some(s.respawn) else None, inventory, s.loadout, s.learned, Some(StatsToWire(s.stats)))
  }

  function FromBody(b: Body, mp: nat, maxMp: nat, inventory: InventoryState, loadout: seq<string>, learned: seq<string>,
                    stats: Primary, skin: string): Snapshot {
    Snapshot(b.world, b.hp, b.maxHp, mp, maxMp, b.defeated, b.position, b.yaw,
             if b.respawn.Some? then b.respawn.value else NO_RESPAWN, inventory, loadout, learned, stats, skin)
  }

  // ----- the store record -----

  datatype StoreWire = StoreWire(schema: nat, characterId: string, revision: nat, body: Body)
  datatype StoreRecord = StoreRecord(revision: nat, snapshot: Snapshot)

  const STORE_SCHEMA: nat := 13

  /** The checks that fields appear only in the schemas that know them. */
  predicate StoreFieldsAllowed(c: Catalog, w: StoreWire) {
    var b := w.body;
    && (w.schema == 1 ==> b.respawn == None)
    && (w.schema < 4 ==> b.inventory == EMPTY)
    && (w.schema == 4 ==> b.inventory.offHand == "")
    && (w.schema < 10 ==> !HasItemInstances(b.inventory))
    && (w.schema < 6 || w.schema >= 9 ==> b.classId == "")
    && (w.schema < 13 ==> b.skin == "")
    && (w.schema < 7 ==> b.loadout == [])
    && (w.schema < 8 ==> b.learned == [])
    && (w.schema < 11 <==> b.stats == None)
    && (w.schema == 11 ==> !HasSix(b.stats.value))
    && (w.schema >= 12 ==> HasSix(b.stats.value))
    && (b.classId != "" ==> b.classId in c.classes)
  }

  function StoredInventory(w: StoreWire): Option<InventoryState> {
    if w.schema >= 4 then Canonical(w.body.inventory) else Some(EMPTY)
  }

  function StoredLoadout(c: Catalog, w: StoreWire): Option<seq<string>> {
    if w.schema < 7 then Some([]) else if ValidLoadout(c, w.body.loadout) then Some(w.body.loadout) else None
  }

  /** A record that knows loadouts but no learned skills has learned exactly what it configured. */
  function StoredLearned(c: Catalog, w: StoreWire): Option<seq<string>> {
    if w.schema >= 8 then NewLearned(c, w.body.learned)
    else if w.schema == 7 then NewLearned(c, w.body.loadout)
    else Some([])
  }

  predicate LoadChecks(c: Catalog, schema: nat, s: Snapshot) {
    && ValidSnapshotBase(s)
    && (schema >= 2 ==> ValidRespawn(s))
    && (schema >= 3 ==> s.maxMp != 0 && s.mp <= s.maxMp)
    && (schema >= 4 ==> Validate(s.inventory))
    && (schema >= 7 ==> ValidLoadout(c, s.loadout))
    && (schema >= 8 ==> ValidLearned(c, s.learned) && LoadoutLearned(s.loadout, s.learned))
  }

  /** `loadLocked` behind the JSON decoder. `None` is a corrupt record. */
  function LoadRecord(c: Catalog, id: string, w: StoreWire): Option<StoreRecord> {
    if w.schema < 1 || w.schema > STORE_SCHEMA || w.characterId != id || w.revision == 0 || !StoreFieldsAllowed(c, w) then None else
      match (StoredInventory(w), StoredLoadout(c, w), StoredLearned(c, w), StatsFromWire(w.schema, w.body.stats))
      case (Some(inventory), Some(loadout), Some(learned), Some(stats)) =>
        if w.schema >= 13 && !ValidSkin(c, w.body.skin) then None else
          var old_ := w.schema < 3;
          var s := FromBody(w.body, if old_ then LEGACY_MAX_MP else w.body.mp, if old_ then LEGACY_MAX_MP else w.body.maxMp,
                            inventory, loadout, learned, stats, w.body.skin);
          if LoadChecks(c, w.schema, s) then Some(StoreRecord(w.revision, s)) else None
      case _ => None
  }

  /** The snapshot `Save` stores, or `None` if it refuses. */
  function Savable(c: Catalog, s: Snapshot): Option<Snapshot> {
    match Canonical(s.inventory)
    case None => None
    case Some(inventory) => if ValidV13(c, s.(inventory := inventory)) then Some(s.(inventory := inventory)) else None
  }

  /** `writeLocked`, which canonicalises once more. */
  function WriteRecord(id: string, r: StoreRecord): Option<StoreWire> {
    match Canonical(r.snapshot.inventory)
    case None => None
    case Some(inventory) => Some(StoreWire(STORE_SCHEMA, id, r.revision, ToBody(r.snapshot, inventory)))
  }

  /** What `Save` accepts, writing and loading bring back. */
  lemma SavedRecordLoads(c: Catalog, id: string, revision: nat, s: Snapshot)
    requires 0 < revision && Savable(c, s).Some?
    ensures var stored := StoreRecord(revision, Savable(c, s).value);
            WriteRecord(id, stored).Some? && LoadRecord(c, id, WriteRecord(id, stored).value) == Some(stored)
  {
    var t := Savable(c, s).value;
    assert Canonical(t.inventory) == Some(t.inventory) by { CanonicalIsIdempotent(s.inventory); }
    CurrentRecordLoads(c, id, StoreRecord(revision, t));
  }

  lemma CurrentRecordLoads(c: Catalog, id: string, r: StoreRecord)
    requires 0 < r.revision && ValidV13(c, r.snapshot) && Canonical(r.snapshot.inventory) == Some(r.snapshot.inventory)
    ensures WriteRecord(id, r).Some? && LoadRecord(c, id, WriteRecord(id, r).value) == Some(r)
  {
    var w, s := WriteRecord(id, r).value, r.snapshot;
    assert StoreFieldsAllowed(c, w);
    assert StoredInventory(w) == Some(s.inventory) && StoredLoadout(c, w) == Some(s.loadout) && StoredLearned(c, w) == Some(s.learned);
    assert StatsFromWire(w.schema, w.body.stats) == Some(s.stats);
    assert FromBody(w.body, s.mp, s.maxMp, s.inventory, s.loadout, s.learned, s.stats, s.skin) == s;
    assert LoadChecks(c, w.schema, s);
  }

  lemma OtherInventory(c: Catalog, s: Snapshot, inventory: InventoryState)
    requires ValidV13(c, s) && Validate(inventory)
    ensures ValidV13(c, s.(inventory := inventory))
  {
  }

  /** V13 validity survives canonicalisation, so `Save` refuses no valid snapshot. */
  lemma ValidIsSavable(c: Catalog, s: Snapshot)
    requires ValidV13(c, s)
    ensures Savable(c, s).Some? && Savable(c, s).value == s.(inventory := Canonical(s.inventory).value)
  {
    assert Canonical(s.inventory) == Some(Normalised(s.inventory)) by { CanonicalOfValid(s.inventory); }
    assert Validate(Normalised(s.inventory)) by { NormalisedIsValid(s.inventory); }
    OtherInventory(c, s, Normalised(s.inventory));
  }

  lemma StoredInventoryIsCanonical(w: StoreWire)
    requires StoredInventory(w).Some?
    ensures var inventory := StoredInventory(w).value; Validate(inventory) && Canonical(inventory) == Some(inventory)
  {
    if w.schema >= 4 {
      CanonicalIsIdempotent(w.body.inventory);
    }
  }

  lemma NothingLearned(c: Catalog)
    ensures ValidLearned(c, []) && ValidLoadout(c, []) && LoadoutLearned([], [])
  {
    assert Filter(c.skills, []) == [];
  }

  lemma StoredSkillsAreValid(c: Catalog, w: StoreWire)
    requires Formal(c) && StoredLoadout(c, w).Some? && StoredLearned(c, w).Some?
    ensures var loadout, learned := StoredLoadout(c, w).value, StoredLearned(c, w).value;
            ValidLoadout(c, loadout) && ValidLearned(c, learned) && (w.schema < 8 ==> LoadoutLearned(loadout, learned))
  {
    if w.schema >= 8 {
      NewLearnedIsCanonical(c, w.body.learned);
      NothingLearned(c);
    } else if w.schema == 7 {
      NewLearnedIsCanonical(c, w.body.loadout);
    } else {
      NothingLearned(c);
    }
  }

  /** Migration repairs everything but the respawn binding schema 1 never had. */
  lemma LoadedIsValid(c: Catalog, id: string, w: StoreWire)
    requires Formal(c) && LoadRecord(c, id, w).Some?
    ensures var s := LoadRecord(c, id, w).value.snapshot;
            && Canonical(s.inventory) == Some(s.inventory)
            && (w.schema == 1 ==> s.respawn == NO_RESPAWN)
            && (ValidV13(c, s) <==> ValidRespawn(s))
            && (w.schema >= 2 ==> ValidRespawn(s))
  {
    StoredInventoryIsCanonical(w);
    StoredSkillsAreValid(c, w);
  }

  /** Migration: whatever schema a record was loaded from, re-saving it at the current schema is
      accepted and loads the same snapshot again, except for a defeated record of schema 1, which has
      no respawn binding to save. */
  lemma ResavingKeepsTheSnapshot(c: Catalog, id: string, w: StoreWire)
    requires Formal(c) && LoadRecord(c, id, w).Some?
    ensures var loaded := LoadRecord(c, id, w).value;
            && (Savable(c, loaded.snapshot) == Some(loaded.snapshot) <==> !(w.schema == 1 && loaded.snapshot.defeated))
            && (w.schema == 1 && loaded.snapshot.defeated ==> Savable(c, loaded.snapshot) == None)
            && (Savable(c, loaded.snapshot).Some? ==>
                  && WriteRecord(id, loaded).Some?
                  && LoadRecord(c, id, WriteRecord(id, loaded).value) == Some(loaded))
  {
    LoadedIsValid(c, id, w);
    var loaded := LoadRecord(c, id, w).value;
    var s := loaded.snapshot;
    assert s.(inventory := s.inventory) == s;
    if Savable(c, s).Some? {
      SavedRecordLoads(c, id, loaded.revision, s);
    }
  }

  // ----- the journal record -----

  /** The identity of an intent; only trusted, well-formed identities are durable. */
  datatype Identity = Identity(id: string, trusted: bool)
  datatype Intent = Intent(intentId: nat, identity: Identity, snapshot: Snapshot)

  /** What a journal record stores: the intent and the store revision it was taken against. */
  datatype Command = Command(expectedRevision: nat, intent: Intent)

  datatype JournalWire = JournalWire(schema: nat, recordId: nat, expectedRevision: nat, intentId: nat, characterId: string, body: Body)

  const JOURNAL_SCHEMA: nat := 12
  const EPHEMERAL_PREFIX := "ephemeral:"

  predicate ValidTrustedId(id: string) {
    && 0 < |id| <= 128
    && (forall i :: 0 <= i < |id| ==>
          'a' <= id[i] <= 'z' || 'A' <= id[i] <= 'Z' || '0' <= id[i] <= '9' || id[i] in {'.', '_', ':', '-'})
    && !(EPHEMERAL_PREFIX <= id)
  }

  predicate Durable(i: Identity) {
    i.trusted && ValidTrustedId(i.id)
  }

  /** What `Append` checks before it takes its lock. */
  predicate Acceptable(c: Catalog, command: Command) {
    && command.intent.intentId != 0
    && Durable(command.intent.identity)
    && command.intent.snapshot.inventory.initialized
    && ValidV13(c, command.intent.snapshot)
    && command.expectedRevision != MAX_UINT64
  }

  function EncodeCommand(e: Entry<Command>): JournalWire {
    JournalWire(JOURNAL_SCHEMA, e.id, e.body.expectedRevision, e.body.intent.intentId, e.body.intent.identity.id,
                ToBody(e.body.intent.snapshot, e.body.intent.snapshot.inventory))
  }

  /** The schema guards of `UnmarshalJSON`, and its rewriting of loadout-only records. */
  function Unmarshal(w: JournalWire): Option<JournalWire> {
    var b := w.body;
    if && (w.schema < 5 || w.schema >= 8 ==> b.classId == "")
       && (w.schema < 12 ==> b.skin == "")
       && (w.schema < 6 ==> b.loadout == [])
       && (w.schema < 7 ==> b.learned == [])
       && (w.schema < 9 ==> !HasItemInstances(b.inventory))
       && (w.schema < 10 <==> b.stats == None)
       && (w.schema == 10 ==> !HasSix(b.stats.value))
       && (w.schema >= 11 ==> HasSix(b.stats.value))
    then Some(if w.schema == 6 then w.(schema := 7, body := b.(learned := b.loadout)) else w)
    else None
  }

  /** `saveJournalWireToSnapshot`. */
  function JournalSnapshot(c: Catalog, schema: nat, b: Body): Option<Snapshot> {
    var learned := if schema >= 7 then NewLearned(c, b.learned) else Some([]);
    var stats := StatsFromWire(if schema < 10 then 10 else if schema == 10 then 11 else if schema < 12 then 12 else 13, b.stats);
    if || (b.classId != "" && (schema < 5 || schema >= 8 || b.classId !in c.classes))
       || (schema < 12 && b.skin != "")
       || (schema < 9 && HasItemInstances(b.inventory))
       || (schema < 10 && b.stats.Some?) || (schema >= 10 && b.stats == None)
       || (schema == 10 && HasSix(b.stats.value)) || (schema >= 11 && !HasSix(b.stats.value))
       || (schema >= 6 && !ValidLoadout(c, b.loadout))
       || learned == None || stats == None
       || (schema >= 12 && !ValidSkin(c, b.skin))
    then None
    else Some(FromBody(b, if schema == 1 then LEGACY_MAX_MP else b.mp, if schema == 1 then LEGACY_MAX_MP else b.maxMp,
                       if schema >= 3 then b.inventory else EMPTY, if schema >= 6 then b.loadout else [],
                       learned.value, stats.value, if schema >= 12 then b.skin else ""))
  }

  /** `validateDecodedSaveIntent`. */
  predicate ValidDecoded(c: Catalog, schema: nat, i: Intent) {
    var s := i.snapshot;
    && i.intentId != 0 && Durable(i.identity)
    && (schema < 9 ==> !HasItemInstances(s.inventory))
    && ValidV5(s)
    && (schema < 3 ==> s.inventory == EMPTY)
    && (schema >= 3 ==> s.inventory.initialized)
    && (schema == 3 ==> s.inventory.offHand == "")
    && (schema < 6 ==> s.loadout == [])
    && (schema < 7 ==> s.learned == [])
    && (schema == 6 ==> ValidLoadout(c, s.loadout))
    && (schema >= 7 ==> ValidV8(c, s))
    && (schema == 8 ==> ValidV9(c, s))
    && (schema >= 11 ==> ValidBase(s.stats))
    && (schema >= 12 ==> ValidV13(c, s))
  }

  /** `decodeSaveJournalRecord` behind the JSON parser. */
  function DecodeCommand(c: Catalog, raw: JournalWire): (r: Option<Entry<Command>>)
    ensures r.Some? ==> 0 < r.value.id <= MAX_UINT64
  {
    match Unmarshal(raw)
    case None => None
    case Some(w) =>
      if w.schema < 1 || w.schema > JOURNAL_SCHEMA || w.recordId == 0 || w.recordId > MAX_UINT64 || w.intentId == 0
         || w.expectedRevision >= MAX_UINT64 || !ValidTrustedId(w.characterId) then None
      else match JournalSnapshot(c, w.schema, w.body)
        case None => None
        case Some(s) =>
          var intent := Intent(w.intentId, Identity(w.characterId, true), s);
          if ValidDecoded(c, w.schema, intent) then Some(Entry(w.recordId, Command(w.expectedRevision, intent))) else None
  }

  /** Whatever `Append` accepts, the decoder reads back, command and snapshot alike. */
  lemma CommandRoundTrip(c: Catalog, e: Entry<Command>)
    requires Acceptable(c, e.body) && 0 < e.id <= MAX_UINT64 && e.body.expectedRevision < MAX_UINT64
    ensures DecodeCommand(c, EncodeCommand(e)) == Some(e)
  {
  }

  /** Both files know one loadout-only schema. Both migrations grant exactly the configured skills, so
      a character comes out of the store and out of the journal with the same learned set. */
  lemma LoadoutMigrationsAgree(c: Catalog, id: string, stored: StoreWire, journaled: JournalWire)
    requires Formal(c) && stored.schema == 7 && journaled.schema == 6 && stored.body.loadout == journaled.body.loadout
    requires LoadRecord(c, id, stored).Some? && DecodeCommand(c, journaled).Some?
    ensures var s, j := LoadRecord(c, id, stored).value.snapshot, DecodeCommand(c, journaled).value.body.intent.snapshot;
            && s.learned == j.learned && s.loadout == j.loadout
            && (forall x :: x in s.learned <==> x in s.loadout)
  {
    NewLearnedIsCanonical(c, stored.body.loadout);
  }

  // ----- the codec of the save journal -----

  /** The JSON encoder and parser of journal records, and the frame checksum. */
  datatype Json = Json(text: JournalWire -> Option<seq<byte>>, parse: seq<byte> -> Option<JournalWire>, checksum: seq<byte> -> nat)

  ghost predicate Faithful(json: Json) {
    && (forall w: JournalWire :: json.text(w).Some? ==> json.parse(json.text(w).value) == Some(w))
    && (forall p: seq<byte> :: json.checksum(p) <= MAX_UINT32)
  }

  function SaveCodec(c: Catalog, json: Json): Codec<Command> {
    Codec(command => Acceptable(c, command) && command.expectedRevision <= MAX_UINT64,
          (e: Entry<Command>) => if e.id <= MAX_UINT64 then json.text(EncodeCommand(e)) else None,
          p => match json.parse(p) case None => None case Some(w) => DecodeCommand(c, w),
          json.checksum)
  }

  /** The save journal's codec meets the assumption the journal is built on. */
  lemma SaveCodecIsLawful(c: Catalog, json: Json)
    requires Faithful(json)
    ensures Lawful(SaveCodec(c, json))
  {
    var codec := SaveCodec(c, json);
    forall e: Entry<Command> | codec.accepts(e.body) && 0 < e.id && codec.encode(e).Some?
      ensures codec.decode(codec.encode(e).value) == Some(e)
    {
      CommandRoundTrip(c, e);
    }
    forall p: seq<byte> | codec.decode(p).Some?
      ensures codec.decode(p).value.id <= MAX_UINT64
    {
      assert codec.decode(p) == DecodeCommand(c, json.parse(p).value);
    }
  }
}
