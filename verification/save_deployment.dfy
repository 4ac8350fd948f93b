/** The save pipeline as it is deployed: with the codec of the save journal, the validation of the outbox and
    the canonicalisation of the store. */
module SaveDeployment {
  import opened Outcomes
  import opened Framing
  import opened Journals
  import opened Snapshots
  import opened SaveMachine
  import opened SaveLimits
  import InventoryStates

  /** Some journal record, of whatever schema, decodes to this command. */
  ghost predicate Decodes(c: Catalog, command: Command) {
    exists raw :: DecodeCommand(c, raw).Some? && DecodeCommand(c, raw).value.body == command
  }

  /** `Outbox.Enqueue` validates with V9, `Append` with V13, `Store.Save` canonicalises; a journal found at an
      upgrade holds whatever decodes. */
  ghost function Deployed(c: Catalog, json: Json, produces: Snapshot -> bool, capacity: nat,
                    header: seq<byte>, journalId: seq<byte>, initial: map<string, StoreRecord>): Config {
    Config(SaveCodec(c, json),
           (i: Intent) => Durable(i.identity) && ValidV9(c, i.snapshot) && produces(i.snapshot),
           (command: Command) => Decodes(c, command),
           (s: Snapshot) => if Savable(c, s).Some? then Savable(c, s).value else s,
           capacity, header, journalId, initial)
  }

  lemma DeployedIsSound(c: Catalog, json: Json, produces: Snapshot -> bool, capacity: nat,
                        header: seq<byte>, journalId: seq<byte>, initial: map<string, StoreRecord>)
    requires Faithful(json) && forall id :: id in initial ==> 0 < initial[id].revision
    ensures Sound(Deployed(c, json, produces, capacity, header, journalId, initial))
  {
    SaveCodecIsLawful(c, json);
  }

  /** `Store.Save` refuses nothing the journal accepted, and keeps it as it is exactly when the inventory
      uses neither the old hand fields nor a spelled-out empty list. */
  lemma DeployedStoresExactlyWhen(c: Catalog, json: Json, produces: Snapshot -> bool, capacity: nat,
                                  header: seq<byte>, journalId: seq<byte>, initial: map<string, StoreRecord>, command: Command)
    requires var cfg := Deployed(c, json, produces, capacity, header, journalId, initial);
             cfg.codec.accepts(command)
    ensures var cfg, s := Deployed(c, json, produces, capacity, header, journalId, initial), command.intent.snapshot;
            && Savable(c, s) == Some(cfg.stored(s))
            && (Stable(cfg, s) <==>
                  && !InventoryStates.HasLegacyHands(s.inventory)
                  && s.inventory.equipment != InventoryStates.Null && s.inventory.equipment != InventoryStates.Listed([])
                  && s.inventory.equippedInstances != InventoryStates.Null && s.inventory.equippedInstances != InventoryStates.Listed([]))
  {
    var s := command.intent.snapshot;
    ValidIsSavable(c, s);
    InventoryStates.CanonicalExactlyWhen(s.inventory);
    assert s.(inventory := s.inventory) == s;
  }

  /** Not every intent the outbox takes can be journaled: it can exactly when its inventory is
      initialised and its skin known (and the revision can still grow). Any other waits for good. */
  lemma JournalTakesExactlyWhen(c: Catalog, intent: Intent, expectedRevision: nat)
    requires Durable(intent.identity) && ValidV9(c, intent.snapshot) && intent.intentId != 0
    ensures Acceptable(c, Command(expectedRevision, intent))
            <==> intent.snapshot.inventory.initialized && ValidSkin(c, intent.snapshot.skin) && expectedRevision != MAX_UINT64
  {
    assert ValidSnapshotBase(intent.snapshot);
  }

  // ----- a journal written by an earlier release -----

  /** A record of any earlier schema that still decodes is one the store takes, and one that `Append` would
      take now if its inventory is initialised. */
  lemma DecodedIsTaken(c: Catalog, raw: JournalWire)
    requires Formal(c) && DecodeCommand(c, raw).Some?
    ensures var command := DecodeCommand(c, raw).value.body;
            && ValidV13(c, command.intent.snapshot)
            && (Acceptable(c, command) <==> command.intent.snapshot.inventory.initialized)
  {
    NothingLearned(c);
  }

  /** It is stored as it was journaled exactly when its inventory uses neither the old hand fields nor a
      spelled-out empty list; the schemas that know the hand fields are still decoded. */
  lemma DecodedStoresExactlyWhen(c: Catalog, raw: JournalWire)
    requires Formal(c) && DecodeCommand(c, raw).Some?
    ensures var s := DecodeCommand(c, raw).value.body.intent.snapshot;
            Savable(c, s) == Some(s)
            <==> && !InventoryStates.HasLegacyHands(s.inventory)
                 && s.inventory.equipment != InventoryStates.Null && s.inventory.equipment != InventoryStates.Listed([])
                 && s.inventory.equippedInstances != InventoryStates.Null && s.inventory.equippedInstances != InventoryStates.Listed([])
  {
    var s := DecodeCommand(c, raw).value.body.intent.snapshot;
    DecodedIsTaken(c, raw);
    ValidIsSavable(c, s);
    InventoryStates.CanonicalExactlyWhen(s.inventory);
    assert s.(inventory := s.inventory) == s;
  }

  /** What an upgrade finds: a whole journal, whatever schemas its frames were written in, with nothing in doubt
      and at most its last record open. */
  ghost predicate Found(cfg: Config, s: State) {
    && Sound(cfg) && !s.up && s.stage.Idle? && s.outbox == [] && s.session == []
    && JournalOk(cfg, s.log, s.ends, s.endOffset, s.file) && s.endOffset == |s.file| == s.synced
    && s.saved.Settled() && AllSettled(s.store)
    && (if IsAt(cfg, s.ends, s.saved.visible, |s.ends|) then Shows(cfg, s.log, s.store)
        else s.ends != [] && IsAt(cfg, s.ends, s.saved.visible, |s.ends| - 1)
             && (Shows(cfg, s.log, s.store) || Shows(cfg, Prefix(s.log), s.store)))
  }

  /** A frame of any earlier schema is one the journal may hold; no initialised inventory is asked of it. */
  lemma DecodedIsHeld(c: Catalog, json: Json, produces: Snapshot -> bool, capacity: nat, header: seq<byte>, journalId: seq<byte>,
                      initial: map<string, StoreRecord>, log: seq<Entry<Command>>, raw: JournalWire)
    requires DecodeCommand(c, raw).Some?
    ensures var cfg, e := Deployed(c, json, produces, capacity, header, journalId, initial), DecodeCommand(c, raw).value;
            Extends(cfg, log, e) <==> e.id == |log| + 1 && e.body.expectedRevision == Revision(After(cfg, log, e.body.intent.identity.id))
  {
    assert Decodes(c, DecodeCommand(c, raw).value.body);
  }

  /** Everything proved about runs holds from there. */
  lemma FoundIsFine(cfg: Config, s: State)
    requires Found(cfg, s)
    ensures Inv(cfg, s)
  {
    FileAtRest(cfg, s.log, s.ends, s.endOffset, s.file, s.synced, s.saved, s.store);
    forall id, r | At(s.store, id).Survives(r)
      ensures At(s.store, id).Settled() && r == At(s.store, id).visible
      ensures r == After(cfg, s.log, id) || (s.log != [] && r == After(cfg, Prefix(s.log), id))
    {
    }
  }

  /** If the earlier release had stored its last record but not moved the checkpoint, the upgraded process gets
      past it exactly when its store would write that record as it was journaled. */
  lemma UpgradeWedgesExactlyWhen(cfg: Config, s: State)
    requires Found(cfg, s) && s.log != [] && Shows(cfg, s.log, s.store) && IsAt(cfg, s.ends, s.saved.visible, |s.ends| - 1)
    ensures Wedged(cfg, s) <==> !Stable(cfg, Last(s.log).body.intent.snapshot)
  {
    FoundIsFine(cfg, s);
    WedgedExactlyWhen(cfg, s);
  }

  // ----- inputs that show it -----

  const ORIGIN := Position(Finite(0), Finite(0), Finite(0), 0)
  const IDENTITY := Identity("a", true)
  const EMPTY_HANDED := InventoryStates.EMPTY.(initialized := true)
  const ARMED := EMPTY_HANDED.(mainHand := "sword")
  const NO_SKILLS := Catalog([], {}, {}, {})

  function Sha(): string {
    seq(64, i => '0')
  }

  function Living(inventory: InventoryStates.InventoryState): Snapshot {
    Snapshot(WorldRef("w", "r", Sha()), 1, 1, 1, 1, false, ORIGIN, Finite(0), NO_RESPAWN, inventory, [], [], DEFAULT_PRIMARY, "")
  }

  lemma EmptyHandedIsValid()
    ensures InventoryStates.Validate(EMPTY_HANDED) && !InventoryStates.HasLegacyHands(EMPTY_HANDED)
  {
    HandsRead(EMPTY_HANDED);
  }

  lemma HandsRead(s: InventoryStates.InventoryState)
    requires s.equipment.Missing? && s.equippedInstances.Missing? && s.offHand == "" && s.mainHandInstance == None && s.offHandInstance == None
    ensures InventoryStates.Equipment(s) == Some(if s.mainHand != "" then [InventoryStates.Slotted("main_hand", s.mainHand)] else [])
    ensures InventoryStates.EquippedInstances(s) == Some([])
  {
    var hand := if s.mainHand != "" then [InventoryStates.Slotted("main_hand", s.mainHand)] else [];
    var none: seq<InventoryStates.Slotted<InventoryStates.Instance>> := [];
    assert hand + [] == hand && none + none == none;
  }

  lemma SwordIsTrimmed()
    ensures InventoryStates.Trim("sword") == "sword"
  {
  }

  lemma ArmedIsValid()
    ensures InventoryStates.Validate(ARMED) && InventoryStates.HasLegacyHands(ARMED)
  {
    HandsRead(ARMED);
    SwordIsTrimmed();
    var sword := [InventoryStates.Slotted("main_hand", "sword")];
    assert InventoryStates.Equipment(ARMED) == Some(sword);
    assert InventoryStates.ValidEquipment(sword);
  }

  lemma LivingIsValid(inventory: InventoryStates.InventoryState)
    requires InventoryStates.Validate(inventory) && !InventoryStates.HasItemInstances(inventory)
    ensures ValidV9(NO_SKILLS, Living(inventory)) && ValidV13(NO_SKILLS, Living(inventory))
  {
    NothingLearned(NO_SKILLS);
  }

  // ----- a deployment of one record -----

  /** A codec of text that knows a single record. */
  function OnlyJson(w: JournalWire): Json {
    Json((v: JournalWire) => if v == w then Some([1]) else None, (p: seq<byte>) => if p == [1] then Some(w) else None, (p: seq<byte>) => 0)
  }

  function First(s: Snapshot): Entry<Command> {
    Entry(1, Command(0, Intent(1, IDENTITY, s)))
  }

  /** In front of a store that does not have the character. */
  predicate New(initial: map<string, StoreRecord>) {
    IDENTITY.id !in initial && forall id :: id in initial ==> 0 < initial[id].revision
  }

  ghost function Small(s: Snapshot, initial: map<string, StoreRecord>): Config {
    Deployed(NO_SKILLS, OnlyJson(EncodeCommand(First(s))), (t: Snapshot) => true, 1, [0], [0], initial)
  }

  lemma SmallIsSound(s: Snapshot, initial: map<string, StoreRecord>)
    requires New(initial)
    ensures Sound(Small(s, initial))
  {
    var json := OnlyJson(EncodeCommand(First(s)));
    assert Faithful(json);
    DeployedIsSound(NO_SKILLS, json, (t: Snapshot) => true, 1, [0], [0], initial);
  }

  /** The outbox takes the snapshot, the journal writes it. */
  lemma SmallCanSend(s: Snapshot, initial: map<string, StoreRecord>)
    requires New(initial) && ValidV9(NO_SKILLS, s) && ValidV13(NO_SKILLS, s) && s.inventory.initialized
    ensures var cfg, actions := Small(s, initial), [Restart, SaveMachine.Enqueue(First(s).body.intent)];
            && Runs(cfg, Start(cfg), actions) && PrudentRun(cfg, Start(cfg), actions) && CanSend(cfg, End(cfg, Start(cfg), actions))
            && End(cfg, Start(cfg), actions).outbox == [First(s).body.intent]
  {
    SmallIsSound(s, initial);
    assert ValidTrustedId("a");
    FreshCanSend(Small(s, initial), First(s).body.intent);
  }

  lemma SmallStoresExactlyWhen(s: Snapshot, initial: map<string, StoreRecord>)
    requires ValidV13(NO_SKILLS, s) && s.inventory.initialized && s.inventory.equipment.Missing? && s.inventory.equippedInstances.Missing?
    ensures Stable(Small(s, initial), s) <==> !InventoryStates.HasLegacyHands(s.inventory)
  {
    var json := OnlyJson(EncodeCommand(First(s)));
    assert ValidTrustedId("a");
    DeployedStoresExactlyWhen(NO_SKILLS, json, (t: Snapshot) => true, 1, [0], [0], initial, First(s).body);
  }

  /** From a new journal to one no restart gets past, by one save of a character with an old hand field. */
  lemma WedgeIsReachable(initial: map<string, StoreRecord>) returns (actions: seq<Action>)
    requires New(initial)
    ensures var cfg := Small(Living(ARMED), initial);
            && Runs(cfg, Start(cfg), actions) && PrudentRun(cfg, Start(cfg), actions)
            && var t := End(cfg, Start(cfg), actions);
            && t.up && forall a: Action :: EndsTheProcess(a) && Enabled(cfg, t, a) ==> Wedged(cfg, Step(cfg, t, a))
  {
    var cfg := Small(Living(ARMED), initial);
    ArmedIsValid();
    LivingIsValid(ARMED);
    SmallCanSend(Living(ARMED), initial);
    SmallStoresExactlyWhen(Living(ARMED), initial);
    var before := [Restart, SaveMachine.Enqueue(First(Living(ARMED)).body.intent)];
    var rest := UnstableSnapshotWedges(cfg, End(cfg, Start(cfg), before));
    RunsJoin(cfg, Start(cfg), before, rest);
    actions := before + rest;
  }

  lemma LossFrom(s: Snapshot, initial: map<string, StoreRecord>) returns (actions: seq<Action>)
    requires New(initial) && ValidV9(NO_SKILLS, s) && ValidV13(NO_SKILLS, s) && s.inventory.initialized && Stable(Small(s, initial), s)
    ensures var cfg := Small(s, initial);
            Runs(cfg, Start(cfg), actions) && Flawless(actions) && MayLoseTheSave(cfg, End(cfg, Start(cfg), actions))
  {
    SmallCanSend(s, initial);
    actions := LossBehind(Small(s, initial), First(s).body.intent);
  }

  lemma LossBehind(cfg: Config, i: Intent) returns (actions: seq<Action>)
    requires var before := [Restart, SaveMachine.Enqueue(i)];
             Runs(cfg, Start(cfg), before) && CanSend(cfg, End(cfg, Start(cfg), before)) && End(cfg, Start(cfg), before).outbox == [i]
    requires Stable(cfg, i.snapshot)
    ensures Runs(cfg, Start(cfg), actions) && Flawless(actions) && MayLoseTheSave(cfg, End(cfg, Start(cfg), actions))
  {
    var before := [Restart, SaveMachine.Enqueue(i)];
    var rest := DeathBeforeTheDirectorySync(cfg, End(cfg, Start(cfg), before));
    RunsJoin(cfg, Start(cfg), before, rest);
    FlawlessJoin(before, rest);
    actions := before + rest;
  }

  /** From a new journal to a save a power loss may take back, with no failed call. */
  lemma LossIsReachable(initial: map<string, StoreRecord>) returns (actions: seq<Action>)
    requires New(initial)
    ensures var cfg := Small(Living(EMPTY_HANDED), initial);
            Runs(cfg, Start(cfg), actions) && Flawless(actions) && MayLoseTheSave(cfg, End(cfg, Start(cfg), actions))
  {
    EmptyHandedIsValid();
    LivingIsValid(EMPTY_HANDED);
    SmallStoresExactlyWhen(Living(EMPTY_HANDED), initial);
    actions := LossFrom(Living(EMPTY_HANDED), initial);
  }

  lemma BareIsValid()
    ensures InventoryStates.Validate(InventoryStates.EMPTY) && !InventoryStates.HasItemInstances(InventoryStates.EMPTY)
  {
  }

  /** An intent the outbox takes and the journal never will: its inventory is not initialised. */
  lemma UnjournalableIsReachable(initial: map<string, StoreRecord>)
    requires New(initial)
    ensures var cfg, i := Small(Living(InventoryStates.EMPTY), initial), First(Living(InventoryStates.EMPTY)).body.intent;
            && Runs(cfg, Start(cfg), [Restart, SaveMachine.Enqueue(i)])
            && Waits(cfg, End(cfg, Start(cfg), [Restart, SaveMachine.Enqueue(i)]), i)
  {
    var cfg, i := Small(Living(InventoryStates.EMPTY), initial), First(Living(InventoryStates.EMPTY)).body.intent;
    BareIsValid();
    LivingIsValid(InventoryStates.EMPTY);
    SmallIsSound(Living(InventoryStates.EMPTY), initial);
    assert ValidTrustedId("a");
    StartIsFine(cfg);
    RestartsAsItWas(cfg, Start(cfg));
    RunsOn(cfg, Start(cfg), [], Restart);
    RunsOn(cfg, Start(cfg), [Restart], SaveMachine.Enqueue(i));
    assert [] + [Restart] == [Restart] && [Restart] + [SaveMachine.Enqueue(i)] == [Restart, SaveMachine.Enqueue(i)];
  }

  /** A defeated character of store schema 1: it loads, and cannot be saved. */
  lemma DefeatedRecordCannotBeSaved()
    ensures var s := Living(InventoryStates.EMPTY);
            var w := StoreWire(1, "a", 1, ToBody(s, InventoryStates.EMPTY).(hp := 0, defeated := true, stats := None));
            LoadRecord(NO_SKILLS, "a", w).Some? && Savable(NO_SKILLS, LoadRecord(NO_SKILLS, "a", w).value.snapshot) == None
  {
    var w := StoreWire(1, "a", 1, ToBody(Living(InventoryStates.EMPTY), InventoryStates.EMPTY).(hp := 0, defeated := true, stats := None));
    BareIsValid();
    LivingIsValid(InventoryStates.EMPTY);
    assert Formal(NO_SKILLS);
    assert LoadRecord(NO_SKILLS, "a", w).Some?;
    ResavingKeepsTheSnapshot(NO_SKILLS, "a", w);
  }

  lemma SchemaEightDecodes(s: Snapshot)
    requires ValidV9(NO_SKILLS, s) && s.inventory.initialized && !s.defeated && s.stats == DEFAULT_PRIMARY && s.skin == ""
    ensures DecodeCommand(NO_SKILLS, JournalWire(8, 1, 0, 1, "a", ToBody(s, s.inventory).(stats := None))) == Some(First(s))
  {
    assert ValidTrustedId("a");
  }

  /** A journal record of schema 8 with a hand field: it decodes, and the store writes it differently. */
  lemma OldHandIsDecoded()
    ensures var raw := JournalWire(8, 1, 0, 1, "a", ToBody(Living(ARMED), ARMED).(stats := None));
            && DecodeCommand(NO_SKILLS, raw) == Some(First(Living(ARMED)))
            && Savable(NO_SKILLS, Living(ARMED)) != Some(Living(ARMED))
  {
    ArmedIsValid();
    LivingIsValid(ARMED);
    SchemaEightDecodes(Living(ARMED));
    assert Formal(NO_SKILLS);
    DecodedStoresExactlyWhen(NO_SKILLS, JournalWire(8, 1, 0, 1, "a", ToBody(Living(ARMED), ARMED).(stats := None)));
  }
}
