/** The death of the process alone: the disk keeps everything, synced or not. Without a power loss the
    pipeline needs no prudence at all. */
module SaveProcessDeaths {
  import opened Outcomes
  import opened Framing
  import opened Journals
  import opened Snapshots
  import opened SaveMachine

  /** The state as if everything had been synced. */
  function Settle(s: State): State {
    s.(saved := s.saved.Sync(), store := SyncAll(s.store), synced := if s.up then s.endOffset else |s.file|)
  }

  predicate NoPowerLoss(actions: seq<Action>) {
    forall a :: a in actions ==> !a.Crash?
  }

  lemma SettleKeeps(cfg: Config, s: State)
    requires Inv(cfg, s)
    ensures Inv(cfg, Settle(s))
  {
    var t := Settle(s);
    DiskSettled(cfg, s.log, s.ends, s.saved, s.store);
    FileSettled(cfg, s);
    if s.up {
      MemorySettled(cfg, s);
    }
  }

  lemma FileSettled(cfg: Config, s: State)
    requires Inv(cfg, s)
    ensures FileOk(cfg, s.log, s.ends, s.endOffset, s.file, Settle(s).synced, s.saved.Sync(), SyncAll(s.store))
  {
  }

  lemma ShownSettled(cfg: Config, log: seq<Entry<Command>>, store: Store)
    ensures Shows(cfg, log, SyncAll(store)) <==> Shows(cfg, log, store)
  {
    forall id ensures At(SyncAll(store), id).visible == At(store, id).visible {
    }
  }

  lemma MemorySettled(cfg: Config, s: State)
    requires Inv(cfg, s) && s.up
    ensures MemoryOk(cfg, Settle(s)) && SessionOk(Settle(s))
  {
    var t := Settle(s);
    ShownSettled(cfg, s.log, s.store);
    ShownSettled(cfg, s.log[..s.checkpoint.recordId], s.store);
    if s.outbox != [] {
      assert At(t.store, s.outbox[0].identity.id).visible == At(s.store, s.outbox[0].identity.id).visible;
      assert NextEntry(t) == NextEntry(s);
    }
    assert View(cfg, t) == View(cfg, s) && t.saved.visible == s.saved.visible;
    assert StageOk(cfg, t);
  }

  lemma DiskSettled(cfg: Config, log: seq<Entry<Command>>, ends: seq<nat>, saved: Cell<Option<Checkpoint>>, store: Store)
    requires DiskOk(cfg, log, ends, saved, store)
    ensures DiskOk(cfg, log, ends, saved.Sync(), SyncAll(store))
  {
    assert saved.Survives(saved.visible);
    forall id ensures At(store, id).Survives(At(SyncAll(store), id).visible) {
    }
  }

  lemma RenamedTheSame(store: Store, id: string, r: Option<StoreRecord>)
    ensures SyncAll(SyncAll(store)[id := At(SyncAll(store), id).Rename(r)]) == SyncAll(store[id := At(store, id).Rename(r)])
    ensures SyncAll(SyncAll(store)) == SyncAll(store)
  {
  }

  lemma SettledRename(cfg: Config, s: State)
    ensures Enabled(cfg, s, StoreRename) <==> Enabled(cfg, Settle(s), StoreRename)
    ensures Enabled(cfg, s, StoreRename) ==>
              Prudent(Settle(s), StoreRename) && Settle(Step(cfg, Settle(s), StoreRename)) == Settle(Step(cfg, s, StoreRename))
  {
    if Enabled(cfg, s, StoreRename) {
      var i := Current(s).body.intent;
      RenamedTheSame(s.store, i.identity.id, Some(StoreRecord(Current(s).body.expectedRevision + 1, cfg.stored(i.snapshot))));
    }
  }

  /** No step but a power loss can tell the difference. */
  lemma SettledStep(cfg: Config, s: State, a: Action)
    requires !a.Crash?
    ensures Enabled(cfg, s, a) <==> Enabled(cfg, Settle(s), a)
    ensures Enabled(cfg, s, a) ==> Prudent(Settle(s), a) && Settle(Step(cfg, Settle(s), a)) == Settle(Step(cfg, s, a))
  {
    if a.StoreRename? {
      SettledRename(cfg, s);
    } else {
      RenamedTheSame(s.store, "", None);
    }
  }

  lemma AliveStepKeeps(cfg: Config, s: State, a: Action)
    requires Inv(cfg, Settle(s)) && Enabled(cfg, s, a) && !a.Crash?
    ensures Inv(cfg, Settle(Step(cfg, s, a)))
  {
    SettledStep(cfg, s, a);
    StepKeeps(cfg, Settle(s), a);
    SettleKeeps(cfg, Step(cfg, Settle(s), a));
  }

  /** What is visible keeps the invariant over every run without a power loss, whatever call fails and
      wherever processes die. */
  lemma {:induction false} AliveRunKeeps(cfg: Config, s: State, actions: seq<Action>)
    requires Inv(cfg, Settle(s)) && Runs(cfg, s, actions) && NoPowerLoss(actions)
    ensures Inv(cfg, Settle(End(cfg, s, actions)))
    decreases |actions|
  {
    if actions != [] {
      AliveStepKeeps(cfg, s, actions[0]);
      AliveRunKeeps(cfg, Step(cfg, s, actions[0]), actions[1..]);
    }
  }

  /** Exactly-once replay without a power loss, with no further condition: once checkpoint and journal agree
      each character's record is its initial one moved on by exactly its journal records, at any time it is
      that or that without the last record, no intent is lost, and replay meets no conflict. */
  lemma ExactlyOnceWithoutPowerLoss(cfg: Config, actions: seq<Action>)
    requires Sound(cfg) && Runs(cfg, Start(cfg), actions) && NoPowerLoss(actions)
    ensures var s := End(cfg, Start(cfg), actions);
            && (s.up && CaughtUp(s) ==> forall id :: At(s.store, id).visible == Moved(cfg, id, Mine(s.log, id)))
            && (forall id :: At(s.store, id).visible == Moved(cfg, id, Mine(s.log, id))
                             || (s.log != [] && At(s.store, id).visible == Moved(cfg, id, Mine(Prefix(s.log), id))))
            && (s.up && !s.stage.Journaled? ==> s.booted <= |s.log| && s.session == Intents(s.log[s.booted..]) + s.outbox)
            && (s.up && Canonical(cfg) ==> !Conflict(s))
  {
    StartIsFine(cfg);
    SettleKeeps(cfg, Start(cfg));
    AliveRunKeeps(cfg, Start(cfg), actions);
    VisiblyExact(cfg, End(cfg, Start(cfg), actions));
  }

  lemma VisiblyExact(cfg: Config, s: State)
    requires Inv(cfg, Settle(s))
    ensures s.up && CaughtUp(s) ==> forall id :: At(s.store, id).visible == Moved(cfg, id, Mine(s.log, id))
    ensures forall id :: At(s.store, id).visible == Moved(cfg, id, Mine(s.log, id))
                         || (s.log != [] && At(s.store, id).visible == Moved(cfg, id, Mine(Prefix(s.log), id)))
    ensures s.up && !s.stage.Journaled? ==> s.booted <= |s.log| && s.session == Intents(s.log[s.booted..]) + s.outbox
    ensures s.up && Canonical(cfg) ==> !Conflict(s)
  {
    var t := Settle(s);
    if s.up && HasCurrent(s) {
      ConflictExactlyWhen(cfg, t);
      assert Holds(t) == Holds(s);
    }
    if s.up && CaughtUp(s) {
      QuietMeansStored(cfg, t);
    }
    forall id
      ensures At(s.store, id).visible == At(t.store, id).visible && At(t.store, id).Survives(At(s.store, id).visible)
      ensures After(cfg, s.log, id) == Moved(cfg, id, Mine(s.log, id))
      ensures s.log != [] ==> After(cfg, Prefix(s.log), id) == Moved(cfg, id, Mine(Prefix(s.log), id))
    {
      AfterIsMoved(cfg, s.log, id);
      if s.log != [] { AfterIsMoved(cfg, Prefix(s.log), id); }
    }
  }

  /** Two states that differ in what is synced go through the same runs. */
  lemma {:induction false} SameRuns(cfg: Config, s: State, t: State, actions: seq<Action>)
    requires Settle(s) == Settle(t) && Runs(cfg, t, actions) && NoPowerLoss(actions)
    ensures Runs(cfg, s, actions) && Settle(End(cfg, s, actions)) == Settle(End(cfg, t, actions))
    decreases |actions|
  {
    if actions != [] {
      SettledStep(cfg, s, actions[0]);
      SettledStep(cfg, t, actions[0]);
      SameRuns(cfg, Step(cfg, s, actions[0]), Step(cfg, t, actions[0]), actions[1..]);
    }
  }

  /** After any deaths of the process, recovery ends with what is visible in agreement and nothing lost. */
  lemma RecoveryCompletesWithoutPowerLoss(cfg: Config, s: State) returns (actions: seq<Action>)
    requires Inv(cfg, Settle(s)) && !s.up && Canonical(cfg)
    ensures |actions| <= 6 && Runs(cfg, s, actions) && NoPowerLoss(actions)
    ensures var t := End(cfg, s, actions);
            t.up && CaughtUp(t) && s.log <= t.log && Shows(cfg, t.log, t.store) && Inv(cfg, Settle(t))
  {
    var settled := Settle(s);
    actions := RecoveryCompletes(cfg, settled);
    SettleTwice(s);
    SameRuns(cfg, s, settled, actions);
    AliveRunKeeps(cfg, s, actions);
    var t, u := End(cfg, s, actions), End(cfg, settled, actions);
    assert Settle(t).log == t.log && Settle(u).log == u.log;
    forall id ensures At(t.store, id).visible == After(cfg, t.log, id) {
      assert At(Settle(t).store, id).visible == At(Settle(u).store, id).visible;
    }
  }

  lemma SettleTwice(s: State)
    ensures Settle(Settle(s)) == Settle(s)
  {
    RenamedTheSame(s.store, "", None);
  }

  lemma AlivePathKeeps(cfg: Config, states: seq<State>, actions: seq<Action>, k: nat)
    requires Path(cfg, states, actions) && Inv(cfg, Settle(states[0])) && NoPowerLoss(actions) && k < |states|
    ensures Inv(cfg, Settle(states[k]))
  {
    PathPrefix(cfg, states, actions, k);
    PathRuns(cfg, states[..k + 1], actions[..k]);
    AliveRunKeeps(cfg, states[0], actions[..k]);
  }
}
