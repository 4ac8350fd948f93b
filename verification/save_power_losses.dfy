/** Power losses, and the failures and deaths that go with them without harm: which runs build on nothing that
    a power loss may still undo. The conditions are on the failing call and the dying process alone. */
module SavePowerLosses {
  import opened Outcomes
  import opened Framing
  import opened Journals
  import opened Snapshots
  import opened SaveMachine

  // ----- when a failure or a death does no harm -----

  /** A start over this file takes in no record that is not synced: everything is, or what is not is cut off. */
  ghost predicate TakesInNothingUnsynced(cfg: Config, s: State) {
    || s.synced == |s.file|
    || (cfg.header <= s.file && var scan := Scan(cfg.codec, s.file, |cfg.header|, 1); scan.Recovered? && scan.torn)
  }

  /** No call fails between the rename of a store record and the sync of its directory. No process dies over a
      store directory, a checkpoint or a whole frame that is not synced. */
  ghost predicate Timely(cfg: Config, s: State, a: Action) {
    && (a.Fail? ==> AllSettled(s.store))
    && (a.Die? ==> AllSettled(s.store) && s.saved.Settled() && TakesInNothingUnsynced(cfg, s))
  }

  ghost predicate TimelyRun(cfg: Config, s: State, actions: seq<Action>)
    requires Runs(cfg, s, actions)
    decreases |actions|
  {
    actions == [] || (Timely(cfg, s, actions[0]) && TimelyRun(cfg, Step(cfg, s, actions[0]), actions[1..]))
  }

  /** No call fails and no process dies but by a loss of power. */
  predicate OnlyPowerLosses(actions: seq<Action>) {
    forall a :: a in actions ==> !a.Fail? && !a.Die?
  }

  lemma {:induction false} PowerLossesAreTimely(cfg: Config, s: State, actions: seq<Action>)
    requires Runs(cfg, s, actions) && OnlyPowerLosses(actions)
    ensures TimelyRun(cfg, s, actions)
    decreases |actions|
  {
    if actions != [] {
      assert actions[0] in actions;
      PowerLossesAreTimely(cfg, Step(cfg, s, actions[0]), actions[1..]);
    }
  }

  // ----- such runs are prudent -----

  /** Only the effect of the step under way is not synced. */
  ghost predicate Steady(cfg: Config, s: State) {
    if s.up then
      && s.endOffset <= s.synced && s.checkpoint.recordId <= |s.log| == |s.ends|
      && (s.stage.Renamed? || AllSettled(s.store))
      && (CaughtUp(s) ==> s.saved.Settled())
    else
      AllSettled(s.store) && s.saved.Settled() && TakesInNothingUnsynced(cfg, s)
  }

  lemma SteadyStep(cfg: Config, s: State, a: Action)
    requires Steady(cfg, s) && Enabled(cfg, s, a) && Timely(cfg, s, a)
    ensures Prudent(s, a) && Steady(cfg, Step(cfg, s, a))
  {
    if a.Crash? {
      PowerLossLeavesNoDoubt(cfg, s, a.kept, a.savedLeft, a.storeLeft);
    }
  }

  lemma {:induction false} SteadyRun(cfg: Config, s: State, actions: seq<Action>)
    requires Steady(cfg, s) && Runs(cfg, s, actions) && TimelyRun(cfg, s, actions)
    ensures PrudentRun(cfg, s, actions) && Steady(cfg, End(cfg, s, actions))
    decreases |actions|
  {
    if actions != [] {
      SteadyStep(cfg, s, actions[0]);
      SteadyRun(cfg, Step(cfg, s, actions[0]), actions[1..]);
    }
  }

  lemma StartIsSteady(cfg: Config)
    ensures Steady(cfg, Start(cfg))
  {
    forall id | id in Start(cfg).store ensures Start(cfg).store[id].Settled() {
      assert At(Start(cfg).store, id).Settled();
    }
  }

  /** Exactly-once replay over every timely run from a new journal, the power going anywhere: once checkpoint and
      journal agree each character's record durably is its initial one moved on by exactly its journal records; what
      a power loss may leave at any time is that or that without the last record; no intent is lost; a process that
      is down can start; and replay meets no conflict. */
  lemma ExactlyOnceWhileTimely(cfg: Config, actions: seq<Action>)
    requires Sound(cfg) && Runs(cfg, Start(cfg), actions) && TimelyRun(cfg, Start(cfg), actions)
    ensures var s := End(cfg, Start(cfg), actions);
            && (s.up && CaughtUp(s) ==> forall id :: At(s.store, id) == Cell(Moved(cfg, id, Mine(s.log, id)), {}))
            && (forall id, r :: At(s.store, id).Survives(r) ==>
                  r == Moved(cfg, id, Mine(s.log, id)) || (s.log != [] && r == Moved(cfg, id, Mine(Prefix(s.log), id))))
            && (s.up && !s.stage.Journaled? ==> s.booted <= |s.log| && s.session == Intents(s.log[s.booted..]) + s.outbox)
            && (!s.up ==> Enabled(cfg, s, Restart))
            && (s.up && Canonical(cfg) ==> !Conflict(s))
  {
    StartIsFine(cfg);
    StartIsSteady(cfg);
    SteadyRun(cfg, Start(cfg), actions);
    RunKeeps(cfg, Start(cfg), actions);
    ExactlyOnce(cfg, actions);
    NothingTakenIsLost(cfg, actions);
    var s := End(cfg, Start(cfg), actions);
    if !s.up {
      RestartSucceeds(cfg, s);
    } else if HasCurrent(s) {
      ConflictExactlyWhen(cfg, s);
    }
  }

  /** In particular over every run of enqueue, journal, confirm, apply, checkpoint, power loss and restart steps. */
  lemma ExactlyOnceUnderPowerLosses(cfg: Config, actions: seq<Action>)
    requires Sound(cfg) && Runs(cfg, Start(cfg), actions) && OnlyPowerLosses(actions)
    ensures var s := End(cfg, Start(cfg), actions);
            && (s.up && CaughtUp(s) ==> forall id :: At(s.store, id) == Cell(Moved(cfg, id, Mine(s.log, id)), {}))
            && (forall id, r :: At(s.store, id).Survives(r) ==>
                  r == Moved(cfg, id, Mine(s.log, id)) || (s.log != [] && r == Moved(cfg, id, Mine(Prefix(s.log), id))))
            && (s.up && !s.stage.Journaled? ==> s.booted <= |s.log| && s.session == Intents(s.log[s.booted..]) + s.outbox)
            && (!s.up ==> Enabled(cfg, s, Restart))
            && (s.up && Canonical(cfg) ==> !Conflict(s))
  {
    PowerLossesAreTimely(cfg, Start(cfg), actions);
    ExactlyOnceWhileTimely(cfg, actions);
  }

  /** Recovery never wedges: after any timely run from a new journal, at most six steps bring a process that is down
      up again, with checkpoint and store durably at the end of a journal that lost nothing. */
  lemma RecoveryCompletesWhileTimely(cfg: Config, actions: seq<Action>) returns (recovery: seq<Action>)
    requires Sound(cfg) && Runs(cfg, Start(cfg), actions) && TimelyRun(cfg, Start(cfg), actions)
    requires Canonical(cfg) && !End(cfg, Start(cfg), actions).up
    ensures var s := End(cfg, Start(cfg), actions);
            && |recovery| <= 6 && Runs(cfg, s, recovery)
            && var t := End(cfg, s, recovery);
            t.up && t.stage.Idle? && CaughtUp(t) && s.log <= t.log && StoreIs(cfg, t.log, t.store)
  {
    StartIsFine(cfg);
    StartIsSteady(cfg);
    SteadyRun(cfg, Start(cfg), actions);
    RunKeeps(cfg, Start(cfg), actions);
    recovery := RecoversSteady(cfg, End(cfg, Start(cfg), actions));
  }

  lemma RecoversSteady(cfg: Config, s: State) returns (recovery: seq<Action>)
    requires Inv(cfg, s) && Steady(cfg, s) && !s.up && Canonical(cfg)
    ensures |recovery| <= 6 && Runs(cfg, s, recovery)
    ensures var t := End(cfg, s, recovery);
            t.up && t.stage.Idle? && CaughtUp(t) && s.log <= t.log && StoreIs(cfg, t.log, t.store)
  {
    RestartSucceeds(cfg, s);
    RestartKeeps(cfg, s);
    SteadyStep(cfg, s, Restart);
    var rest := FinishOpen(cfg, Step(cfg, s, Restart));
    RunsMore(cfg, s, Restart, rest);
    recovery := [Restart] + rest;
    RunKeeps(cfg, Step(cfg, s, Restart), rest);
    QuietMeansStored(cfg, End(cfg, s, recovery));
  }

  // ----- the same along a recorded path -----

  lemma {:induction false} SteadyPath(cfg: Config, states: seq<State>, actions: seq<Action>, k: nat)
    requires Path(cfg, states, actions) && Steady(cfg, states[0]) && k < |states|
    requires forall j {:trigger actions[j]} :: 0 <= j < |actions| ==> Timely(cfg, states[j], actions[j])
    ensures Steady(cfg, states[k]) && (k < |actions| ==> Prudent(states[k], actions[k]))
  {
    if k > 0 {
      SteadyPath(cfg, states, actions, k - 1);
      assert Moves(cfg, states[k - 1], actions[k - 1], states[k]);
      SteadyMove(cfg, states[k - 1], actions[k - 1], states[k]);
    }
    if k < |actions| {
      assert Moves(cfg, states[k], actions[k], states[k + 1]);
      SteadyMove(cfg, states[k], actions[k], states[k + 1]);
    }
  }

  lemma SteadyMove(cfg: Config, s: State, a: Action, t: State)
    requires Moves(cfg, s, a, t) && Steady(cfg, s) && Timely(cfg, s, a)
    ensures Prudent(s, a) && Steady(cfg, t)
  {
    SteadyStep(cfg, s, a);
  }
}
