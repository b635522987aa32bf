/**
 The whole `migrate` task: choose the initial state, list the migration
 files whose key is above its `latestMigration`, and run them. The run
 records its progress in the state file, so running the task again without
 reset starts from what was written last; the lemmas below state where.
 */
module Task {
  import opened Wrappers
  import opened Types
  import opened Discovery
  import opened Initialization
  import Engine
  import LegacyEngine

  /** The process exited for want of the fork's source state, or a run
      started from `initialState` over `pending`; `writes` are all the
      states written to the state file, in order (those of the
      initialisation, then those of the run). */
  datatype TaskResult<R> =
    | ForkSourceMissing
    | Ran(initialState: SystemState, pending: seq<MigrationData>, run: R, writes: seq<SystemState>)

  /** The state file after the task: the last state written, or what was
      stored before (nothing, after a reset). The exit path writes
      nothing. */
  function StateFileAfter<R>(reset: bool, stored: Option<SystemState>, r: TaskResult<R>): Option<SystemState> {
    var writes := if r.Ran? then r.writes else [];
    if |writes| > 0 then Some(writes[|writes| - 1]) else if reset then None else stored
  }

  /** What the task settles before the run: the initial state, the pending
      list, and the states written while choosing the initial state. */
  datatype Setup = Setup(initialState: SystemState, pending: seq<MigrationData>, writes: seq<SystemState>)

  /** The initialisation shared by both engines; None when the process
      exits for want of the fork's source state. `files` is the listing of
      the migration folder `folder`. */
  function Prepare(reset: bool, isFork: bool, stored: Option<SystemState>, forkSource: Option<SystemState>,
                   folder: string, files: seq<string>): (r: Option<Setup>)
    ensures r.None? <==> reset && isFork && forkSource.None?
    ensures r.Some? ==> Sorted(r.value.pending)
    ensures r.Some? ==> forall d :: d in r.value.pending ==> d.migrationTimestamp > r.value.initialState.migrationState.latestMigration
    ensures r.Some? ==> StoredAfter(reset, stored, Ready(r.value.initialState, r.value.writes)) == Some(r.value.initialState)
    ensures r.Some? ==> r.value.pending == Pending(folder, files, r.value.initialState.migrationState.latestMigration)
  {
    match SelectInitialState(reset, isFork, stored, forkSource)
    case MissingForkSource => None
    case Ready(initial, initWrites) =>
      InitialStateIsPersisted(reset, isFork, stored, forkSource, false, None);
      PendingCorrect(folder, files, initial.migrationState.latestMigration);
      Some(Setup(initial, Pending(folder, files, initial.migrationState.latestMigration), initWrites))
  }

  /** The task with the checkpoint-and-rollback engine; `load` imports the
      unit of a path. */
  function MigrateTask(reset: bool, isFork: bool, stored: Option<SystemState>, forkSource: Option<SystemState>,
                       folder: string, files: seq<string>, load: string -> Migration): (r: TaskResult<Engine.RunResult>)
    ensures r.ForkSourceMissing? <==> reset && isFork && forkSource.None?
    ensures r.Ran? ==> Sorted(r.pending)
    ensures r.Ran? ==> forall d :: d in r.pending ==> d.migrationTimestamp > r.initialState.migrationState.latestMigration
    ensures r.Ran? ==> r.pending == Pending(folder, files, r.initialState.migrationState.latestMigration)
    ensures r.Ran? ==> r.run == Engine.Reference(r.pending, load, r.initialState)
    ensures r.ForkSourceMissing? ==> StateFileAfter(reset, stored, r) == None
    ensures r.Ran? ==> StateFileAfter(reset, stored, r) == Some(LastWritten(r.initialState, r.run.writes))
  {
    match Prepare(reset, isFork, stored, forkSource, folder, files)
    case None => ForkSourceMissing
    case Some(setup) =>
      var run := Engine.Reference(setup.pending, load, setup.initialState);
      StateFileHoldsLastWrite(reset, stored, setup, run, run.writes);
      Ran(setup.initialState, setup.pending, run, setup.writes + run.writes)
  }

  /** The task with the forward-only engine. */
  function LegacyMigrateTask(reset: bool, isFork: bool, stored: Option<SystemState>, forkSource: Option<SystemState>,
                             folder: string, files: seq<string>, load: string -> LegacyEngine.ForwardMigration): (r: TaskResult<LegacyEngine.RunResult>)
    ensures r.ForkSourceMissing? <==> reset && isFork && forkSource.None?
    ensures r.Ran? ==> Sorted(r.pending)
    ensures r.Ran? ==> forall d :: d in r.pending ==> d.migrationTimestamp > r.initialState.migrationState.latestMigration
    ensures r.Ran? ==> r.pending == Pending(folder, files, r.initialState.migrationState.latestMigration)
    ensures r.Ran? ==> r.run == LegacyEngine.Run(r.pending, load, r.initialState)
    ensures r.ForkSourceMissing? ==> StateFileAfter(reset, stored, r) == None
    ensures r.Ran? ==> StateFileAfter(reset, stored, r) == Some(LastWritten(r.initialState, r.run.writes))
  {
    match Prepare(reset, isFork, stored, forkSource, folder, files)
    case None => ForkSourceMissing
    case Some(setup) =>
      var run := LegacyEngine.Run(setup.pending, load, setup.initialState);
      StateFileHoldsLastWrite(reset, stored, setup, run, run.writes);
      Ran(setup.initialState, setup.pending, run, setup.writes + run.writes)
  }

  /** The state file after a run that wrote `runWrites` on top of the
      initialisation holds the run's last write, or the initial state when
      the run wrote nothing. */
  lemma StateFileHoldsLastWrite<R>(reset: bool, stored: Option<SystemState>, setup: Setup, run: R, runWrites: seq<SystemState>)
    requires StoredAfter(reset, stored, Ready(setup.initialState, setup.writes)) == Some(setup.initialState)
    ensures StateFileAfter(reset, stored, Ran(setup.initialState, setup.pending, run, setup.writes + runWrites))
      == Some(LastWritten(setup.initialState, runWrites))
  {
    if |runWrites| > 0 {
      assert (setup.writes + runWrites)[|setup.writes + runWrites| - 1] == runWrites[|runWrites| - 1];
    } else {
      assert setup.writes + runWrites == setup.writes;
    }
  }

  /** The pieces of a task that ran: its setup and its run. */
  lemma RanTask(reset: bool, isFork: bool, stored: Option<SystemState>, forkSource: Option<SystemState>,
                folder: string, files: seq<string>, load: string -> Migration)
    returns (setup: Setup, run: Engine.RunResult)
    requires MigrateTask(reset, isFork, stored, forkSource, folder, files, load).Ran?
    ensures setup.pending == Pending(folder, files, setup.initialState.migrationState.latestMigration)
    ensures run == Engine.Reference(setup.pending, load, setup.initialState)
    ensures MigrateTask(reset, isFork, stored, forkSource, folder, files, load)
      == Ran(setup.initialState, setup.pending, run, setup.writes + run.writes)
    ensures StateFileAfter(reset, stored, MigrateTask(reset, isFork, stored, forkSource, folder, files, load))
      == Some(LastWritten(setup.initialState, run.writes))
  {
    setup := Prepare(reset, isFork, stored, forkSource, folder, files).value;
    run := Engine.Reference(setup.pending, load, setup.initialState);
    StateFileHoldsLastWrite(reset, stored, setup, run, run.writes);
  }

  /** The task started, without reset, on a stored state file `st`. */
  lemma RerunFromStored(isFork: bool, st: SystemState, forkSource: Option<SystemState>,
                        folder: string, files: seq<string>, load: string -> Migration)
    ensures MigrateTask(false, isFork, Some(st), forkSource, folder, files, load)
      == Ran(st, Pending(folder, files, st.migrationState.latestMigration),
             Engine.Reference(Pending(folder, files, st.migrationState.latestMigration), load, st),
             Engine.Reference(Pending(folder, files, st.migrationState.latestMigration), load, st).writes)
  {
    assert Prepare(false, isFork, Some(st), forkSource, folder, files)
      == Some(Setup(st, Pending(folder, files, st.migrationState.latestMigration), []));
  }

  /** Running the task again without reset, with the same migration folder
      and distinct keys, starts from the last state written and finds
      pending exactly the units from `ResumeIndex` on: from the unit whose
      `up` threw; after a `down` of unit `j` threw, from unit `j + 1` (the
      last unit whose `down` returned), or from the failed unit `k` when its
      own `down` threw first; all of them again after a complete rollback;
      none after a completed run. */
  lemma RerunResumes(reset: bool, isFork: bool, stored: Option<SystemState>, forkSource: Option<SystemState>,
                     folder: string, files: seq<string>, load: string -> Migration,
                     isFork2: bool, forkSource2: Option<SystemState>, load2: string -> Migration)
    requires MigrateTask(reset, isFork, stored, forkSource, folder, files, load).Ran?
    requires DistinctKeys(MigrateTask(reset, isFork, stored, forkSource, folder, files, load).pending)
    ensures var r := MigrateTask(reset, isFork, stored, forkSource, folder, files, load);
      var again := MigrateTask(false, isFork2, StateFileAfter(reset, stored, r), forkSource2, folder, files, load2);
      && again.Ran?
      && again.initialState == LastWritten(r.initialState, r.run.writes)
      && Engine.ResumeIndex(r.run.outcome, |r.pending|) <= |r.pending|
      && again.pending == r.pending[Engine.ResumeIndex(r.run.outcome, |r.pending|)..]
  {
    var setup, run := RanTask(reset, isFork, stored, forkSource, folder, files, load);
    var initial, pending := setup.initialState, setup.pending;
    var final := LastWritten(initial, run.writes);
    RerunFromStored(isFork2, final, forkSource2, folder, files, load2);
    var p := Engine.ResumeIndex(run.outcome, |pending|);
    Engine.LastWrittenIsLedgerEntry(pending, load, initial);
    if p > 0 {
      assert pending[p - 1] in pending;
    }
    PendingAbove(folder, files, initial.migrationState.latestMigration, final.migrationState.latestMigration, p);
  }

  /** Keys are not checked for duplicates. When the unit whose `up` threw
      shares its key with the unit checkpointed just before it, running the
      task again without reset never retries it: every unit then pending
      has a larger key. */
  lemma RerunSkipsUnitSharingKey(reset: bool, isFork: bool, stored: Option<SystemState>, forkSource: Option<SystemState>,
                                 folder: string, files: seq<string>, load: string -> Migration,
                                 isFork2: bool, forkSource2: Option<SystemState>, load2: string -> Migration)
    requires MigrateTask(reset, isFork, stored, forkSource, folder, files, load).Ran?
    requires var r := MigrateTask(reset, isFork, stored, forkSource, folder, files, load);
      && r.run.outcome.UpFailed? && 0 < r.run.outcome.at < |r.pending|
      && r.pending[r.run.outcome.at - 1].migrationTimestamp == r.pending[r.run.outcome.at].migrationTimestamp
    ensures var r := MigrateTask(reset, isFork, stored, forkSource, folder, files, load);
      var again := MigrateTask(false, isFork2, StateFileAfter(reset, stored, r), forkSource2, folder, files, load2);
      forall d :: d in again.pending ==> d.migrationTimestamp > r.pending[r.run.outcome.at].migrationTimestamp
  {
    var setup, run := RanTask(reset, isFork, stored, forkSource, folder, files, load);
    var initial, pending := setup.initialState, setup.pending;
    var final := LastWritten(initial, run.writes);
    RerunFromStored(isFork2, final, forkSource2, folder, files, load2);
    Engine.UpFailureAbortsWithoutRollback(pending, load, initial);
    // the rerun starts from the checkpoint of unit `k - 1`, whose key is unit `k`'s
    assert final.migrationState.latestMigration == pending[run.outcome.at].migrationTimestamp;
    RerunKeysAbove(isFork2, final, forkSource2, folder, files, load2);
  }

  /** Every unit pending when the task restarts from `st` has a key above
      `st`'s `latestMigration`. */
  lemma RerunKeysAbove(isFork: bool, st: SystemState, forkSource: Option<SystemState>,
                       folder: string, files: seq<string>, load: string -> Migration)
    ensures MigrateTask(false, isFork, Some(st), forkSource, folder, files, load).Ran?
    ensures forall d :: d in MigrateTask(false, isFork, Some(st), forkSource, folder, files, load).pending ==>
      d.migrationTimestamp > st.migrationState.latestMigration
  {
    RerunFromStored(isFork, st, forkSource, folder, files, load);
  }

  /** After a completed run (or one with nothing to migrate), running the
      task again without reset finds nothing to migrate and writes nothing,
      whatever the keys. */
  lemma RerunAfterCompletionFindsNothing(reset: bool, isFork: bool, stored: Option<SystemState>, forkSource: Option<SystemState>,
                                         folder: string, files: seq<string>, load: string -> Migration,
                                         isFork2: bool, forkSource2: Option<SystemState>, load2: string -> Migration)
    requires MigrateTask(reset, isFork, stored, forkSource, folder, files, load).Ran?
    requires MigrateTask(reset, isFork, stored, forkSource, folder, files, load).run.outcome.Completed?
          || MigrateTask(reset, isFork, stored, forkSource, folder, files, load).run.outcome.NothingToMigrate?
    ensures var r := MigrateTask(reset, isFork, stored, forkSource, folder, files, load);
      MigrateTask(false, isFork2, StateFileAfter(reset, stored, r), forkSource2, folder, files, load2)
        == Ran(LastWritten(r.initialState, r.run.writes), [], Engine.RunResult(Engine.NothingToMigrate, [], []), [])
  {
    var setup, run := RanTask(reset, isFork, stored, forkSource, folder, files, load);
    var initial, pending := setup.initialState, setup.pending;
    var final := LastWritten(initial, run.writes);
    RerunFromStored(isFork2, final, forkSource2, folder, files, load2);
    if run.outcome == Engine.Completed {
      Engine.CompletedWritesAll(pending, load, initial);
      PendingExhausted(folder, files, initial.migrationState.latestMigration);
    } else {
      assert final == initial;
    }
    assert Pending(folder, files, final.migrationState.latestMigration) == [];
  }

  /** When every pending unit's `down` hands back its prior state, a run
      whose health check failed is rolled back completely and leaves the
      state file holding its initial state. Running the task again without
      reset starts from that same state over the same units; with the same
      `load` (every chain call answered as in the first run) it repeats the
      first run exactly. */
  lemma RerunAfterRestoringRollbackRepeats(reset: bool, isFork: bool, stored: Option<SystemState>, forkSource: Option<SystemState>,
                                           folder: string, files: seq<string>, load: string -> Migration,
                                           isFork2: bool, forkSource2: Option<SystemState>, load2: string -> Migration)
    requires MigrateTask(reset, isFork, stored, forkSource, folder, files, load).Ran?
    requires MigrateTask(reset, isFork, stored, forkSource, folder, files, load).run.outcome.RolledBack?
          || MigrateTask(reset, isFork, stored, forkSource, folder, files, load).run.outcome.RollbackAborted?
    requires var pending := MigrateTask(reset, isFork, stored, forkSource, folder, files, load).pending;
      forall u :: 0 <= u < |pending| ==> DownRestoresPrior(Engine.UnitAt(pending, load, u))
    ensures MigrateTask(reset, isFork, stored, forkSource, folder, files, load).run.outcome.RolledBack?
    ensures var r := MigrateTask(reset, isFork, stored, forkSource, folder, files, load);
      StateFileAfter(reset, stored, r) == Some(r.initialState)
    ensures var r := MigrateTask(reset, isFork, stored, forkSource, folder, files, load);
      var again := MigrateTask(false, isFork2, StateFileAfter(reset, stored, r), forkSource2, folder, files, load2);
      again.Ran? && again.initialState == r.initialState && again.pending == r.pending
    ensures var r := MigrateTask(reset, isFork, stored, forkSource, folder, files, load);
      load2 == load ==>
        MigrateTask(false, isFork2, StateFileAfter(reset, stored, r), forkSource2, folder, files, load2)
          == Ran(r.initialState, r.pending, r.run, r.run.writes)
  {
    var setup, run := RanTask(reset, isFork, stored, forkSource, folder, files, load);
    var initial, pending := setup.initialState, setup.pending;
    var k, afterUp, cps, rb := Engine.RollbackRun(pending, load, initial);
    Engine.FullRollbackRestoresInitial(pending, load, initial);
    RerunFromStored(isFork2, initial, forkSource2, folder, files, load2);
  }

  /** The pieces of a forward-only task that ran. */
  lemma LegacyRanTask(reset: bool, isFork: bool, stored: Option<SystemState>, forkSource: Option<SystemState>,
                      folder: string, files: seq<string>, load: string -> LegacyEngine.ForwardMigration)
    returns (setup: Setup, run: LegacyEngine.RunResult)
    requires LegacyMigrateTask(reset, isFork, stored, forkSource, folder, files, load).Ran?
    ensures setup.pending == Pending(folder, files, setup.initialState.migrationState.latestMigration)
    ensures run == LegacyEngine.Run(setup.pending, load, setup.initialState)
    ensures LegacyMigrateTask(reset, isFork, stored, forkSource, folder, files, load)
      == Ran(setup.initialState, setup.pending, run, setup.writes + run.writes)
    ensures StateFileAfter(reset, stored, LegacyMigrateTask(reset, isFork, stored, forkSource, folder, files, load))
      == Some(LastWritten(setup.initialState, run.writes))
  {
    setup := Prepare(reset, isFork, stored, forkSource, folder, files).value;
    run := LegacyEngine.Run(setup.pending, load, setup.initialState);
    StateFileHoldsLastWrite(reset, stored, setup, run, run.writes);
  }

  /** The forward-only task started, without reset, on a stored state file `st`. */
  lemma LegacyRerunFromStored(isFork: bool, st: SystemState, forkSource: Option<SystemState>,
                              folder: string, files: seq<string>, load: string -> LegacyEngine.ForwardMigration)
    ensures LegacyMigrateTask(false, isFork, Some(st), forkSource, folder, files, load)
      == Ran(st, Pending(folder, files, st.migrationState.latestMigration),
             LegacyEngine.Run(Pending(folder, files, st.migrationState.latestMigration), load, st),
             LegacyEngine.Run(Pending(folder, files, st.migrationState.latestMigration), load, st).writes)
  {
    assert Prepare(false, isFork, Some(st), forkSource, folder, files)
      == Some(Setup(st, Pending(folder, files, st.migrationState.latestMigration), []));
  }

  /** Running the forward-only task again without reset, with distinct
      keys, finds pending exactly the units after the last checkpoint: the
      one whose `up` threw or whose health check failed and those after it,
      or none after a completed run. */
  lemma LegacyRerunResumes(reset: bool, isFork: bool, stored: Option<SystemState>, forkSource: Option<SystemState>,
                           folder: string, files: seq<string>, load: string -> LegacyEngine.ForwardMigration,
                           isFork2: bool, forkSource2: Option<SystemState>, load2: string -> LegacyEngine.ForwardMigration)
    requires LegacyMigrateTask(reset, isFork, stored, forkSource, folder, files, load).Ran?
    requires DistinctKeys(LegacyMigrateTask(reset, isFork, stored, forkSource, folder, files, load).pending)
    ensures var r := LegacyMigrateTask(reset, isFork, stored, forkSource, folder, files, load);
      var again := LegacyMigrateTask(false, isFork2, StateFileAfter(reset, stored, r), forkSource2, folder, files, load2);
      && again.Ran?
      && again.initialState == LastWritten(r.initialState, r.run.writes)
      && |r.run.writes| <= |r.pending|
      && again.pending == r.pending[|r.run.writes|..]
    ensures var r := LegacyMigrateTask(reset, isFork, stored, forkSource, folder, files, load);
      r.run.outcome.UpFailed? || r.run.outcome.HealthCheckFailed? ==> r.run.outcome.at == |r.run.writes| < |r.pending|
  {
    var setup, run := LegacyRanTask(reset, isFork, stored, forkSource, folder, files, load);
    var initial, pending := setup.initialState, setup.pending;
    var final := LastWritten(initial, run.writes);
    LegacyRerunFromStored(isFork2, final, forkSource2, folder, files, load2);
    var p := |run.writes|;
    LegacyEngine.RunStopsAfterLongestPassingPrefix(pending, load, initial);
    if p > 0 {
      assert pending[p - 1] in pending;
    }
    PendingAbove(folder, files, initial.migrationState.latestMigration, final.migrationState.latestMigration, p);
  }
}
