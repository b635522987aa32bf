/**
 The earlier, forward-only variant of the run. Each unit's `up` receives
 the network state returned by the previous unit's `up`; a passing health
 check is written as a checkpoint; the first throwing `up` or failing health
 check ends the run, with nothing reverted. Discovery and the choice of the
 initial state are the same as in the later variant (modules Discovery and
 Initialization).
 */
module LegacyEngine {
  import opened Wrappers
  import opened Types
  import opened Discovery

  /** The unit interface of this variant: the health check sees only the
      state `up` returned. */
  datatype ForwardMigration = ForwardMigration(
    up: NetworkState -> Option<NetworkState>,
    healthCheck: NetworkState -> bool)

  datatype Outcome = NothingToMigrate | Completed | UpFailed(at: nat) | HealthCheckFailed(at: nat)

  datatype RunResult = RunResult(outcome: Outcome, writes: seq<SystemState>, calls: seq<Call>)

  function UnitAt(pending: seq<MigrationData>, load: string -> ForwardMigration, i: nat): ForwardMigration
    requires i < |pending|
  {
    load(pending[i].fullPath)
  }

  /** The loop over `migrationsData` from index `i`, with `ns` the current
      network state. */
  function RunFrom(pending: seq<MigrationData>, load: string -> ForwardMigration, i: nat, ns: NetworkState): RunResult
    requires i <= |pending|
    decreases |pending| - i
  {
    if i == |pending| then RunResult(Completed, [], [])
    else
      var m := UnitAt(pending, load, i);
      match m.up(ns)
      case None => RunResult(UpFailed(i), [], [Up(i)])
      case Some(next) =>
        if !m.healthCheck(next) then RunResult(HealthCheckFailed(i), [], [Up(i), HealthCheck(i)])
        else
          var rest := RunFrom(pending, load, i + 1, next);
          RunResult(
            rest.outcome,
            [SystemState(MigrationState(pending[i].migrationTimestamp), next)] + rest.writes,
            [Up(i), HealthCheck(i)] + rest.calls)
  }

  /** The whole run. */
  function Run(pending: seq<MigrationData>, load: string -> ForwardMigration, initial: SystemState): RunResult {
    if |pending| == 0 then RunResult(NothingToMigrate, [], [])
    else RunFrom(pending, load, 0, initial.networkState)
  }

  // ---- an independent description: the threaded states -------------------

  /** The result of one unit on `ns`, when its `up` returns and its health
      check passes. */
  function Step(m: ForwardMigration, ns: NetworkState): Option<NetworkState> {
    match m.up(ns)
    case None => None
    case Some(next) => if m.healthCheck(next) then Some(next) else None
  }

  /** The network state after units `i .. i + j - 1` all passed, starting
      from `ns`; None when one of them did not. */
  function Threaded(pending: seq<MigrationData>, load: string -> ForwardMigration, i: nat, ns: NetworkState, j: nat): Option<NetworkState>
    requires i + j <= |pending|
    decreases j
  {
    if j == 0 then Some(ns)
    else
      match Step(UnitAt(pending, load, i), ns)
      case None => None
      case Some(next) => Threaded(pending, load, i + 1, next, j - 1)
  }

  /** The writes of the run from `i` are described by the threaded states:
      the first `p` units from `i` passed, and write `j` carries unit
      `i + j`'s key and the state its `up` returned from the previous one. */
  lemma {:induction false} RunFromThreads(pending: seq<MigrationData>, load: string -> ForwardMigration, i: nat, ns: NetworkState)
    requires i <= |pending|
    ensures i + |RunFrom(pending, load, i, ns).writes| <= |pending|
    ensures Threaded(pending, load, i, ns, |RunFrom(pending, load, i, ns).writes|).Some?
    ensures forall j :: 0 <= j < |RunFrom(pending, load, i, ns).writes| ==>
      RunFrom(pending, load, i, ns).writes[j].migrationState == MigrationState(pending[i + j].migrationTimestamp)
    ensures forall j :: 0 <= j < |RunFrom(pending, load, i, ns).writes| ==>
      Threaded(pending, load, i, ns, j + 1) == Some(RunFrom(pending, load, i, ns).writes[j].networkState)
    decreases |pending| - i
  {
    if i < |pending| {
      var m := UnitAt(pending, load, i);
      var next := m.up(ns);
      if next.Some? && m.healthCheck(next.value) {
        var r := RunFrom(pending, load, i, ns);
        var rest := RunFrom(pending, load, i + 1, next.value);
        RunFromThreads(pending, load, i + 1, next.value);
        assert r.writes == [SystemState(MigrationState(pending[i].migrationTimestamp), next.value)] + rest.writes;
        forall j | 1 <= j < |r.writes|
          ensures r.writes[j].migrationState == MigrationState(pending[i + j].migrationTimestamp)
          ensures Threaded(pending, load, i, ns, j + 1) == Some(r.writes[j].networkState)
        {
          assert r.writes[j] == rest.writes[j - 1];
          assert Threaded(pending, load, i, ns, j + 1) == Threaded(pending, load, i + 1, next.value, j);
        }
        assert Threaded(pending, load, i, ns, |r.writes|) == Threaded(pending, load, i + 1, next.value, |rest.writes|);
      }
    }
  }

  /** The run from `i` stops at the first unit after the passing prefix:
      that unit's `up` threw or its health check failed on the threaded
      state, or every unit passed. */
  lemma {:induction false} RunFromStops(pending: seq<MigrationData>, load: string -> ForwardMigration, i: nat, ns: NetworkState)
    requires i <= |pending|
    ensures i + |RunFrom(pending, load, i, ns).writes| <= |pending|
    ensures Threaded(pending, load, i, ns, |RunFrom(pending, load, i, ns).writes|).Some?
    ensures i + |RunFrom(pending, load, i, ns).writes| < |pending| ==>
      Threaded(pending, load, i, ns, |RunFrom(pending, load, i, ns).writes| + 1).None?
    ensures var r := RunFrom(pending, load, i, ns);
      r.outcome == Completed <==> i + |r.writes| == |pending|
    ensures var r := RunFrom(pending, load, i, ns);
      r.outcome.UpFailed? ==>
        && r.outcome.at == i + |r.writes|
        && UnitAt(pending, load, i + |r.writes|).up(Threaded(pending, load, i, ns, |r.writes|).value).None?
    ensures var r := RunFrom(pending, load, i, ns);
      r.outcome.HealthCheckFailed? ==>
        && r.outcome.at == i + |r.writes|
        && UnitAt(pending, load, i + |r.writes|).up(Threaded(pending, load, i, ns, |r.writes|).value).Some?
        && !UnitAt(pending, load, i + |r.writes|).healthCheck(UnitAt(pending, load, i + |r.writes|).up(Threaded(pending, load, i, ns, |r.writes|).value).value)
    ensures var r := RunFrom(pending, load, i, ns);
      r.outcome.Completed? || r.outcome.UpFailed? || r.outcome.HealthCheckFailed?
    decreases |pending| - i
  {
    if i < |pending| {
      var m := UnitAt(pending, load, i);
      var next := m.up(ns);
      if next.Some? && m.healthCheck(next.value) {
        var r := RunFrom(pending, load, i, ns);
        var rest := RunFrom(pending, load, i + 1, next.value);
        RunFromStops(pending, load, i + 1, next.value);
        assert |r.writes| == |rest.writes| + 1;
        assert Threaded(pending, load, i, ns, |r.writes|) == Threaded(pending, load, i + 1, next.value, |rest.writes|);
        if i + |r.writes| < |pending| {
          assert Threaded(pending, load, i, ns, |r.writes| + 1) == Threaded(pending, load, i + 1, next.value, |rest.writes| + 1);
        }
      }
    }
  }

  /** Only units from `i` up to the stopping one are invoked, and `down`
      never is. */
  lemma {:induction false} RunFromCalls(pending: seq<MigrationData>, load: string -> ForwardMigration, i: nat, ns: NetworkState)
    requires i <= |pending|
    ensures forall c :: c in RunFrom(pending, load, i, ns).calls ==>
      !c.Down? && i <= c.index <= i + |RunFrom(pending, load, i, ns).writes|
    decreases |pending| - i
  {
    if i < |pending| {
      var m := UnitAt(pending, load, i);
      var next := m.up(ns);
      if next.Some? && m.healthCheck(next.value) {
        RunFromCalls(pending, load, i + 1, next.value);
        var r := RunFrom(pending, load, i, ns);
        var rest := RunFrom(pending, load, i + 1, next.value);
        assert r.calls == [Up(i), HealthCheck(i)] + rest.calls;
        assert |r.writes| == |rest.writes| + 1;
      }
    }
  }

  /** The run stops after the longest prefix of units whose `up` and health
      check both succeeded, each threaded into the next; the writes are
      exactly that prefix's checkpoints, so the last `latestMigration`
      persisted is the key of the prefix's last unit, or the initial value
      when the prefix is empty. An empty pending list writes nothing and
      invokes nothing. */
  lemma RunStopsAfterLongestPassingPrefix(pending: seq<MigrationData>, load: string -> ForwardMigration, initial: SystemState)
    ensures |Run(pending, load, initial).writes| <= |pending|
    ensures Threaded(pending, load, 0, initial.networkState, |Run(pending, load, initial).writes|).Some?
    ensures |Run(pending, load, initial).writes| < |pending| ==>
      Threaded(pending, load, 0, initial.networkState, |Run(pending, load, initial).writes| + 1).None?
    ensures forall j :: 0 <= j < |Run(pending, load, initial).writes| ==>
      && Run(pending, load, initial).writes[j].migrationState == MigrationState(pending[j].migrationTimestamp)
      && Threaded(pending, load, 0, initial.networkState, j + 1) == Some(Run(pending, load, initial).writes[j].networkState)
    ensures var r := Run(pending, load, initial);
      LastWritten(initial, r.writes).migrationState.latestMigration ==
        (if |r.writes| == 0 then initial.migrationState.latestMigration else pending[|r.writes| - 1].migrationTimestamp)
    ensures forall c :: c in Run(pending, load, initial).calls ==> !c.Down? && c.index <= |Run(pending, load, initial).writes|
    ensures |pending| == 0 ==> Run(pending, load, initial) == RunResult(NothingToMigrate, [], [])
    ensures |pending| > 0 ==> (Run(pending, load, initial).outcome == Completed <==> |Run(pending, load, initial).writes| == |pending|)
    ensures var r := Run(pending, load, initial);
      r.outcome.UpFailed? || r.outcome.HealthCheckFailed? ==> r.outcome.at == |r.writes| < |pending|
  {
    var r := Run(pending, load, initial);
    var p := |r.writes|;
    if |pending| > 0 {
      assert r == RunFrom(pending, load, 0, initial.networkState);
      RunFromThreads(pending, load, 0, initial.networkState);
      RunFromStops(pending, load, 0, initial.networkState);
      RunFromCalls(pending, load, 0, initial.networkState);
      if p > 0 {
        assert r.writes[p - 1].migrationState == MigrationState(pending[p - 1].migrationTimestamp);
      }
      assert forall c :: c in r.calls ==> !c.Down? && c.index <= p;
    }
  }
}
