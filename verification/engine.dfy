/**
 The migration run with checkpoints and rollback. The pending units run in
 order; each `up` is followed by its `healthCheck`, and a passing check is
 checkpointed (written, and pushed on the `stateSaves` ledger). A failing
 check stops the forward loop and `down` is run on the failed unit and then
 on every earlier unit, newest first, writing a state after each. A
 throwing `up` ends the run at once, with no rollback; a throwing `down`
 ends the rollback where it is.

 `Reference` defines the run recursively; `Migrate` follows the loops of the
 implementation statement by statement and is proved to compute the same
 result. The lemmas below state the properties of `Reference`.
 */
module Engine {
  import opened Wrappers
  import opened Types
  import opened Discovery

  datatype Outcome =
    | NothingToMigrate
    | Completed
      /** `up` of the unit at `at` threw: the run aborted without rollback. */
    | UpFailed(at: nat)
      /** The health check at `checkFailedAt` failed and every unit from
          there down to the first was reverted. */
    | RolledBack(checkFailedAt: nat)
      /** The health check at `checkFailedAt` failed and, while reverting,
          `down` of the unit at `downFailedAt` threw. */
    | RollbackAborted(checkFailedAt: nat, downFailedAt: nat)

  /** The outcome of a run, the states written in order, and the unit
      operations invoked in order. */
  datatype RunResult = RunResult(outcome: Outcome, writes: seq<SystemState>, calls: seq<Call>)

  /** The unit the engine imports for the `i`-th pending file. */
  function UnitAt(pending: seq<MigrationData>, load: string -> Migration, i: nat): Migration
    requires i < |pending|
  {
    load(pending[i].fullPath)
  }

  /** The state written after the unit `d` passed its health check. */
  function Checkpoint(d: MigrationData, ns: NetworkState): SystemState {
    SystemState(MigrationState(d.migrationTimestamp), ns)
  }

  // ---- the reference run --------------------------------------------------

  datatype ForwardStop = AllPassed | UpThrew(at: nat) | CheckFailed(at: nat, afterUp: NetworkState)

  /** How the forward loop ended, and the checkpoints it wrote. */
  datatype Forward = Forward(stop: ForwardStop, checkpoints: seq<SystemState>)

  /** The index the forward loop stopped at (`n` when every unit passed). */
  function StopIndex(stop: ForwardStop, n: nat): nat {
    if stop.AllPassed? then n else stop.at
  }

  /** The forward loop from index `i` with checkpoint `current`. */
  function ForwardFrom(pending: seq<MigrationData>, load: string -> Migration, i: nat, current: SystemState): (f: Forward)
    requires i <= |pending|
    decreases |pending| - i
    ensures i <= StopIndex(f.stop, |pending|) <= |pending|
    ensures !f.stop.AllPassed? ==> f.stop.at < |pending|
    ensures |f.checkpoints| == StopIndex(f.stop, |pending|) - i
  {
    if i == |pending| then Forward(AllPassed, [])
    else
      var m := UnitAt(pending, load, i);
      match m.up(current.networkState)
      case None => Forward(UpThrew(i), [])
      case Some(next) =>
        if !m.healthCheck(current.networkState, next) then Forward(CheckFailed(i, next), [])
        else
          var saved := Checkpoint(pending[i], next);
          var rest := ForwardFrom(pending, load, i + 1, saved);
          Forward(rest.stop, [saved] + rest.checkpoints)
  }

  /** How a rollback ended, the states it wrote and the `down` calls it made. */
  datatype Rollback = Rollback(downFailedAt: Option<nat>, writes: seq<SystemState>, calls: seq<Call>)

  /** `[Down(hi), Down(hi - 1), ..., Down(lo)]`. */
  function DownCalls(hi: int, lo: nat): seq<Call>
    decreases hi - lo + 1
  {
    if hi < lo then [] else [Down(hi)] + DownCalls(hi - 1, lo)
  }

  /** The rollback loop from index `i` down to 0, with the ledger `saves`
      and `ns` the current network state. */
  function RollbackFrom(pending: seq<MigrationData>, load: string -> Migration, saves: seq<SystemState>, i: int, ns: NetworkState): (rb: Rollback)
    requires -1 <= i < |pending| && i < |saves|
    decreases i + 1
    ensures rb.downFailedAt.None? ==> |rb.writes| == i + 1
    ensures rb.downFailedAt.Some? ==> 0 <= rb.downFailedAt.value <= i && |rb.writes| == i - rb.downFailedAt.value
  {
    if i < 0 then Rollback(None, [], [])
    else
      match UnitAt(pending, load, i).down(saves[i].networkState, ns)
      case None => Rollback(Some(i), [], [Down(i)])
      case Some(reverted) =>
        var written := SystemState(saves[i].migrationState, reverted);
        var rest := RollbackFrom(pending, load, saves, i - 1, reverted);
        Rollback(rest.downFailedAt, [written] + rest.writes, [Down(i)] + rest.calls)
  }

  /** The run, defined by recursion over the pending list. */
  function Reference(pending: seq<MigrationData>, load: string -> Migration, initial: SystemState): RunResult {
    if |pending| == 0 then RunResult(NothingToMigrate, [], [])
    else
      var f := ForwardFrom(pending, load, 0, initial);
      match f.stop
      case AllPassed => RunResult(Completed, f.checkpoints, ForwardCalls(|pending|))
      case UpThrew(k) => RunResult(UpFailed(k), f.checkpoints, ForwardCalls(k) + [Up(k)])
      case CheckFailed(k, afterUp) =>
        var rb := RollbackFrom(pending, load, [initial] + f.checkpoints, k, afterUp);
        RunResult(
          if rb.downFailedAt.None? then RolledBack(k) else RollbackAborted(k, rb.downFailedAt.value),
          f.checkpoints + rb.writes,
          ForwardCalls(k) + [Up(k), HealthCheck(k)] + rb.calls)
  }

  // ---- the run as the implementation writes it ----------------------------

  /** The calls the forward loop makes before it stops at `stop`. */
  function ForwardLoopCalls(stop: ForwardStop, n: nat): seq<Call> {
    match stop
    case AllPassed => ForwardCalls(n)
    case UpThrew(k) => ForwardCalls(k) + [Up(k)]
    case CheckFailed(k, _) => ForwardCalls(k) + [Up(k), HealthCheck(k)]
  }

  /** The forward loop over `migrationsData`: `up` on the current network
      state, then `healthCheck` with the ledger entry `stateSaves[index]` as
      the prior state, then the checkpoint, written and pushed on the
      ledger. It ends when every unit passed, when `up` threw, or at the
      failed health check (the `break`), and reports which in `stop`. */
  method RunForward(pending: seq<MigrationData>, load: string -> Migration, initialState: SystemState)
    returns (stop: ForwardStop, stateSaves: seq<SystemState>, calls: seq<Call>)
    ensures |stateSaves| > 0 && stateSaves[0] == initialState
    ensures Forward(stop, stateSaves[1..]) == ForwardFrom(pending, load, 0, initialState)
    ensures calls == ForwardLoopCalls(stop, |pending|)
  {
    var currentState := initialState;
    stateSaves := [initialState];
    calls := [];
    ghost var whole := ForwardFrom(pending, load, 0, initialState);

    var index := 0;
    while index < |pending|
      invariant index <= |pending|
      invariant |stateSaves| == index + 1 && stateSaves[0] == initialState
      invariant currentState == stateSaves[index]
      invariant calls == ForwardCalls(index)
      invariant whole.stop == ForwardFrom(pending, load, index, currentState).stop
      invariant whole.checkpoints == stateSaves[1..] + ForwardFrom(pending, load, index, currentState).checkpoints
    {
      var migration := load(pending[index].fullPath);
      calls := calls + [Up(index)];
      var upResult := migration.up(currentState.networkState);
      if upResult.None? {
        return UpThrew(index), stateSaves, calls;
      }
      currentState := currentState.(networkState := upResult.value);
      calls := calls + [HealthCheck(index)];
      if !migration.healthCheck(stateSaves[index].networkState, currentState.networkState) {
        return CheckFailed(index, currentState.networkState), stateSaves, calls;
      }
      currentState := Checkpoint(pending[index], currentState.networkState);
      ghost var tail := ForwardFrom(pending, load, index + 1, currentState);
      assert stateSaves[1..] + ([currentState] + tail.checkpoints) == (stateSaves + [currentState])[1..] + tail.checkpoints;
      stateSaves := stateSaves + [currentState];
      index := index + 1;
    }
    stop := AllPassed;
  }

  /** The reverse loop from `index` down to 0: `down` of each unit receives
      its ledger entry `stateSaves[i]` as the prior state and the current
      network state as the new one, and the written state takes its
      `latestMigration` from the same ledger entry. A throwing `down` ends
      the loop (`downThrew`). */
  method RunRollback(pending: seq<MigrationData>, load: string -> Migration, stateSaves: seq<SystemState>, index: nat, currentNetworkState: NetworkState)
    returns (downThrew: Option<nat>, writes: seq<SystemState>, calls: seq<Call>)
    requires index < |pending| && index < |stateSaves|
    ensures Rollback(downThrew, writes, calls) == RollbackFrom(pending, load, stateSaves, index, currentNetworkState)
  {
    ghost var rb := RollbackFrom(pending, load, stateSaves, index, currentNetworkState);
    var current := currentNetworkState;
    writes := [];
    calls := [];
    var i: int := index;
    while i >= 0
      invariant -1 <= i <= index
      invariant rb.downFailedAt == RollbackFrom(pending, load, stateSaves, i, current).downFailedAt
      invariant rb.writes == writes + RollbackFrom(pending, load, stateSaves, i, current).writes
      invariant rb.calls == calls + RollbackFrom(pending, load, stateSaves, i, current).calls
    {
      ghost var here := RollbackFrom(pending, load, stateSaves, i, current);
      var migration := load(pending[i].fullPath);
      calls := calls + [Down(i)];
      var downResult := migration.down(stateSaves[i].networkState, current);
      if downResult.None? {
        assert here == Rollback(Some(i), [], [Down(i)]);
        return Some(i), writes, calls;
      }
      var state := SystemState(stateSaves[i].migrationState, downResult.value);
      ghost var rest := RollbackFrom(pending, load, stateSaves, i - 1, downResult.value);
      assert here == Rollback(rest.downFailedAt, [state] + rest.writes, [Down(i)] + rest.calls);
      assert rb.writes == (writes + [state]) + rest.writes;
      assert rb.calls == calls + rest.calls;
      writes := writes + [state];
      current := downResult.value;
      i := i - 1;
    }
    downThrew := None;
  }

  /** The whole run: nothing to migrate, the forward loop, and the rollback
      when the forward loop was left by a failed health check. */
  method Migrate(pending: seq<MigrationData>, load: string -> Migration, initialState: SystemState) returns (r: RunResult)
    ensures r == Reference(pending, load, initialState)
    ensures |pending| == 0 ==> r == RunResult(NothingToMigrate, [], [])
  {
    if |pending| == 0 {
      return RunResult(NothingToMigrate, [], []);
    }
    var stop, stateSaves, calls := RunForward(pending, load, initialState);
    var writes := stateSaves[1..];
    assert stateSaves == [initialState] + writes;
    match stop {
      case AllPassed =>
        return RunResult(Completed, writes, calls);
      case UpThrew(index) =>
        return RunResult(UpFailed(index), writes, calls);
      case CheckFailed(index, afterUp) =>
        var downThrew, rbWrites, rbCalls := RunRollback(pending, load, stateSaves, index, afterUp);
        var outcome := if downThrew.None? then RolledBack(index) else RollbackAborted(index, downThrew.value);
        return RunResult(outcome, writes + rbWrites, calls + rbCalls);
    }
  }

  // ---- properties of the pieces -------------------------------------------

  /** The `latestMigration` of ledger entry `i`: the initial one for entry
      0, the key of unit `i - 1` after that. */
  function LedgerLatest(pending: seq<MigrationData>, initial: SystemState, i: nat): int
    requires i <= |pending|
  {
    if i == 0 then initial.migrationState.latestMigration else pending[i - 1].migrationTimestamp
  }

  /** Unit `m` (for the file `d`) took the ledger entry `prior` to the next
      ledger entry `next`: its `up` returned `next`'s network state, its
      health check passed on (prior, new), and `next` carries `d`'s key. */
  predicate StepPassed(m: Migration, d: MigrationData, prior: SystemState, next: SystemState) {
    && m.up(prior.networkState) == Some(next.networkState)
    && m.healthCheck(prior.networkState, next.networkState)
    && next == Checkpoint(d, next.networkState)
  }

  /** `stateSaves` as the forward loop from index `i` builds it. */
  function Ledger(pending: seq<MigrationData>, load: string -> Migration, i: nat, current: SystemState): seq<SystemState>
    requires i <= |pending|
  {
    [current] + ForwardFrom(pending, load, i, current).checkpoints
  }

  /** The ledger invariant: entry `j + 1` of `stateSaves` is obtained from
      entry `j` by unit `j` (its `up`, a passing health check on the pair,
      its key), and the forward loop stops exactly at the first unit whose
      `up` throws on its ledger entry or whose health check fails on
      (its ledger entry, its `up` result). */
  lemma {:induction false} LedgerInvariant(pending: seq<MigrationData>, load: string -> Migration, i: nat, current: SystemState)
    requires i <= |pending|
    ensures var saves := Ledger(pending, load, i, current);
      forall j :: 0 <= j < |saves| - 1 ==> StepPassed(UnitAt(pending, load, i + j), pending[i + j], saves[j], saves[j + 1])
    ensures var f := ForwardFrom(pending, load, i, current);
      var saves := Ledger(pending, load, i, current);
      f.stop.UpThrew? ==> UnitAt(pending, load, f.stop.at).up(saves[|saves| - 1].networkState).None?
    ensures var f := ForwardFrom(pending, load, i, current);
      var saves := Ledger(pending, load, i, current);
      f.stop.CheckFailed? ==>
        && UnitAt(pending, load, f.stop.at).up(saves[|saves| - 1].networkState) == Some(f.stop.afterUp)
        && !UnitAt(pending, load, f.stop.at).healthCheck(saves[|saves| - 1].networkState, f.stop.afterUp)
    decreases |pending| - i
  {
    if i < |pending| {
      var m := UnitAt(pending, load, i);
      var next := m.up(current.networkState);
      if next.Some? && m.healthCheck(current.networkState, next.value) {
        var saved := Checkpoint(pending[i], next.value);
        var tail := ForwardFrom(pending, load, i + 1, saved);
        assert ForwardFrom(pending, load, i, current) == Forward(tail.stop, [saved] + tail.checkpoints);
        LedgerInvariant(pending, load, i + 1, saved);
        var saves := Ledger(pending, load, i, current);
        var rest := Ledger(pending, load, i + 1, saved);
        assert saves == [current] + rest;
        forall j | 0 <= j < |saves| - 1
          ensures StepPassed(UnitAt(pending, load, i + j), pending[i + j], saves[j], saves[j + 1])
        {
          if j > 0 {
            assert saves[j] == rest[j - 1] && saves[j + 1] == rest[j];
            assert StepPassed(UnitAt(pending, load, i + 1 + (j - 1)), pending[i + 1 + (j - 1)], rest[j - 1], rest[j - 1 + 1]);
          }
        }
      }
    }
  }

  /** Checkpoint `j` of the forward loop from `i` carries the key of unit `i + j`. */
  lemma {:induction false} CheckpointKeys(pending: seq<MigrationData>, load: string -> Migration, i: nat, current: SystemState)
    requires i <= |pending|
    ensures forall j :: 0 <= j < |ForwardFrom(pending, load, i, current).checkpoints| ==>
      ForwardFrom(pending, load, i, current).checkpoints[j].migrationState.latestMigration == pending[i + j].migrationTimestamp
    decreases |pending| - i
  {
    if i < |pending| {
      var m := UnitAt(pending, load, i);
      var next := m.up(current.networkState);
      if next.Some? && m.healthCheck(current.networkState, next.value) {
        var saved := Checkpoint(pending[i], next.value);
        CheckpointKeys(pending, load, i + 1, saved);
        var cps := ForwardFrom(pending, load, i, current).checkpoints;
        var rest := ForwardFrom(pending, load, i + 1, saved).checkpoints;
        assert cps == [saved] + rest;
        forall j | 1 <= j < |cps|
          ensures cps[j].migrationState.latestMigration == pending[i + j].migrationTimestamp
        {
          assert cps[j] == rest[j - 1];
          assert rest[j - 1].migrationState.latestMigration == pending[i + 1 + (j - 1)].migrationTimestamp;
        }
      }
    }
  }

  /** Ledger entry `m` of a run from `initial` carries `LedgerLatest(m)`. */
  lemma LedgerKeys(pending: seq<MigrationData>, load: string -> Migration, initial: SystemState)
    ensures |Ledger(pending, load, 0, initial)| <= |pending| + 1
    ensures forall m :: 0 <= m < |Ledger(pending, load, 0, initial)| ==>
      Ledger(pending, load, 0, initial)[m].migrationState.latestMigration == LedgerLatest(pending, initial, m)
  {
    var cps := ForwardFrom(pending, load, 0, initial).checkpoints;
    var saves := Ledger(pending, load, 0, initial);
    CheckpointKeys(pending, load, 0, initial);
    forall m | 1 <= m < |saves|
      ensures saves[m].migrationState.latestMigration == LedgerLatest(pending, initial, m)
    {
      assert saves[m] == cps[m - 1];
    }
  }

  /** The rollback from `i` calls `down` on `i, i - 1, ...` down to 0, or
      down to the unit whose `down` threw, and rollback write `t` carries
      the `migrationState` of ledger entry `i - t`. */
  lemma {:induction false} RollbackLedger(pending: seq<MigrationData>, load: string -> Migration, saves: seq<SystemState>, i: int, ns: NetworkState)
    requires -1 <= i < |pending| && i < |saves|
    ensures var rb := RollbackFrom(pending, load, saves, i, ns);
      rb.calls == DownCalls(i, rb.downFailedAt.GetOr(0))
    ensures var rb := RollbackFrom(pending, load, saves, i, ns);
      forall t :: 0 <= t < |rb.writes| ==> rb.writes[t].migrationState == saves[i - t].migrationState
    decreases i + 1
  {
    if i >= 0 {
      var d := UnitAt(pending, load, i).down(saves[i].networkState, ns);
      if d.Some? {
        var rb := RollbackFrom(pending, load, saves, i, ns);
        var rest := RollbackFrom(pending, load, saves, i - 1, d.value);
        RollbackLedger(pending, load, saves, i - 1, d.value);
        assert rb.writes == [SystemState(saves[i].migrationState, d.value)] + rest.writes;
        forall t | 1 <= t < |rb.writes|
          ensures rb.writes[t].migrationState == saves[i - t].migrationState
        {
          assert rb.writes[t] == rest.writes[t - 1];
          assert rest.writes[t - 1].migrationState == saves[i - 1 - (t - 1)].migrationState;
        }
      }
    }
  }

  /** Rollback write `t` over the ledger of a run from `initial`, starting
      at `k`, carries the `latestMigration` of ledger entry `k - t`. */
  lemma RollbackLatest(pending: seq<MigrationData>, load: string -> Migration, initial: SystemState, k: nat, ns: NetworkState)
    requires k < |pending| && k < |Ledger(pending, load, 0, initial)|
    ensures forall t :: 0 <= t < |RollbackFrom(pending, load, Ledger(pending, load, 0, initial), k, ns).writes| ==>
      RollbackFrom(pending, load, Ledger(pending, load, 0, initial), k, ns).writes[t].migrationState.latestMigration
        == LedgerLatest(pending, initial, k - t)
  {
    var saves := Ledger(pending, load, 0, initial);
    var rb := RollbackFrom(pending, load, saves, k, ns);
    RollbackLedger(pending, load, saves, k, ns);
    LedgerKeys(pending, load, initial);
    forall t | 0 <= t < |rb.writes|
      ensures rb.writes[t].migrationState.latestMigration == LedgerLatest(pending, initial, k - t)
    {
      assert rb.writes[t].migrationState == saves[k - t].migrationState;
    }
  }

  /** The same, placed after the `k` checkpoints of the forward loop that
      stopped at `k`: write `t` of the run carries ledger entry `2k - t`. */
  lemma RollbackLatestInRun(pending: seq<MigrationData>, load: string -> Migration, initial: SystemState, k: nat, ns: NetworkState)
    requires k < |pending| && |ForwardFrom(pending, load, 0, initial).checkpoints| == k
    ensures forall t :: k <= t < k + |RollbackFrom(pending, load, Ledger(pending, load, 0, initial), k, ns).writes| ==>
      (ForwardFrom(pending, load, 0, initial).checkpoints + RollbackFrom(pending, load, Ledger(pending, load, 0, initial), k, ns).writes)[t]
        .migrationState.latestMigration == LedgerLatest(pending, initial, 2 * k - t)
  {
    var cps := ForwardFrom(pending, load, 0, initial).checkpoints;
    var rb := RollbackFrom(pending, load, Ledger(pending, load, 0, initial), k, ns);
    RollbackLatest(pending, load, initial, k, ns);
    forall t | k <= t < k + |rb.writes|
      ensures (cps + rb.writes)[t].migrationState.latestMigration == LedgerLatest(pending, initial, 2 * k - t)
    {
      assert (cps + rb.writes)[t] == rb.writes[t - k];
    }
  }

  /** The `newState` handed to the `t`-th `down` of a rollback: the state
      after `up` for the first, the previous `down`'s result after that. */
  function NewStateAt(afterUp: NetworkState, writes: seq<SystemState>, t: nat): NetworkState
    requires t <= |writes|
  {
    if t == 0 then afterUp else writes[t - 1].networkState
  }

  /** Unit `i - t`, the `t`-th one reverted, receives its ledger entry as
      `initialState` and the current network state as `newState`, and the
      state written after it holds its result. */
  lemma {:induction false} RollbackArguments(pending: seq<MigrationData>, load: string -> Migration, saves: seq<SystemState>, i: int, ns: NetworkState)
    requires -1 <= i < |pending| && i < |saves|
    ensures forall t {:trigger NewStateAt(ns, RollbackFrom(pending, load, saves, i, ns).writes, t)} ::
      0 <= t < |RollbackFrom(pending, load, saves, i, ns).writes| ==>
      var writes := RollbackFrom(pending, load, saves, i, ns).writes;
      UnitAt(pending, load, i - t).down(saves[i - t].networkState, NewStateAt(ns, writes, t)) == Some(writes[t].networkState)
    decreases i + 1
  {
    if i >= 0 {
      var d := UnitAt(pending, load, i).down(saves[i].networkState, ns);
      if d.Some? {
        var rb := RollbackFrom(pending, load, saves, i, ns);
        var rest := RollbackFrom(pending, load, saves, i - 1, d.value);
        RollbackArguments(pending, load, saves, i - 1, d.value);
        assert rb.writes == [SystemState(saves[i].migrationState, d.value)] + rest.writes;
        forall t | 1 <= t < |rb.writes|
          ensures UnitAt(pending, load, i - t).down(saves[i - t].networkState, NewStateAt(ns, rb.writes, t)) == Some(rb.writes[t].networkState)
        {
          assert rb.writes[t] == rest.writes[t - 1];
          assert NewStateAt(ns, rb.writes, t) == NewStateAt(d.value, rest.writes, t - 1);
          assert UnitAt(pending, load, i - 1 - (t - 1)).down(saves[i - 1 - (t - 1)].networkState, NewStateAt(d.value, rest.writes, t - 1))
            == Some(rest.writes[t - 1].networkState);
        }
      }
    }
  }

  /** A rollback that aborts does so on a `down` that threw on its ledger
      entry and the current network state. */
  lemma {:induction false} RollbackAbortArguments(pending: seq<MigrationData>, load: string -> Migration, saves: seq<SystemState>, i: int, ns: NetworkState)
    requires -1 <= i < |pending| && i < |saves|
    ensures var rb := RollbackFrom(pending, load, saves, i, ns);
      rb.downFailedAt.Some? ==>
        UnitAt(pending, load, rb.downFailedAt.value).down(saves[rb.downFailedAt.value].networkState, NewStateAt(ns, rb.writes, |rb.writes|)).None?
    decreases i + 1
  {
    if i >= 0 {
      var d := UnitAt(pending, load, i).down(saves[i].networkState, ns);
      if d.Some? {
        var rb := RollbackFrom(pending, load, saves, i, ns);
        var rest := RollbackFrom(pending, load, saves, i - 1, d.value);
        RollbackAbortArguments(pending, load, saves, i - 1, d.value);
        assert rb.writes == [SystemState(saves[i].migrationState, d.value)] + rest.writes;
        assert rb.downFailedAt == rest.downFailedAt;
        assert NewStateAt(ns, rb.writes, |rb.writes|) == NewStateAt(d.value, rest.writes, |rest.writes|);
      }
    }
  }

  /** With units whose `down` hands back its `initialState` argument, the
      rollback from `i` completes and write `t` is ledger entry `i - t`. */
  lemma {:induction false} RestoringRollback(pending: seq<MigrationData>, load: string -> Migration, saves: seq<SystemState>, i: int, ns: NetworkState)
    requires -1 <= i < |pending| && i < |saves|
    requires forall u :: 0 <= u < |pending| ==> DownRestoresPrior(UnitAt(pending, load, u))
    ensures var rb := RollbackFrom(pending, load, saves, i, ns);
      rb.downFailedAt.None? && forall t :: 0 <= t < |rb.writes| ==> rb.writes[t] == saves[i - t]
    decreases i + 1
  {
    if i >= 0 {
      assert UnitAt(pending, load, i).down(saves[i].networkState, ns) == Some(saves[i].networkState);
      var rb := RollbackFrom(pending, load, saves, i, ns);
      var rest := RollbackFrom(pending, load, saves, i - 1, saves[i].networkState);
      RestoringRollback(pending, load, saves, i - 1, saves[i].networkState);
      assert rb.writes == [saves[i]] + rest.writes;
      forall t | 1 <= t < |rb.writes|
        ensures rb.writes[t] == saves[i - t]
      {
        assert rb.writes[t] == rest.writes[t - 1];
        assert rest.writes[t - 1] == saves[i - 1 - (t - 1)];
      }
    }
  }

  // ---- properties of the run ----------------------------------------------

  /** The run after a failed health check at `k`: the checkpoints, then the
      rollback over the ledger from `k`. */
  lemma ReferenceAfterCheckFailed(pending: seq<MigrationData>, load: string -> Migration, initial: SystemState)
    requires |pending| > 0 && ForwardFrom(pending, load, 0, initial).stop.CheckFailed?
    ensures var f := ForwardFrom(pending, load, 0, initial);
      var k := f.stop.at;
      var rb := RollbackFrom(pending, load, Ledger(pending, load, 0, initial), k, f.stop.afterUp);
      Reference(pending, load, initial) == RunResult(
        if rb.downFailedAt.None? then RolledBack(k) else RollbackAborted(k, rb.downFailedAt.value),
        f.checkpoints + rb.writes,
        ForwardCalls(k) + [Up(k), HealthCheck(k)] + rb.calls)
  {
  }

  /** The pieces of a run that rolled back: the forward loop stopped at the
      failed health check of unit `k` with `afterUp` returned by its `up`,
      after the checkpoints `cps`, and `rb` is the rollback from `k`. */
  lemma RollbackRun(pending: seq<MigrationData>, load: string -> Migration, initial: SystemState)
    returns (k: nat, afterUp: NetworkState, cps: seq<SystemState>, rb: Rollback)
    requires Reference(pending, load, initial).outcome.RolledBack? || Reference(pending, load, initial).outcome.RollbackAborted?
    ensures ForwardFrom(pending, load, 0, initial) == Forward(CheckFailed(k, afterUp), cps)
    ensures k < |pending| && |cps| == k
    ensures rb == RollbackFrom(pending, load, Ledger(pending, load, 0, initial), k, afterUp)
    ensures Reference(pending, load, initial).writes == cps + rb.writes
    ensures Reference(pending, load, initial).calls == ForwardCalls(k) + [Up(k), HealthCheck(k)] + rb.calls
    ensures Reference(pending, load, initial).outcome.checkFailedAt == k
    ensures Reference(pending, load, initial).outcome.RolledBack? <==> rb.downFailedAt.None?
    ensures Reference(pending, load, initial).outcome.RollbackAborted? ==>
      rb.downFailedAt == Some(Reference(pending, load, initial).outcome.downFailedAt)
  {
    var f := ForwardFrom(pending, load, 0, initial);
    ReferenceAfterCheckFailed(pending, load, initial);
    k, afterUp, cps := f.stop.at, f.stop.afterUp, f.checkpoints;
    rb := RollbackFrom(pending, load, Ledger(pending, load, 0, initial), k, afterUp);
  }

  /** The number of units checkpointed by a run with this outcome. */
  function ForwardCount(outcome: Outcome, n: nat): nat {
    match outcome
    case NothingToMigrate => 0
    case Completed => n
    case UpFailed(k) => k
    case RolledBack(k) => k
    case RollbackAborted(k, _) => k
  }

  /** The run's writes begin with one checkpoint per unit that passed, in
      pending order, each carrying that unit's key. */
  lemma CheckpointOrder(pending: seq<MigrationData>, load: string -> Migration, initial: SystemState)
    ensures ForwardCount(Reference(pending, load, initial).outcome, |pending|) <= |pending|
    ensures ForwardCount(Reference(pending, load, initial).outcome, |pending|) <= |Reference(pending, load, initial).writes|
    ensures forall j :: 0 <= j < ForwardCount(Reference(pending, load, initial).outcome, |pending|) ==>
      Reference(pending, load, initial).writes[j].migrationState.latestMigration == pending[j].migrationTimestamp
  {
    if |pending| > 0 {
      var f := ForwardFrom(pending, load, 0, initial);
      CheckpointKeys(pending, load, 0, initial);
      var r := Reference(pending, load, initial);
      if f.stop.CheckFailed? {
        ReferenceAfterCheckFailed(pending, load, initial);
      }
      var n := ForwardCount(r.outcome, |pending|);
      assert n == |f.checkpoints|;
      forall j | 0 <= j < n
        ensures r.writes[j].migrationState.latestMigration == pending[j].migrationTimestamp
      {
        assert r.writes[j] == f.checkpoints[j];
      }
    }
  }

  /** With strictly ascending keys in the pending list, the checkpoints'
      `latestMigration` values strictly ascend. */
  lemma CheckpointsAscend(pending: seq<MigrationData>, load: string -> Migration, initial: SystemState)
    requires StrictlyAscending(pending)
    ensures var r := Reference(pending, load, initial);
      forall a, b :: 0 <= a < b < ForwardCount(r.outcome, |pending|) ==>
        r.writes[a].migrationState.latestMigration < r.writes[b].migrationState.latestMigration
  {
    CheckpointOrder(pending, load, initial);
  }

  /** A throwing `up` ends the run: no `down` is invoked, the writes are the
      checkpoints of the units before it, and the last state written is the
      previous checkpoint. */
  lemma UpFailureAbortsWithoutRollback(pending: seq<MigrationData>, load: string -> Migration, initial: SystemState)
    requires Reference(pending, load, initial).outcome.UpFailed?
    ensures var r := Reference(pending, load, initial);
      var k := r.outcome.at;
      && k < |pending|
      && |r.writes| == k
      && r.calls == ForwardCalls(k) + [Up(k)]
      && (forall c :: c in r.calls ==> !c.Down?)
      && LastWritten(initial, r.writes).migrationState.latestMigration == LedgerLatest(pending, initial, k)
    ensures var r := Reference(pending, load, initial);
      && r.outcome.at < |Ledger(pending, load, 0, initial)|
      && LastWritten(initial, r.writes) == Ledger(pending, load, 0, initial)[r.outcome.at]
  {
    var f := ForwardFrom(pending, load, 0, initial);
    if f.stop.CheckFailed? {
      ReferenceAfterCheckFailed(pending, load, initial);
    }
    var k := f.stop.at;
    var r := Reference(pending, load, initial);
    assert r == RunResult(UpFailed(k), f.checkpoints, ForwardCalls(k) + [Up(k)]);
    ForwardCallsHaveNoDown(k);
    LedgerKeys(pending, load, initial);
    assert LastWritten(initial, r.writes) == Ledger(pending, load, 0, initial)[k];
  }

  /** A failed health check at `k` followed by a complete rollback: `down`
      runs on units `k, k - 1, ..., 0` in that order, after the `up` and
      health check of unit `k`, and one state is written per `down`. */
  lemma RollbackOrder(pending: seq<MigrationData>, load: string -> Migration, initial: SystemState)
    requires Reference(pending, load, initial).outcome.RolledBack?
    ensures var r := Reference(pending, load, initial);
      var k := r.outcome.checkFailedAt;
      && k < |pending|
      && r.calls == ForwardCalls(k) + [Up(k), HealthCheck(k)] + DownCalls(k, 0)
      && |r.writes| == 2 * k + 1
  {
    var k, afterUp, cps, rb := RollbackRun(pending, load, initial);
    RollbackLedger(pending, load, Ledger(pending, load, 0, initial), k, afterUp);
  }

  /** After a complete rollback from `k`, write `k + t` carries the
      `latestMigration` of ledger entry `k - t`, so the states written walk
      the ledger back and the last one carries the initial `latestMigration`. */
  lemma RollbackWalksLedgerBack(pending: seq<MigrationData>, load: string -> Migration, initial: SystemState)
    requires Reference(pending, load, initial).outcome.RolledBack?
    ensures var r := Reference(pending, load, initial);
      var k := r.outcome.checkFailedAt;
      && (forall t :: k <= t < |r.writes| ==>
            r.writes[t].migrationState.latestMigration == LedgerLatest(pending, initial, 2 * k - t))
      && LastWritten(initial, r.writes).migrationState.latestMigration == initial.migrationState.latestMigration
  {
    var k, afterUp, cps, rb := RollbackRun(pending, load, initial);
    RollbackLatestInRun(pending, load, initial, k, afterUp);
    assert LastWritten(initial, cps + rb.writes) == (cps + rb.writes)[2 * k];
  }

  /** A `down` that throws stops the rollback: `down` was called on units
      `k` down to the failing `j` only, and one state was written per
      `down` that returned. */
  lemma RollbackAbortStops(pending: seq<MigrationData>, load: string -> Migration, initial: SystemState)
    requires Reference(pending, load, initial).outcome.RollbackAborted?
    ensures var r := Reference(pending, load, initial);
      var k := r.outcome.checkFailedAt;
      var j := r.outcome.downFailedAt;
      && j <= k < |pending|
      && r.calls == ForwardCalls(k) + [Up(k), HealthCheck(k)] + DownCalls(k, j)
      && |r.writes| == k + (k - j)
  {
    var k, afterUp, cps, rb := RollbackRun(pending, load, initial);
    RollbackLedger(pending, load, Ledger(pending, load, 0, initial), k, afterUp);
  }

  /** After an aborted rollback the last state written is the one written
      just before the throwing `down`: ledger entry `j + 1` of the failing
      `j`, or the last checkpoint when the first `down` threw. */
  lemma RollbackAbortLastWritten(pending: seq<MigrationData>, load: string -> Migration, initial: SystemState)
    requires Reference(pending, load, initial).outcome.RollbackAborted?
    ensures var r := Reference(pending, load, initial);
      var k := r.outcome.checkFailedAt;
      var j := r.outcome.downFailedAt;
      && j <= k < |pending|
      && LastWritten(initial, r.writes).migrationState.latestMigration == LedgerLatest(pending, initial, if j < k then j + 1 else k)
  {
    var k, afterUp, cps, rb := RollbackRun(pending, load, initial);
    AbortedRollbackLast(pending, load, initial, k, afterUp);
  }

  /** The piece of `RollbackAbortLastWritten` about the forward loop's
      checkpoints followed by an aborted rollback from `k`. */
  lemma AbortedRollbackLast(pending: seq<MigrationData>, load: string -> Migration, initial: SystemState, k: nat, ns: NetworkState)
    requires k < |pending| && |ForwardFrom(pending, load, 0, initial).checkpoints| == k
    requires RollbackFrom(pending, load, Ledger(pending, load, 0, initial), k, ns).downFailedAt.Some?
    ensures var rb := RollbackFrom(pending, load, Ledger(pending, load, 0, initial), k, ns);
      var j := rb.downFailedAt.value;
      LastWritten(initial, ForwardFrom(pending, load, 0, initial).checkpoints + rb.writes).migrationState.latestMigration
        == LedgerLatest(pending, initial, if j < k then j + 1 else k)
  {
    var cps := ForwardFrom(pending, load, 0, initial).checkpoints;
    var saves := Ledger(pending, load, 0, initial);
    var rb := RollbackFrom(pending, load, saves, k, ns);
    var j := rb.downFailedAt.value;
    if j < k {
      RollbackLatest(pending, load, initial, k, ns);
      assert (cps + rb.writes)[k + (k - j) - 1] == rb.writes[k - j - 1];
    } else {
      LedgerKeys(pending, load, initial);
      assert rb.writes == [];
      assert LastWritten(initial, cps + rb.writes) == saves[k];
    }
  }

  /** When every unit's `down` returns its `initialState` argument, a failed
      health check always ends in a complete rollback, each rollback write
      is exactly the matching ledger entry, and the last state written is
      the initial state. */
  lemma FullRollbackRestoresInitial(pending: seq<MigrationData>, load: string -> Migration, initial: SystemState)
    requires forall u :: 0 <= u < |pending| ==> DownRestoresPrior(UnitAt(pending, load, u))
    requires |pending| > 0 && ForwardFrom(pending, load, 0, initial).stop.CheckFailed?
    ensures Reference(pending, load, initial).outcome.RolledBack?
    ensures LastWritten(initial, Reference(pending, load, initial).writes) == initial
  {
    var f := ForwardFrom(pending, load, 0, initial);
    ReferenceAfterCheckFailed(pending, load, initial);
    var k := f.stop.at;
    var saves := Ledger(pending, load, 0, initial);
    var rb := RollbackFrom(pending, load, saves, k, f.stop.afterUp);
    RestoringRollback(pending, load, saves, k, f.stop.afterUp);
    var r := Reference(pending, load, initial);
    assert r.writes == f.checkpoints + rb.writes;
    assert r.writes[|r.writes| - 1] == rb.writes[k] == saves[0];
  }

  /** A completed run wrote one checkpoint per pending unit, the last one
      carrying the key of the last unit. */
  lemma CompletedWritesAll(pending: seq<MigrationData>, load: string -> Migration, initial: SystemState)
    requires Reference(pending, load, initial).outcome.Completed?
    ensures |pending| > 0 && |Reference(pending, load, initial).writes| == |pending|
    ensures LastWritten(initial, Reference(pending, load, initial).writes).migrationState.latestMigration
      == pending[|pending| - 1].migrationTimestamp
  {
    var f := ForwardFrom(pending, load, 0, initial);
    if f.stop.CheckFailed? {
      ReferenceAfterCheckFailed(pending, load, initial);
    }
    CheckpointOrder(pending, load, initial);
  }

  /** The ledger entry a run leaves the state file at: the first unit whose
      work is not recorded there. When the `down` of unit `j` throws during
      the rollback from `k`, that is `j + 1`, the last unit whose `down`
      returned, or `k` itself when the first `down` threw. */
  function ResumeIndex(outcome: Outcome, n: nat): nat {
    match outcome
    case NothingToMigrate => 0
    case Completed => n
    case UpFailed(k) => k
    case RolledBack(_) => 0
    case RollbackAborted(k, j) => if j < k then j + 1 else k
  }

  /** Whatever the outcome, the last `latestMigration` written is that of
      ledger entry `ResumeIndex`: the initial one after nothing to migrate
      or a complete rollback, the key of the last unit after a completed
      run, that of the unit before a throwing `up`, and the one restored
      last before a throwing `down`. */
  lemma LastWrittenIsLedgerEntry(pending: seq<MigrationData>, load: string -> Migration, initial: SystemState)
    ensures ResumeIndex(Reference(pending, load, initial).outcome, |pending|) <= |pending|
    ensures LastWritten(initial, Reference(pending, load, initial).writes).migrationState.latestMigration
      == LedgerLatest(pending, initial, ResumeIndex(Reference(pending, load, initial).outcome, |pending|))
  {
    var r := Reference(pending, load, initial);
    match r.outcome
    case NothingToMigrate =>
      assert r.writes == [];
    case Completed =>
      CompletedWritesAll(pending, load, initial);
    case UpFailed(k) =>
      UpFailureAbortsWithoutRollback(pending, load, initial);
    case RolledBack(k) =>
      RollbackWalksLedgerBack(pending, load, initial);
    case RollbackAborted(k, j) =>
      RollbackAbortLastWritten(pending, load, initial);
  }
}
