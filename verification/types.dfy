/** The Some/None datatype used wherever the source may throw or read a missing value. */
module Wrappers {

  datatype Option<+T> = None | Some(value: T) {

    /** The wrapped value, or `default` when there is none. */
    function GetOr(default: T): T {
      match this
      case Some(v) => v
      case None => default
    }
  }
}

/**
 The data the migration engine works on: the persisted system state, the
 interface every migration unit exposes, and the external chain the units
 talk to (abstracted to oracles).
 */
module Types {
  import opened Wrappers

  /** A value of the network state: a deployed address, or a nested record
      such as `BNT: { token, governance }`. */
  datatype Value = Address(addr: string) | Record(fields: map<string, Value>)

  /** The open-ended mapping from component name to deployment data. */
  type NetworkState = map<string, Value>

  datatype MigrationState = MigrationState(latestMigration: int)

  /** The persisted document `{ migrationState: { latestMigration }, networkState }`. */
  datatype SystemState = SystemState(migrationState: MigrationState, networkState: NetworkState)

  /** `latestMigration = -1` means that no migration has been applied. */
  const NoMigration: int := -1

  /** The state a fresh environment starts from. */
  const DefaultState: SystemState := SystemState(MigrationState(NoMigration), map[])

  /** A migration unit as the engine sees it. Each operation either returns
      (Some / true) or throws (None / false); the signer, the contract
      factories and the execution functions are folded into the closures. */
  datatype Migration = Migration(
    up: NetworkState -> Option<NetworkState>,
    healthCheck: (NetworkState, NetworkState) -> bool,
    down: (NetworkState, NetworkState) -> Option<NetworkState>)

  /** A unit whose `down` hands back its `initialState` argument whatever the new state. */
  ghost predicate DownRestoresPrior(m: Migration) {
    forall prior, next :: m.down(prior, next) == Some(prior)
  }

  /** The external chain a unit talks to, as oracles: the signer's address,
      `deployProxy(contract, proxyAdmin, initArgs)` (None when the deployment
      reverts), `owner()` of a contract, and whether an account holds
      `ROLE_ADMIN` on a contract. */
  datatype Chain = Chain(
    signer: string,
    deployProxy: (string, string, seq<string>) -> Option<string>,
    owner: string -> string,
    hasAdminRole: (string, string) -> bool)

  /** The address stored under `key`, if the state holds one there. */
  function AddressAt(s: NetworkState, key: string): (r: Option<string>)
    ensures r.Some? <==> key in s && s[key].Address?
    ensures r.Some? ==> s[key] == Address(r.value)
  {
    if key in s && s[key].Address? then Some(s[key].addr) else None
  }

  /** One invocation of a unit operation by an engine, by pending-list index. */
  datatype Call = Up(index: nat) | HealthCheck(index: nat) | Down(index: nat)

  /** `[Up(0), HealthCheck(0), ..., Up(n-1), HealthCheck(n-1)]`: the calls of
      `n` units that all passed their health check. */
  function ForwardCalls(n: nat): (r: seq<Call>)
    ensures |r| == 2 * n
  {
    if n == 0 then [] else ForwardCalls(n - 1) + [Up(n - 1), HealthCheck(n - 1)]
  }

  lemma {:induction false} ForwardCallsHaveNoDown(n: nat)
    ensures forall c :: c in ForwardCalls(n) ==> !c.Down?
  {
    if n > 0 {
      ForwardCallsHaveNoDown(n - 1);
    }
  }

  /** The state persisted last: the final write, or what was there before. */
  function LastWritten(before: SystemState, writes: seq<SystemState>): SystemState {
    if |writes| == 0 then before else writes[|writes| - 1]
  }
}
