# Migration engine of the v3 contracts deployment

This project models the `migrate` task that deploys and upgrades the v3
contracts as an ordered series of migration units. It covers:

- the current engine, `packages/v3/migration/tasks/migrate.ts`, with
  checkpoints and rollback;
- the earlier forward-only engine, `packages/v3/migration/engine/tasks/migrate.ts`;
- two units, `2_deploy_networkSettings.ts` and `4_deploy_vault.ts`.

The task does three things in order:

1. **Initialisation.** It chooses the state a run starts from. A reset
   deletes the network's folder. With reset on a fork, the original
   network's state is copied in; if that is missing, the process exits.
   If there is no state file, the chosen state is written. Otherwise the
   stored state file is used as it is.
2. **Discovery.** It lists the `.ts` files of the migration folder. The key
   of a file is `Number(fileName.split('_')[0])`. It keeps the files whose
   key is greater than `latestMigration` and sorts them by key with a
   stable sort.
3. **The run.**
   - Each unit's `up` runs on the current network state.
   - Its `healthCheck` then receives the ledger entry `stateSaves[index]`
     (the state before the unit) and the new state.
   - A passing check is written to the state file as a checkpoint and
     pushed on `stateSaves`.
   - A throwing `up` ends the run at once, with no rollback.
   - A failing health check starts the rollback. `down` runs on the failed
     unit and then on every earlier unit, newest first. Each `down` gets its
     ledger entry and the current network state. A state is written after
     each `down`, carrying that ledger entry's `latestMigration`.
   - A throwing `down` ends the rollback where it is.
   - The earlier engine has no rollback. Its health check sees only the new
     state, and its run ends at the first failure.

Modules and files:

| file | module | contents |
|---|---|---|
| `types.dfy` | `Wrappers`, `Types` | `Option`; the persisted `SystemState`, the unit interface `Migration`, the chain oracles, the `Call` trace |
| `initialization.dfy` | `Initialization` | choice of the initial state |
| `discovery.dfy` | `Discovery` | the key parse, the filter, the stable sort, and the effect of raising `latestMigration` |
| `engine.dfy` | `Engine` | the run as a recursive reference (`Reference`), the loops of the implementation as methods proved equal to it, and the properties of the run |
| `legacy_engine.dfy` | `LegacyEngine` | the forward-only run |
| `units.dfy` | `NetworkSettings`, `Vault` | migration units 2 and 4 |
| `task.dfy` | `Task` | the whole task, and what running it again finds |

The model has no file system. Persistence is the ordered list of states
written to the state file. The chain (deploying behind a proxy, `owner()`,
`hasRole`) and the import of a unit by path are parameters of the model
(`Chain`, `load`).

Behaviour worth knowing before reading the contracts:

- **Keys are never checked for duplicates.**
  - A name whose key is not a number is silently dropped, because
    `NaN > latest` is false (`packages/v3/migration/tasks/migrate.ts:177-178`).
  - Entries with equal keys keep their listing order, because the sort
    comparator returns 0 and `Array.prototype.sort` is stable.
  - `Task.RerunSkipsUnitSharingKey` shows a consequence. Suppose the unit
    whose `up` threw shares its key with the unit checkpointed before it.
    Then running the task again never retries that unit.
  - The resumption lemmas (`Task.RerunResumes`, `Task.LegacyRerunResumes`)
    therefore assume distinct keys.
- **Writes and errors.**
  - The state file is written with a plain `writeFileSync`
    (`packages/v3/migration/tasks/migrate.ts:135`).
  - An exception in `down` propagates out of the rollback loop
    (`packages/v3/migration/tasks/migrate.ts:85`). The model reports it as
    the outcome `RollbackAborted`, and the run stops there.
  - On an empty pending list, the source logs "Nothing to migrate" and
    returns. The model's outcome for this is `NothingToMigrate`.

## Model

| member | source | states |
|---|---|---|
| Initialization.SelectInitialState | packages/v3/migration/tasks/migrate.ts:116-167 | The process exits exactly when reset is asked on a fork whose original network has no state file. With reset on a fork, the source state is copied in and written. With no state file, or a reset without fork, the default state (`latestMigration = -1`, empty network state) is written. Otherwise the stored state file is used and nothing is written. |
| Initialization.InitialStateIsPersisted | packages/v3/migration/tasks/migrate.ts:163-167 | After initialisation the state file holds the initial state. At most one state is written. Starting again without reset selects that same state and writes nothing. |
| Initialization.ForkExitLeavesNoStateFile | packages/v3/migration/tasks/migrate.ts:117-159 | On the exit for want of the fork's source state no state file is left, because the reset deleted the folder before the exit. |
| Discovery.SplitHead | packages/v3/migration/tasks/migrate.ts:177 | `split('_')[0]` is the longest prefix without `_`. It is followed by `_`, or it is the whole name. |
| Discovery.ParseNumber | packages/v3/migration/tasks/migrate.ts:177 | A token has a number exactly when it consists of decimal digits. The empty token is 0, as `Number("") === 0`, and the value is never negative. |
| Discovery.ParseNumberLeadingZero | packages/v3/migration/tasks/migrate.ts:177 | A leading `0` does not change the number of a token, as `Number("007") === 7`, and a token that is NaN stays NaN. |
| Discovery.ParseDecimalString | packages/v3/migration/tasks/migrate.ts:177 | Parsing the decimal representation of `n` gives `n` back. |
| Discovery.KeyOfNumberedName | packages/v3/migration/tasks/migrate.ts:176-177 | A file named `<n>_<rest>` has key `n`. |
| Discovery.KeyExamples | packages/v3/migration/tasks/migrate.ts:176-177 | `_x.ts` has key 0, `007_vault.ts` has key 7, and `2a_vault.ts` has no key (NaN). |
| Discovery.NonNumericKeyDropped | packages/v3/migration/tasks/migrate.ts:177-178 | A file whose prefix before `_` is not all digits is never selected, whatever `latestMigration` is. |
| Discovery.Collect | packages/v3/migration/tasks/migrate.ts:172-185 | An entry is collected exactly when it comes from a listed `.ts` file whose key is greater than `latestMigration`. There are never more entries than files. |
| Discovery.CollectAppend | packages/v3/migration/tasks/migrate.ts:172-185 | The filter keeps the listing order: the entries collected from a listing split in two are those of the first part followed by those of the second. |
| Discovery.SortByKeySorted | packages/v3/migration/tasks/migrate.ts:188-190 | The sorted list is ascending by key. |
| Discovery.SortByKeyPermutes | packages/v3/migration/tasks/migrate.ts:188-190 | The sorted list is a permutation of its input. |
| Discovery.SortByKeyStable | packages/v3/migration/tasks/migrate.ts:188-190 | Entries sharing a key keep their relative order, as `Array.prototype.sort` keeps them when the comparator returns 0. |
| Discovery.PendingPermutes | packages/v3/migration/tasks/migrate.ts:170-190 | Sorting only reorders: the pending list is a permutation of the filter loop's output, the same entries with the same multiplicities. |
| Discovery.PendingSelects | packages/v3/migration/tasks/migrate.ts:172-190 | An entry is pending exactly when it is the data of a listed `.ts` file whose key parses and is above `latestMigration`. |
| Discovery.PendingCorrect | packages/v3/migration/tasks/migrate.ts:170-190 | The pending list is sorted by key and every key is above `latestMigration`. Entries with equal keys keep the listing order. With distinct keys the list is strictly ascending. |
| Discovery.AboveMembers | packages/v3/migration/tasks/migrate.ts:178 | Filtering on a key keeps exactly the entries whose key is greater than it. |
| Discovery.PendingRaised | packages/v3/migration/tasks/migrate.ts:172-190 | Listing against a larger `latestMigration` gives the old pending list without the entries at or below the new value, in the same order. |
| Discovery.PendingAbove | packages/v3/migration/tasks/migrate.ts:172-190 | With distinct keys, raising `latestMigration` to the key of pending entry `p - 1` leaves exactly the old list from `p` on. |
| Discovery.PendingExhausted | packages/v3/migration/tasks/migrate.ts:172-190 | Raising `latestMigration` to the largest pending key leaves nothing pending. |
| Engine.RunForward | packages/v3/migration/tasks/migrate.ts:26-74 | The forward loop, statement by statement. It computes the same stop point and checkpoints as the reference forward loop, keeps the initial state as ledger entry 0, and makes the calls `Up(0), HealthCheck(0), ...` up to where it stopped. |
| Engine.RunRollback | packages/v3/migration/tasks/migrate.ts:77-101 | The reverse loop, statement by statement. It computes the same writes, calls and failing unit as the reference rollback. |
| Engine.Migrate | packages/v3/migration/tasks/migrate.ts:12-104 | The whole run, as the implementation performs it, equals the recursive reference run. An empty pending list writes nothing and calls nothing. |
| Engine.LedgerInvariant | packages/v3/migration/tasks/migrate.ts:26-67 | Ledger entry `j + 1` comes from entry `j` by unit `j`: its `up` returned the new network state, its health check passed on the pair, and the entry carries its key. The loop stops at the first unit whose `up` throws on its ledger entry, or whose health check fails on the pair (ledger entry, result of `up`). |
| Engine.LedgerKeys | packages/v3/migration/tasks/migrate.ts:26-67 | Ledger entry 0 carries the initial `latestMigration`, and entry `m > 0` the key of unit `m - 1`. |
| Engine.CheckpointOrder | packages/v3/migration/tasks/migrate.ts:61-67 | The run's writes begin with one checkpoint per passed unit, in pending order, each carrying that unit's key. |
| Engine.CheckpointsAscend | packages/v3/migration/tasks/migrate.ts:61-67 | With strictly ascending keys, the checkpoints' `latestMigration` strictly ascends. |
| Engine.CompletedWritesAll | packages/v3/migration/tasks/migrate.ts:31-74 | A completed run writes exactly one checkpoint per unit. The last one carries the last unit's key. |
| Engine.UpFailureAbortsWithoutRollback | packages/v3/migration/tasks/migrate.ts:38-72 | A throwing `up` at `k` ends the run. The writes are the `k` earlier checkpoints, the calls are the earlier ones plus `Up(k)`, no `down` is called, and the state file is left at ledger entry `k`. |
| Engine.RollbackOrder | packages/v3/migration/tasks/migrate.ts:46-101 | A failed health check at `k` followed by a complete rollback calls `down` on `k, k - 1, ..., 0` in that order, after `Up(k), HealthCheck(k)`, and writes `2k + 1` states. |
| Engine.RollbackWalksLedgerBack | packages/v3/migration/tasks/migrate.ts:93-99 | Rollback write `k + t` carries the `latestMigration` of ledger entry `k - t`, so the last one written is the initial `latestMigration`. |
| Engine.RollbackLedger | packages/v3/migration/tasks/migrate.ts:79-100 | The rollback from `i` calls `down` on `i` down to 0, or down to the unit whose `down` threw. Rollback write `t` carries the `migrationState` of ledger entry `i - t`. |
| Engine.RollbackArguments | packages/v3/migration/tasks/migrate.ts:85-91 | The `t`-th unit reverted, `i - t`, receives its ledger entry as `initialState` and the current network state as `newState`. That is the result of `up` for the first unit reverted, and otherwise the previous `down`'s result. Its result is the written network state. |
| Engine.RollbackAbortArguments | packages/v3/migration/tasks/migrate.ts:85-91 | An aborted rollback stops at a `down` that threw on (its ledger entry, the current network state). |
| Engine.RollbackAbortStops | packages/v3/migration/tasks/migrate.ts:79-100 | A throwing `down` at `j` stops the rollback. `down` was called on `k` down to `j` only, and one state was written per `down` that returned. |
| Engine.RollbackAbortLastWritten | packages/v3/migration/tasks/migrate.ts:79-100 | After an aborted rollback, the state file holds the `latestMigration` of ledger entry `j + 1`, or of entry `k` when the first `down` threw. |
| Engine.RestoringRollback | packages/v3/migration/tasks/migrate.ts:79-100 | When every `down` hands back its `initialState` argument, the rollback never aborts, and rollback write `t` is exactly ledger entry `i - t`. |
| Engine.FullRollbackRestoresInitial | packages/v3/migration/tasks/migrate.ts:77-101 | When every `down` hands back its `initialState` argument, a failed health check ends in a complete rollback, and the last state written is the initial state itself. |
| Engine.LastWrittenIsLedgerEntry | packages/v3/migration/tasks/migrate.ts:18-101 | Whatever the outcome, the state file is left at the `latestMigration` of ledger entry `ResumeIndex`. That is the initial value after nothing to migrate or a complete rollback, and the last unit's key after completion. After a throwing `up` it is the key of the unit before it, and after a throwing `down` the value restored last. |
| LegacyEngine.RunStopsAfterLongestPassingPrefix | packages/v3/migration/engine/tasks/migrate.ts:12-61 | The forward-only run stops after the longest prefix of units whose `up` returned and whose health check passed, each unit threaded into the next. The writes are exactly that prefix's checkpoints, and the state file is left at the prefix's last key (or the initial one). No `down` is ever called. A failure is reported at the unit just after the prefix. |
| NetworkSettings.Up | packages/v3/migration/migrations/2_deploy_networkSettings.ts:9-19 | `up` succeeds exactly when `proxyAdmin` holds an address and the deployment behind it succeeds. It keeps every other entry and adds `networkSettings` set to the deployed address. |
| NetworkSettings.HealthCheckOwner | packages/v3/migration/migrations/2_deploy_networkSettings.ts:21-25 | The health check fails exactly when the recorded contract's owner is not the signer, whatever the prior state. |
| NetworkSettings.DownUndoesUp | packages/v3/migration/migrations/2_deploy_networkSettings.ts:9-35 | `down` hands back its `initialState` whatever the new state, so `down(s, up(s)) == s`. |
| Vault.BntToken | packages/v3/migration/migrations/4_deploy_vault.ts:12 | `BNT.token` is present exactly when `BNT` is a record holding a `token` address, and the result is that address. |
| Vault.Up | packages/v3/migration/migrations/4_deploy_vault.ts:9-19 | `up` succeeds exactly when `proxyAdmin` and `BNT.token` are present and the deployment (initialised with the token) succeeds. It keeps every other entry and adds `vault` set to the deployed address. |
| Vault.HealthCheckAdminRole | packages/v3/migration/migrations/4_deploy_vault.ts:21-26 | The health check fails exactly when the signer lacks `ROLE_ADMIN` on the recorded vault. |
| Vault.DownUndoesUp | packages/v3/migration/migrations/4_deploy_vault.ts:28-36 | `down` hands back its `initialState` whatever the new state, so `down(s, up(s)) == s`. |
| Task.Prepare | packages/v3/migration/tasks/migrate.ts:111-190 | Initialisation fails exactly on a fork reset with no source state. Otherwise the pending list is `Pending` over the listing for the initial `latestMigration` (every selected file, sorted, keys above it), and the state file holds the initial state. |
| Task.MigrateTask | packages/v3/migration/tasks/migrate.ts:12-190 | The task exits exactly on a fork reset with no source state, and then leaves no state file, because the reset already deleted the folder. Otherwise the pending list is the full sorted `Pending` list above the initial `latestMigration`, and the run is the engine's run over it from the initial state. The state file then holds the run's last write, or the initial state when the run wrote nothing. |
| Task.LegacyMigrateTask | packages/v3/migration/engine/tasks/migrate.ts:12-146 | The same for the forward-only engine: an exit with no state file, or `LegacyEngine.Run` over the full `Pending` list. The state file then holds the run's last write, or the initial state. |
| Task.StateFileHoldsLastWrite | packages/v3/migration/tasks/migrate.ts:134-136 | After a run, the state file holds the run's last write, or the initial state when the run wrote nothing. |
| Task.RerunResumes | packages/v3/migration/tasks/migrate.ts:172-185 | With distinct keys, running the task again without reset starts from the last state written. It finds pending exactly the units from `ResumeIndex` on. That is the unit whose `up` threw. When the `down` of unit `j` threw during the rollback from `k`, it is unit `j + 1` (the last whose `down` returned), or unit `k` when its own `down` threw first. It is every unit after a complete rollback, and none after completion. |
| Task.RerunAfterCompletionFindsNothing | packages/v3/migration/tasks/migrate.ts:20-24 | After a completed run (or nothing to migrate), running again without reset finds nothing to migrate and writes nothing, whatever the keys. |
| Task.RerunAfterRestoringRollbackRepeats | packages/v3/migration/tasks/migrate.ts:77-101 | When every `down` restores its prior state, a run with a failed health check rolls back completely and leaves the state file holding the initial state. Running again, whatever the units now do, starts from that initial state over the same pending units. When the chain answers every call as in the first run (the same `load`), the rerun repeats the first run exactly. |
| Task.RerunSkipsUnitSharingKey | packages/v3/migration/tasks/migrate.ts:178 | Keys are not checked for duplicates. Suppose the unit whose `up` threw shares its key with the unit checkpointed before it. Running again then never retries it: every unit pending has a larger key. |
| Task.LegacyRerunResumes | packages/v3/migration/engine/tasks/migrate.ts:131-141 | With distinct keys, running the forward-only task again finds pending exactly the units after the last checkpoint, starting with the one that failed. |

## Left out

- File system and JSON: `rmSync`, `mkdirSync`, `readdirSync`, `writeFileSync`, `JSON.parse`/`stringify`. The state file is modelled as the ordered list of states written, and the folder listing as a parameter `files`.
- The un-awaited `writeState` calls are modelled as sequential writes. Asynchrony and logging are not modelled.
- `process.exit` on a missing fork source is modelled as the result `ForkSourceMissing`, after which no state file is left (the reset has already deleted the folder).
- A state file that exists but cannot be parsed is not modelled. Neither is any other I/O error (`fetchState` and `writeState` throwing).
- `importCsjOrEsModule`, the signer, the contract factories and `initMigration` are not modelled. A unit is obtained from its path through the parameter `load`. The chain primitives (`deployProxy`, `owner`, `hasRole`, the signer's address) are the oracles of `Chain`. Attaching to an address is folded into them.
- `Chain` is stateless: deploying the same contract with the same arguments yields the same address, and `owner`/`hasRole` answer the same way every time. On a real chain every `up` deploys a new proxy at a new address, and `down` returns only the prior recorded state, leaving that contract deployed. A rerun therefore records different addresses. This is why `Task.RerunAfterRestoringRollbackRepeats` promises an identical rerun only for the same `load`.
- Discovery.ParseNumber: covers only what `Number()` does on an empty or all-digit token. Whitespace, signs, `Infinity`, the `0x`, `0b` and `0o` prefixes, exponents and fractions make the token NaN in the model, although JavaScript gives a number (and `Infinity` is above every `latestMigration`, so such a file would be selected).
- Units are assumed not to mutate their arguments. The ledger holds shallow copies (`{ ...initialState }`, `{ ...currentState }`, `packages/v3/migration/tasks/migrate.ts:28` and `:67`) that share the `networkState` object handed to `up`, and later to `healthCheck` and `down`. A unit that changed that object in place would change `stateSaves` too. Units here are pure functions from state to state, so the model cannot express this. Its ledger and rollback lemmas (`Engine.FullRollbackRestoresInitial` among them) hold only for units that leave their arguments alone, as units 2 and 4 do.
- A failing import is not modelled. `load` is total, but `importCsjOrEsModule` (`packages/v3/migration/tasks/migrate.ts:34` and `:83`) runs outside any `try`, so a unit that cannot be imported aborts the forward run or the rollback with an exception.
- Float precision of large keys is not modelled. Keys are unbounded integers.
- `path.join` and `path.basename` are modelled as joining with `/` and taking the listed name back.
- Units 1 and 3 (`1_deploy_proxyAdmin`, `3_deploy_network`) are not part of this model. Units 2 and 4 read only the `proxyAdmin` and `BNT` entries those units leave.
- The test helpers, `hardhat.config.ts` and the deploy scripts under `deploy/` are configuration and deployment wrappers. They are not part of this model.
