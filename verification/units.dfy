/**
 Migration unit 2: deploys `NetworkSettings` behind the proxy admin
 recorded in the state and records its address under `networkSettings`.
 */
module NetworkSettings {
  import opened Wrappers
  import opened Types

  const Key: string := "networkSettings"

  /** `up`: attach the proxy admin stored under `proxyAdmin` (a missing or
      non-address entry throws), deploy behind it, and add the address. */
  function Up(chain: Chain, s: NetworkState): (r: Option<NetworkState>)
    ensures r.Some? <==> AddressAt(s, "proxyAdmin").Some? && chain.deployProxy("NetworkSettings", AddressAt(s, "proxyAdmin").value, []).Some?
    ensures r.Some? ==> r.value.Keys == s.Keys + {Key}
    ensures r.Some? ==> forall k :: k in s && k != Key ==> r.value[k] == s[k]
    ensures r.Some? ==> r.value[Key] == Address(chain.deployProxy("NetworkSettings", AddressAt(s, "proxyAdmin").value, []).value)
  {
    match AddressAt(s, "proxyAdmin")
    case None => None
    case Some(admin) =>
      match chain.deployProxy("NetworkSettings", admin, [])
      case None => None
      case Some(deployed) => Some(s[Key := Address(deployed)])
  }

  /** `healthCheck`: throws "Invalid Owner" unless the deployed contract's
      owner is the signer. */
  function HealthCheck(chain: Chain, prior: NetworkState, state: NetworkState): bool {
    match AddressAt(state, Key)
    case None => false
    case Some(a) => chain.owner(a) == chain.signer
  }

  /** `down`: hands back the state from before `up`. */
  function Down(prior: NetworkState, newState: NetworkState): Option<NetworkState> {
    Some(prior)
  }

  function Unit(chain: Chain): Migration {
    Migration(s => Up(chain, s), (p, s) => HealthCheck(chain, p, s), (p, n) => Down(p, n))
  }

  /** The health check fails exactly when the owner of the recorded
      contract differs from the signer, whatever the prior state. */
  lemma HealthCheckOwner(chain: Chain, prior: NetworkState, s: NetworkState, a: string)
    requires AddressAt(s, Key) == Some(a)
    ensures !Unit(chain).healthCheck(prior, s) <==> chain.owner(a) != chain.signer
  {
  }

  /** `down` ignores `newState`, and undoes `up`. */
  lemma DownUndoesUp(chain: Chain, s: NetworkState)
    ensures DownRestoresPrior(Unit(chain))
    ensures Unit(chain).up(s).Some? ==> Unit(chain).down(s, Unit(chain).up(s).value) == Some(s)
  {
  }
}

/**
 Migration unit 4: deploys `BancorVault` behind the proxy admin, initialised
 with the BNT token, and records its address under `vault`.
 */
module Vault {
  import opened Wrappers
  import opened Types

  const Key: string := "vault"

  /** `initialState.BNT.token`: the `token` address inside the `BNT` record. */
  function BntToken(s: NetworkState): (r: Option<string>)
    ensures r.Some? <==> "BNT" in s && s["BNT"].Record? && AddressAt(s["BNT"].fields, "token").Some?
    ensures r.Some? ==> s["BNT"].fields["token"] == Address(r.value)
  {
    if "BNT" in s && s["BNT"].Record? then AddressAt(s["BNT"].fields, "token") else None
  }

  /** `up`: attach the proxy admin, deploy the vault behind it with the BNT
      token as initialiser argument, and add its address. */
  function Up(chain: Chain, s: NetworkState): (r: Option<NetworkState>)
    ensures r.Some? <==>
      && AddressAt(s, "proxyAdmin").Some? && BntToken(s).Some?
      && chain.deployProxy("BancorVault", AddressAt(s, "proxyAdmin").value, [BntToken(s).value]).Some?
    ensures r.Some? ==> r.value.Keys == s.Keys + {Key}
    ensures r.Some? ==> forall k :: k in s && k != Key ==> r.value[k] == s[k]
    ensures r.Some? ==>
      r.value[Key] == Address(chain.deployProxy("BancorVault", AddressAt(s, "proxyAdmin").value, [BntToken(s).value]).value)
  {
    match AddressAt(s, "proxyAdmin")
    case None => None
    case Some(admin) =>
      match BntToken(s)
      case None => None
      case Some(token) =>
        match chain.deployProxy("BancorVault", admin, [token])
        case None => None
        case Some(deployed) => Some(s[Key := Address(deployed)])
  }

  /** `healthCheck`: throws "Invalid Owner" unless the signer holds
      `ROLE_ADMIN` on the deployed vault. */
  function HealthCheck(chain: Chain, prior: NetworkState, state: NetworkState): bool {
    match AddressAt(state, Key)
    case None => false
    case Some(a) => chain.hasAdminRole(a, chain.signer)
  }

  /** `down`: hands back the state from before `up`. */
  function Down(prior: NetworkState, newState: NetworkState): Option<NetworkState> {
    Some(prior)
  }

  function Unit(chain: Chain): Migration {
    Migration(s => Up(chain, s), (p, s) => HealthCheck(chain, p, s), (p, n) => Down(p, n))
  }

  /** The health check fails exactly when the signer lacks `ROLE_ADMIN` on
      the recorded vault, whatever the prior state. */
  lemma HealthCheckAdminRole(chain: Chain, prior: NetworkState, s: NetworkState, a: string)
    requires AddressAt(s, Key) == Some(a)
    ensures !Unit(chain).healthCheck(prior, s) <==> !chain.hasAdminRole(a, chain.signer)
  {
  }

  /** `down` ignores `newState`, and undoes `up`. */
  lemma DownUndoesUp(chain: Chain, s: NetworkState)
    ensures DownRestoresPrior(Unit(chain))
    ensures Unit(chain).up(s).Some? ==> Unit(chain).down(s, Unit(chain).up(s).value) == Some(s)
  {
  }
}
