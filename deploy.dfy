/**
 * Deploying a contract: who may deploy, and registering a new contract
 * together with its initialisation, undone exactly when initialisation fails.
 */
module RootDeploy {
  import opened Wrappers
  import opened KV
  import opened RootTypes
  import opened RootLookup
  import opened RootRegistry

  /**
   * The execution context of one call of the root contract: who calls, the
   * chain it runs on and its owner, the root contract's state, and the host's
   * cross-contract call. A call's outcome depends on the state the callee sees.
   */
  class Sandbox {
    const caller: AgentID
    const chainOwnerID: AgentID
    const chainID: ChainID
    const call: (Hname, Hname, Dict, State) -> Result<Dict, string>
    var state: State

    constructor (caller: AgentID, chainOwnerID: AgentID, chainID: ChainID,
                 call: (Hname, Hname, Dict, State) -> Result<Dict, string>, state: State)
      ensures this.caller == caller && this.chainOwnerID == chainOwnerID && this.chainID == chainID
      ensures this.call == call && this.state == state
    {
      this.caller := caller;
      this.chainOwnerID := chainOwnerID;
      this.chainID := chainID;
      this.call := call;
      this.state := state;
    }
  }

  /**
   * Whether the caller may deploy a contract: the chain owner always may;
   * any other contract may exactly when it runs on this chain; any other
   * address may exactly when it is on the deploy-authorisation list.
   */
  function IsAuthorizedToDeploy(env: Env, ctx: Sandbox): (r: bool)
    reads ctx
    ensures ctx.caller == ctx.chainOwnerID ==> r
    ensures ctx.caller != ctx.chainOwnerID && ctx.caller.ContractAgent? ==>
      (r <==> ctx.caller.chainID == ctx.chainID)
    ensures ctx.caller != ctx.chainOwnerID && ctx.caller.AddressAgent? ==>
      (r <==> env.agentBytes(ctx.caller) in MustMap(ctx.state, VarDeployAuthorisations))
  {
    if ctx.caller == ctx.chainOwnerID then true
    else if !ctx.caller.AddressAgent? then ctx.caller.chainID == ctx.chainID
    else HasAt(ctx.state, VarDeployAuthorisations, env.agentBytes(ctx.caller))
  }

  /** The state right after a new contract's record is written, before `init` runs. */
  function Registered(env: Env, s: State, rec: ContractRecord): State {
    SetAt(s, VarContractRegistry, env.hnameBytes(env.hn(rec.name)), env.encodeRecord(rec))
  }

  /**
   * Registers `rec` under the hname of its name and calls its `init` entry
   * point, which sees the new entry. A name already registered is refused
   * and nothing changes. When `init` fails the entry is removed again, so
   * the state is exactly what it was before the call.
   */
  method StoreAndInitContract(env: Env, ctx: Sandbox, rec: ContractRecord, initParams: Dict)
    returns (err: Option<Error>)
    modifies ctx
    ensures var hname := env.hn(rec.name);
      HasAt(old(ctx.state), VarContractRegistry, env.hnameBytes(hname)) ==>
        err == Some(AlreadyExists(rec.name, hname)) && ctx.state == old(ctx.state)
    ensures var hname := env.hn(rec.name);
      var registered := Registered(env, old(ctx.state), rec);
      !HasAt(old(ctx.state), VarContractRegistry, env.hnameBytes(hname)) ==>
        match ctx.call(hname, env.entryPointInit, initParams, registered)
        case Ok(_) => err == None && ctx.state == registered
        case Err(e) => err == Some(InitFailed(rec.name, hname, e)) && ctx.state == old(ctx.state)
  {
    var hname := env.hn(rec.name);
    if HasAt(ctx.state, VarContractRegistry, env.hnameBytes(hname)) {
      return Some(AlreadyExists(rec.name, hname));
    }
    ctx.state := Registered(env, ctx.state, rec);
    var res := ctx.call(env.hn(rec.name), env.entryPointInit, initParams, ctx.state);
    err := None;
    if res.Err? {
      DelAtUndoesSetAt(old(ctx.state), VarContractRegistry, env.hnameBytes(hname), env.encodeRecord(rec));
      ctx.state := DelAt(ctx.state, VarContractRegistry, env.hnameBytes(hname));
      err := Some(InitFailed(rec.name, hname, res.error));
    }
  }

  /** Once registered, a contract is found under the hname of its name with the record deployed. */
  lemma RegisteredContractIsFound(env: Env, s: State, rec: ContractRecord)
    requires RecordCodecRoundTrips(env)
    ensures FindContract(env, Registered(env, s, rec), env.hn(rec.name)) == Ok(rec)
  {
  }

  /**
   * Registering a contract changes the registry at its own key only: every
   * other lookup and the chain metadata stay as they were.
   */
  lemma RegistrationKeepsOtherLookups(env: Env, s: State, rec: ContractRecord, hname: Hname)
    requires env.hnameBytes(hname) != env.hnameBytes(env.hn(rec.name))
    ensures FindContract(env, Registered(env, s, rec), hname) == FindContract(env, s, hname)
    ensures GetChainInfo(env, Registered(env, s, rec)) == GetChainInfo(env, s)
  {
    forall v: Var ensures MustGet(Registered(env, s, rec), v) == MustGet(s, v) {
      assert Scalar(v) != Elem(VarContractRegistry, env.hnameBytes(env.hn(rec.name)));
    }
  }

  /** The same, for any hname other than the new contract's, given the hname round trip. */
  lemma RegistrationKeepsOtherContracts(env: Env, s: State, rec: ContractRecord, hname: Hname)
    requires HnameCodecRoundTrips(env)
    requires hname != env.hn(rec.name)
    ensures FindContract(env, Registered(env, s, rec), hname) == FindContract(env, s, hname)
    ensures GetChainInfo(env, Registered(env, s, rec)) == GetChainInfo(env, s)
  {
    assert env.hnameFromBytes(env.hnameBytes(hname)) == Ok(hname);
    assert env.hnameFromBytes(env.hnameBytes(env.hn(rec.name))) == Ok(env.hn(rec.name));
    RegistrationKeepsOtherLookups(env, s, rec, hname);
  }

  /** Registering a contract adds its entry to the registry and leaves the authorisation list alone. */
  lemma RegistrationUpdatesOnlyTheRegistry(env: Env, s: State, rec: ContractRecord)
    ensures MustMap(Registered(env, s, rec), VarContractRegistry)
         == MustMap(s, VarContractRegistry)[env.hnameBytes(env.hn(rec.name)) := env.encodeRecord(rec)]
    ensures MustMap(Registered(env, s, rec), VarDeployAuthorisations) == MustMap(s, VarDeployAuthorisations)
  {
    var key := env.hnameBytes(env.hn(rec.name));
    SetAtKeepsOtherMap(s, VarContractRegistry, VarDeployAuthorisations, key, env.encodeRecord(rec));
    SetAtUpdatesItsMap(s, VarContractRegistry, key, env.encodeRecord(rec));
  }

  /**
   * Registration keeps the registry's keys canonical, so a registry built
   * only by deployments can be enumerated exactly (DecodingHoldsEveryEntry).
   */
  lemma RegistrationKeepsKeysCanonical(env: Env, s: State, rec: ContractRecord)
    requires HnameCodecRoundTrips(env)
    requires CanonicalKeys(env, MustMap(s, VarContractRegistry))
    ensures CanonicalKeys(env, MustMap(Registered(env, s, rec), VarContractRegistry))
  {
    var key := env.hnameBytes(env.hn(rec.name));
    SetAtUpdatesItsMap(s, VarContractRegistry, key, env.encodeRecord(rec));
    assert env.hnameFromBytes(key) == Ok(env.hn(rec.name));
  }
}
