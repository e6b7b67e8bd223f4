/**
 * Reading the whole contract registry into a map from hname to record.
 * The registry's iteration order is not fixed, so the model picks the next
 * entry arbitrarily and states only what holds for every order.
 */
module RootRegistry {
  import opened Wrappers
  import opened KV
  import opened RootTypes
  import opened RootLookup

  /** The decoding error of one registry entry (its key first, then its record), if any. */
  function EntryError(env: Env, registry: map<Bytes, Bytes>, k: Bytes): Option<string>
    requires k in registry
  {
    match env.hnameFromBytes(k)
    case Err(e) => Some(e)
    case Ok(_) =>
      match env.decodeRecord(registry[k])
      case Err(e) => Some(e)
      case Ok(_) => None
  }

  /**
   * `m` is a decoding of `registry`: every entry's key decodes to an hname of
   * `m`, and every record in `m` is the decoding of an entry with that hname.
   */
  ghost predicate IsRegistryDecoding(env: Env, registry: map<Bytes, Bytes>, m: map<Hname, ContractRecord>) {
    && (forall k :: k in registry ==> env.hnameFromBytes(k).Ok? && env.hnameFromBytes(k).value in m)
    && (forall h :: h in m ==>
          exists k :: k in registry && env.hnameFromBytes(k) == Ok(h) && env.decodeRecord(registry[k]) == Ok(m[h]))
  }

  /** Every registry key that decodes to an hname is that hname's byte form, as keys written at deployment are. */
  ghost predicate CanonicalKeys(env: Env, registry: map<Bytes, Bytes>) {
    forall k :: k in registry && env.hnameFromBytes(k).Ok? ==> env.hnameBytes(env.hnameFromBytes(k).value) == k
  }

  /**
   * Decodes every entry of the registry. The first entry whose key or record
   * fails to decode stops the iteration, and its error is returned.
   */
  method DecodeContractRegistry(env: Env, contractRegistry: map<Bytes, Bytes>)
    returns (r: Result<map<Hname, ContractRecord>, Error>)
    ensures r.Ok? <==> forall k :: k in contractRegistry ==> EntryError(env, contractRegistry, k).None?
    ensures r.Ok? ==> IsRegistryDecoding(env, contractRegistry, r.value)
    ensures r.Err? ==>
      r.error.DecodeFailed? && exists k :: k in contractRegistry && EntryError(env, contractRegistry, k) == Some(r.error.cause)
  {
    var ret: map<Hname, ContractRecord> := map[];
    var todo := contractRegistry.Keys;
    while todo != {}
      invariant todo <= contractRegistry.Keys
      invariant forall k :: k in contractRegistry && k !in todo ==> EntryError(env, contractRegistry, k).None?
      invariant forall k :: k in contractRegistry && k !in todo ==> env.hnameFromBytes(k).value in ret
      invariant forall h :: h in ret ==>
        exists k :: k in contractRegistry && env.hnameFromBytes(k) == Ok(h) && env.decodeRecord(contractRegistry[k]) == Ok(ret[h])
      decreases todo
    {
      var k :| k in todo;
      var deploymentHash := env.hnameFromBytes(k);
      if deploymentHash.Err? {
        return Err(DecodeFailed(deploymentHash.error));
      }
      var cr := env.decodeRecord(contractRegistry[k]);
      if cr.Err? {
        return Err(DecodeFailed(cr.error));
      }
      ret := ret[deploymentHash.value := cr.value];
      todo := todo - {k};
    }
    return Ok(ret);
  }

  /**
   * With canonical keys, a decoding holds every entry under its own decoded
   * hname with its own decoded record.
   */
  lemma DecodingHoldsEveryEntry(env: Env, registry: map<Bytes, Bytes>, m: map<Hname, ContractRecord>, k: Bytes)
    requires IsRegistryDecoding(env, registry, m) && CanonicalKeys(env, registry)
    requires k in registry
    ensures env.hnameFromBytes(k).Ok? && env.decodeRecord(registry[k]).Ok?
    ensures m[env.hnameFromBytes(k).value] == env.decodeRecord(registry[k]).value
  {
    var h := env.hnameFromBytes(k).value;
    var k' :| k' in registry && env.hnameFromBytes(k') == Ok(h) && env.decodeRecord(registry[k']) == Ok(m[h]);
    assert k' == env.hnameBytes(h) == k;
  }

  /**
   * The enumeration and the single lookup agree: every hname of a decoding
   * is found with the same record, and every other hname except the root's
   * is not found.
   */
  lemma DecodingAgreesWithFindContract(env: Env, s: State, m: map<Hname, ContractRecord>, h: Hname)
    requires HnameCodecRoundTrips(env)
    requires IsRegistryDecoding(env, MustMap(s, VarContractRegistry), m)
    requires CanonicalKeys(env, MustMap(s, VarContractRegistry))
    ensures h in m ==> FindContract(env, s, h) == Ok(m[h])
    ensures h !in m && h != RootHname(env) ==> FindContract(env, s, h) == Err(NotFound(h))
  {
    var registry := MustMap(s, VarContractRegistry);
    if h in m {
      var k :| k in registry && env.hnameFromBytes(k) == Ok(h) && env.decodeRecord(registry[k]) == Ok(m[h]);
      assert k == env.hnameBytes(h);
    }
  }
}
