/**
 * The read-only half of the root contract: finding a contract's record,
 * reading the chain's metadata, resolving the fees a contract charges and
 * checking the chain owner. Every function here only reads the state.
 */
module RootLookup {
  import opened Wrappers
  import opened KV
  import opened RootTypes

  /** The stored bytes of the registry entry for `hname`, if any. */
  function RegistryEntry(env: Env, s: State, hname: Hname): Option<Bytes> {
    GetAt(s, VarContractRegistry, env.hnameBytes(hname))
  }

  /**
   * The record of contract `hname`. While the chain is being initialised the
   * root contract has no entry yet, and its placeholder record stands in.
   */
  function FindContract(env: Env, s: State, hname: Hname): (r: Result<ContractRecord, Error>)
    ensures RegistryEntry(env, s, hname).None? && hname == RootHname(env) ==> r == Ok(env.rootRecord)
    ensures r == Err(NotFound(hname)) <==> RegistryEntry(env, s, hname).None? && hname != RootHname(env)
    ensures r.Ok? && hname != RootHname(env) ==>
      RegistryEntry(env, s, hname).Some? && env.decodeRecord(RegistryEntry(env, s, hname).value) == Ok(r.value)
    ensures RegistryEntry(env, s, hname).Some? ==>
      match env.decodeRecord(RegistryEntry(env, s, hname).value)
      case Ok(rec) => r == Ok(rec)
      case Err(e) => r == Err(DecodeFailed(e))
  {
    match RegistryEntry(env, s, hname)
    case None =>
      if hname == RootHname(env) then Ok(env.rootRecord) else Err(NotFound(hname))
    case Some(bin) =>
      match env.decodeRecord(bin)
      case Ok(rec) => Ok(rec)
      case Err(e) => Err(DecodeFailed(e))
  }

  /** The record FindContract gives, or None (Go's nil) when it fails. */
  function RecordOrNil(r: Result<ContractRecord, Error>): Option<ContractRecord> {
    if r.Ok? then Some(r.value) else None
  }

  // The eight reads of the chain's metadata.

  function ReadChainID(env: Env, s: State): Decoded<ChainID> { env.decodeChainID(MustGet(s, VarChainID)) }
  function ReadChainOwnerID(env: Env, s: State): Decoded<AgentID> { env.decodeAgentID(MustGet(s, VarChainOwnerID)) }
  function ReadChainColor(env: Env, s: State): Decoded<Color> { env.decodeColor(MustGet(s, VarChainColor)) }
  function ReadChainAddress(env: Env, s: State): Decoded<Address> { env.decodeAddress(MustGet(s, VarChainAddress)) }
  function ReadDescription(env: Env, s: State): Decoded<string> { env.decodeString(MustGet(s, VarDescription)) }
  function ReadFeeColor(env: Env, s: State): Decoded<Color> { env.decodeColor(MustGet(s, VarFeeColor)) }
  function ReadDefaultOwnerFee(env: Env, s: State): Decoded<int64> { env.decodeInt64(MustGet(s, VarDefaultOwnerFee)) }
  function ReadDefaultValidatorFee(env: Env, s: State): Decoded<int64> { env.decodeInt64(MustGet(s, VarDefaultValidatorFee)) }

  /** The decoding errors of the chain metadata, in the order GetChainInfo reads the fields. */
  function ChainInfoReadErrors(env: Env, s: State): seq<Option<string>> {
    [ ReadChainID(env, s).err, ReadChainOwnerID(env, s).err, ReadChainColor(env, s).err,
      ReadChainAddress(env, s).err, ReadDescription(env, s).err, ReadFeeColor(env, s).err,
      ReadDefaultOwnerFee(env, s).err, ReadDefaultValidatorFee(env, s).err ]
  }

  /** The earliest error of a sequence of steps, if any step failed. */
  function FirstError(errs: seq<Option<string>>): (r: Option<string>)
    ensures r.None? <==> forall i :: 0 <= i < |errs| ==> errs[i].None?
    ensures forall k :: 0 <= k < |errs| && errs[k].Some? && (forall j :: 0 <= j < k ==> errs[j].None?) ==> r == errs[k]
  {
    if errs == [] then None
    else if errs[0].Some? then errs[0]
    else FirstError(errs[1..])
  }

  /** An optional field: the decoded value when present, the default otherwise. */
  function OrDefault<T>(d: Decoded<T>, default: T): T {
    if d.ok then d.value else default
  }

  /**
   * The chain's metadata. The first field whose decoder reports an error
   * makes the whole read fail; otherwise every field is filled, the fee
   * colour falling back to IOTA and the default fees to 0 when absent.
   */
  function GetChainInfo(env: Env, s: State): (r: Result<ChainInfo, Error>)
    ensures r.Err? ==> r.error.DecodeFailed?
    ensures r.Ok? ==>
      && r.value.chainID == ReadChainID(env, s).value
      && r.value.chainOwnerID == ReadChainOwnerID(env, s).value
      && r.value.chainColor == ReadChainColor(env, s).value
      && r.value.chainAddress == ReadChainAddress(env, s).value
      && r.value.description == ReadDescription(env, s).value
    ensures r.Ok? ==>
      && r.value.feeColor == OrDefault(ReadFeeColor(env, s), env.colorIOTA)
      && r.value.defaultOwnerFee == OrDefault(ReadDefaultOwnerFee(env, s), 0)
      && r.value.defaultValidatorFee == OrDefault(ReadDefaultValidatorFee(env, s), 0)
  {
    var chainID := ReadChainID(env, s);
    if chainID.err.Some? then Err(DecodeFailed(chainID.err.value)) else
    var owner := ReadChainOwnerID(env, s);
    if owner.err.Some? then Err(DecodeFailed(owner.err.value)) else
    var color := ReadChainColor(env, s);
    if color.err.Some? then Err(DecodeFailed(color.err.value)) else
    var address := ReadChainAddress(env, s);
    if address.err.Some? then Err(DecodeFailed(address.err.value)) else
    var description := ReadDescription(env, s);
    if description.err.Some? then Err(DecodeFailed(description.err.value)) else
    var feeColor := ReadFeeColor(env, s);
    if feeColor.err.Some? then Err(DecodeFailed(feeColor.err.value)) else
    var ownerFee := ReadDefaultOwnerFee(env, s);
    if ownerFee.err.Some? then Err(DecodeFailed(ownerFee.err.value)) else
    var validatorFee := ReadDefaultValidatorFee(env, s);
    if validatorFee.err.Some? then Err(DecodeFailed(validatorFee.err.value)) else
    Ok(ChainInfo(chainID.value, owner.value, color.value, address.value, description.value,
                 if feeColor.ok then feeColor.value else env.colorIOTA,
                 if ownerFee.ok then ownerFee.value else 0,
                 if validatorFee.ok then validatorFee.value else 0))
  }

  /**
   * GetChainInfo fails exactly when one of its reads reports an error, and
   * then with the error of the first such read in reading order.
   */
  lemma ChainInfoFailsAtFirstError(env: Env, s: State)
    ensures GetChainInfo(env, s).Err? <==> FirstError(ChainInfoReadErrors(env, s)).Some?
    ensures GetChainInfo(env, s).Err? ==>
      GetChainInfo(env, s).error == DecodeFailed(FirstError(ChainInfoReadErrors(env, s)).value)
  {
    var errs := ChainInfoReadErrors(env, s);
    assert errs[0] == ReadChainID(env, s).err && errs[1] == ReadChainOwnerID(env, s).err
        && errs[2] == ReadChainColor(env, s).err && errs[3] == ReadChainAddress(env, s).err
        && errs[4] == ReadDescription(env, s).err && errs[5] == ReadFeeColor(env, s).err
        && errs[6] == ReadDefaultOwnerFee(env, s).err && errs[7] == ReadDefaultValidatorFee(env, s).err;
    if errs[0].Some? {
      assert FirstError(errs) == errs[0];
    } else if errs[1].Some? {
      assert FirstError(errs) == errs[1];
    } else if errs[2].Some? {
      assert FirstError(errs) == errs[2];
    } else if errs[3].Some? {
      assert FirstError(errs) == errs[3];
    } else if errs[4].Some? {
      assert FirstError(errs) == errs[4];
    } else if errs[5].Some? {
      assert FirstError(errs) == errs[5];
    } else if errs[6].Some? {
      assert FirstError(errs) == errs[6];
    } else if errs[7].Some? {
      assert FirstError(errs) == errs[7];
    }
  }

  /**
   * The chain-wide fee defaults, with the error of the first default fee
   * that fails to decode. The fee colour's own decoding error is ignored.
   * On an error all three values are zero.
   */
  function GetDefaultFeeInfo(env: Env, s: State): (r: (FeeInfo, Option<Error>))
    ensures r.1.None? <==> ReadDefaultOwnerFee(env, s).err.None? && ReadDefaultValidatorFee(env, s).err.None?
    ensures r.1.Some? ==>
      && r.0 == FeeInfo(ZeroColor, 0, 0)
      && r.1.value == DecodeFailed(
           if ReadDefaultOwnerFee(env, s).err.Some? then ReadDefaultOwnerFee(env, s).err.value
           else ReadDefaultValidatorFee(env, s).err.value)
    ensures r.1.None? ==>
      r.0 == FeeInfo(OrDefault(ReadFeeColor(env, s), env.colorIOTA),
                     ReadDefaultOwnerFee(env, s).value, ReadDefaultValidatorFee(env, s).value)
  {
    var feeColor := ReadFeeColor(env, s);
    var color := if !feeColor.ok then env.colorIOTA else feeColor.value;
    var ownerFee := ReadDefaultOwnerFee(env, s);
    if ownerFee.err.Some? then (FeeInfo(ZeroColor, 0, 0), Some(DecodeFailed(ownerFee.err.value))) else
    var validatorFee := ReadDefaultValidatorFee(env, s);
    if validatorFee.err.Some? then (FeeInfo(ZeroColor, 0, 0), Some(DecodeFailed(validatorFee.err.value))) else
    (FeeInfo(color, ownerFee.value, validatorFee.value), None)
  }

  /**
   * The fees a contract charges: each non-zero fee of its record, and the
   * chain default for a fee of 0 or for a missing record. A failure to read
   * the defaults is not reported; the zero values it yields are used.
   */
  function GetFeeInfoByContractRecord(env: Env, s: State, rec: Option<ContractRecord>): (r: FeeInfo)
    ensures r.feeColor == GetDefaultFeeInfo(env, s).0.feeColor
    ensures rec.Some? && rec.value.ownerFee != 0 ==> r.ownerFee == rec.value.ownerFee
    ensures rec.None? || rec.value.ownerFee == 0 ==> r.ownerFee == GetDefaultFeeInfo(env, s).0.ownerFee
    ensures rec.Some? && rec.value.validatorFee != 0 ==> r.validatorFee == rec.value.validatorFee
    ensures rec.None? || rec.value.validatorFee == 0 ==> r.validatorFee == GetDefaultFeeInfo(env, s).0.validatorFee
  {
    var ownerFee: int64 := if rec.Some? then rec.value.ownerFee else 0;
    var validatorFee: int64 := if rec.Some? then rec.value.validatorFee else 0;
    var defaults := GetDefaultFeeInfo(env, s).0;
    FeeInfo(defaults.feeColor,
            if ownerFee == 0 then defaults.ownerFee else ownerFee,
            if validatorFee == 0 then defaults.validatorFee else validatorFee)
  }

  /**
   * The fees contract `hname` charges. A failed lookup (an unknown contract
   * or an undecodable record) is not reported: the chain defaults apply.
   */
  function GetFeeInfo(env: Env, s: State, hname: Hname): (r: FeeInfo)
    ensures FindContract(env, s, hname).Err? ==> r == GetDefaultFeeInfo(env, s).0
    ensures FindContract(env, s, hname).Ok? ==>
      r == GetFeeInfoByContractRecord(env, s, Some(FindContract(env, s, hname).value))
  {
    GetFeeInfoByContractRecord(env, s, RecordOrNil(FindContract(env, s, hname)))
  }

  /**
   * Whether `agentID` is the stored chain owner. Where the chain's metadata
   * can be read, this is equality with its owner field.
   */
  function CheckAuthorizationByChainOwner(env: Env, s: State, agentID: AgentID): (r: bool)
    ensures GetChainInfo(env, s).Ok? ==> (r <==> agentID == GetChainInfo(env, s).value.chainOwnerID)
    ensures r <==> ReadChainOwnerID(env, s).value == agentID
  {
    var currentOwner := ReadChainOwnerID(env, s).value;
    currentOwner == agentID
  }

  /**
   * Both readers of the fee defaults agree wherever the chain's metadata
   * can be read, given that an absent int64 decodes to 0.
   */
  lemma DefaultFeesAgreeWithChainInfo(env: Env, s: State)
    requires AbsentInt64IsZero(env)
    requires GetChainInfo(env, s).Ok?
    ensures var info := GetChainInfo(env, s).value;
      GetDefaultFeeInfo(env, s) == (FeeInfo(info.feeColor, info.defaultOwnerFee, info.defaultValidatorFee), None)
  {
    var errs := ChainInfoReadErrors(env, s);
    assert errs[6] == ReadDefaultOwnerFee(env, s).err && errs[7] == ReadDefaultValidatorFee(env, s).err;
  }

  /**
   * Fee inheritance: a record fee of 0 charges the chain's default fee, and
   * any other record fee is charged as it is, whatever the default.
   */
  lemma FeeInheritance(env: Env, s: State, rec: ContractRecord)
    requires AbsentInt64IsZero(env)
    requires GetChainInfo(env, s).Ok?
    ensures var info := GetChainInfo(env, s).value;
      var fees := GetFeeInfoByContractRecord(env, s, Some(rec));
      && fees.feeColor == info.feeColor
      && fees.ownerFee == (if rec.ownerFee == 0 then info.defaultOwnerFee else rec.ownerFee)
      && fees.validatorFee == (if rec.validatorFee == 0 then info.defaultValidatorFee else rec.validatorFee)
  {
    DefaultFeesAgreeWithChainInfo(env, s);
  }

  /** An unregistered contract other than the root charges exactly the chain defaults. */
  lemma UnknownContractChargesDefaults(env: Env, s: State, hname: Hname)
    requires RegistryEntry(env, s, hname).None? && hname != RootHname(env)
    ensures GetFeeInfo(env, s, hname) == GetDefaultFeeInfo(env, s).0
  {
  }

  /** When the default fees cannot be read, a contract charges its own fees in the zero colour. */
  lemma UnreadableDefaultsChargeRecordFees(env: Env, s: State, rec: Option<ContractRecord>)
    requires GetDefaultFeeInfo(env, s).1.Some?
    ensures var fees := GetFeeInfoByContractRecord(env, s, rec);
      && fees.feeColor == ZeroColor
      && fees.ownerFee == (if rec.Some? then rec.value.ownerFee else 0)
      && fees.validatorFee == (if rec.Some? then rec.value.validatorFee else 0)
  {
  }

  /** The owner fee and the validator fee are resolved independently of each other. */
  lemma FeesResolvedIndependently(env: Env, s: State, a: ContractRecord, b: ContractRecord)
    ensures a.ownerFee == b.ownerFee ==>
      GetFeeInfoByContractRecord(env, s, Some(a)).ownerFee == GetFeeInfoByContractRecord(env, s, Some(b)).ownerFee
    ensures a.validatorFee == b.validatorFee ==>
      GetFeeInfoByContractRecord(env, s, Some(a)).validatorFee == GetFeeInfoByContractRecord(env, s, Some(b)).validatorFee
  {
  }
}
