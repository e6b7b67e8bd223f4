/**
 * The entities the root contract reads and writes, and the definitions it
 * uses from outside `internal.go` (other files of package `root`, or other
 * packages) whose bodies are not part of this model: the
 * name hash, the byte codecs and a few well-known constants. Those are
 * collected in `Env`, so every property below holds for whatever they are.
 */
module RootTypes {
  import opened Wrappers
  import opened KV

  /** A contract's short identifier: a 32-bit hash of its name. */
  newtype Hname = x: int | 0 <= x < 0x1_0000_0000

  newtype int64 = x: int | -0x8000_0000_0000_0000 <= x < 0x8000_0000_0000_0000

  /** An asset colour (32 bytes on the ledger). */
  datatype Color = Color(bytes: Bytes)

  /** Go's zero value of a colour, `balance.Color{}`: thirty-two zero bytes. */
  const ZeroColor: Color :=
    Color([0, 0, 0, 0, 0, 0, 0, 0, 0, 0, 0, 0, 0, 0, 0, 0,
           0, 0, 0, 0, 0, 0, 0, 0, 0, 0, 0, 0, 0, 0, 0, 0])

  datatype ChainID = ChainID(bytes: Bytes)

  datatype Address = Address(bytes: Bytes)

  /** Who acts: an address outside any chain, or a contract on some chain. */
  datatype AgentID =
    | AddressAgent(address: Address)
    | ContractAgent(chainID: ChainID, hname: Hname)

  /** A deployed contract's registration; a fee of 0 means "use the chain default". */
  datatype ContractRecord = ContractRecord(
    programHash: Bytes,
    description: string,
    name: string,
    ownerFee: int64,
    validatorFee: int64,
    creator: AgentID)

  datatype ChainInfo = ChainInfo(
    chainID: ChainID,
    chainOwnerID: AgentID,
    chainColor: Color,
    chainAddress: Address,
    description: string,
    feeColor: Color,
    defaultOwnerFee: int64,
    defaultValidatorFee: int64)

  /** The fee colour and the two fees charged for a call. */
  datatype FeeInfo = FeeInfo(feeColor: Color, ownerFee: int64, validatorFee: int64)

  datatype Error =
    | NotFound(hname: Hname)
    | DecodeFailed(cause: string)
    | AlreadyExists(name: string, hname: Hname)
    | InitFailed(name: string, hname: Hname, cause: string)

  /**
   * What a scalar decoder returns, as in Go: a value, whether the input was
   * present, and an error. Callers decide which of the three they look at.
   */
  datatype Decoded<T> = Decoded(value: T, ok: bool, err: Option<string>)

  /** Definitions from outside `internal.go` that the root contract relies on. */
  datatype Env = Env(
    hn: string -> Hname,
    hnameBytes: Hname -> Bytes,
    hnameFromBytes: Bytes -> Result<Hname, string>,
    encodeRecord: ContractRecord -> Bytes,
    decodeRecord: Bytes -> Result<ContractRecord, string>,
    decodeChainID: Option<Bytes> -> Decoded<ChainID>,
    decodeAgentID: Option<Bytes> -> Decoded<AgentID>,
    decodeColor: Option<Bytes> -> Decoded<Color>,
    decodeAddress: Option<Bytes> -> Decoded<Address>,
    decodeString: Option<Bytes> -> Decoded<string>,
    decodeInt64: Option<Bytes> -> Decoded<int64>,
    agentBytes: AgentID -> Bytes,
    colorIOTA: Color,
    rootName: string,
    rootRecord: ContractRecord,
    entryPointInit: Hname)

  /** The root contract's own hname, the hash of its name. */
  function RootHname(env: Env): Hname {
    env.hn(env.rootName)
  }

  /** Reading an hname back from its bytes gives the hname. */
  ghost predicate HnameCodecRoundTrips(env: Env) {
    forall h :: env.hnameFromBytes(env.hnameBytes(h)) == Ok(h)
  }

  /** Decoding an encoded contract record gives the record. */
  ghost predicate RecordCodecRoundTrips(env: Env) {
    forall rec :: env.decodeRecord(env.encodeRecord(rec)) == Ok(rec)
  }

  /** The int64 decoder yields 0 for an absent input, as Go's zero value. */
  ghost predicate AbsentInt64IsZero(env: Env) {
    forall b :: env.decodeInt64(b).err.None? && !env.decodeInt64(b).ok ==> env.decodeInt64(b).value == 0
  }
}
