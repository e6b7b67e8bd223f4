# Root contract registry: a Dafny model

This project models the state-transition logic of a chain's root contract
(`packages/vm/core/root/internal.go`). The root contract keeps the registry of
deployed contracts, the chain's metadata and the list of callers allowed to
deploy. It covers:

- the lookup of a contract record, with the bootstrap case for the root contract itself;
- reading the chain's metadata, with defaults for the optional fee fields;
- resolving the fees a contract charges, where a record fee of 0 inherits the chain default;
- enumerating the whole registry;
- deciding who may deploy;
- registering and initialising a new contract, with an exact rollback when `init` fails.

The state is one key/value store (`KV.State`). Its keys are either well-known
scalar variables or elements of the two maps the root contract keeps: the
contract registry and the deploy-authorisation list. These live in separate
namespaces. `KV.MustMap` gives the view of one map. The execution context is a
class, `RootDeploy.Sandbox`. Its `state` field is the root contract's state,
which deployment updates in place. The host's cross-contract call is a
function of the target, the entry point, the parameters and the state the
callee sees.

Several definitions used by `internal.go` live outside that file, in other
files of package `root` (the interface and the contract-record constructor and
codec) or in other packages, and their bodies are not part of this model:

- the name hash `Hn`;
- the byte codecs of hnames, contract records and scalar values;
- `AgentID.Bytes`;
- the IOTA colour;
- the root contract's interface and its placeholder record;
- the `init` entry point's hname.

These are fields of the datatype `RootTypes.Env`, so every property holds for
whatever they are. Where a property needs a law of a codec, the lemma states that law as a
precondition: the round trips `HnameCodecRoundTrips` and
`RecordCodecRoundTrips`, or `AbsentInt64IsZero` (an absent int64 decodes to 0). A scalar decoder returns Go's
triple (value, present, error) as `Decoded<T>`. The model then uses exactly
the components the Go code looks at.

The model keeps these behaviours of the Go code, some of which may surprise a reader:

- `GetChainInfo` fails on a mandatory field only when that field's decoder
  reports an error. It ignores whether the field was present, so an absent
  field whose decoder reports no error yields the decoder's value.
- `GetDefaultFeeInfo` ignores a decoding error of the fee colour. It uses IOTA
  exactly when the decoder reports the colour absent, and otherwise the
  decoder's value, error or not. `GetChainInfo` fails on the same error.
  `RootLookup.DefaultFeesAgreeWithChainInfo` proves that the two readers agree
  whenever `GetChainInfo` succeeds.
- When a default fee fails to decode, `GetDefaultFeeInfo` returns the zero
  colour and zero fees. `GetFeeInfoByContractRecord` uses them without
  reporting the error.
- A record fee of exactly 0 always means "inherit the chain default", so a
  contract cannot charge a true zero fee when the default is non-zero. This is
  kept as written.

## Model

| member | source | states |
|---|---|---|
| RootLookup.FindContract | packages/vm/core/root/internal.go:17-34 | An unregistered root hname yields the root placeholder record. Any other unregistered hname yields NotFound, never a record. A stored entry yields its decoded record or, if decoding fails, a decode error. A non-root result always comes from a decodable stored entry. |
| RootLookup.GetChainInfo | packages/vm/core/root/internal.go:37-84 | On success every field is the decoded stored value. The fee colour falls back to IOTA and the default fees to 0 when absent. Every failure is a decode error. |
| RootLookup.ChainInfoFailsAtFirstError | packages/vm/core/root/internal.go:37-84 | GetChainInfo fails exactly when one of its eight reads reports an error. It then fails with the error of the first such read in reading order. |
| RootLookup.GetDefaultFeeInfo | packages/vm/core/root/internal.go:111-125 | Fails exactly when a default fee fails to decode, with the owner fee's error first. It then returns the zero colour and zero fees. Otherwise it returns the fee colour (IOTA when absent; its decoding error is ignored) and the two decoded defaults. |
| RootLookup.GetFeeInfoByContractRecord | packages/vm/core/root/internal.go:95-109 | The colour is the default fee colour. Each non-zero record fee is charged unchanged. A zero fee, or a missing record, charges the default. |
| RootLookup.GetFeeInfo | packages/vm/core/root/internal.go:89-93 | A failed lookup charges exactly the chain defaults. A found record is resolved by GetFeeInfoByContractRecord. |
| RootLookup.CheckAuthorizationByChainOwner | packages/vm/core/root/internal.go:151-154 | True exactly when the agent equals the stored owner. Where the chain metadata can be read, that is the metadata's owner field. |
| RootLookup.DefaultFeesAgreeWithChainInfo | packages/vm/core/root/internal.go:111-125 | Whenever GetChainInfo succeeds, GetDefaultFeeInfo returns no error and the same fee colour and default fees (given that an absent int64 decodes to 0). |
| RootLookup.FeeInheritance | packages/vm/core/root/internal.go:95-108 | A record fee of 0 charges the chain's default fee. Any other value is charged as it is, whatever the default. |
| RootLookup.UnknownContractChargesDefaults | packages/vm/core/root/internal.go:89-93 | An unregistered hname other than the root's charges exactly the chain defaults. |
| RootLookup.UnreadableDefaultsChargeRecordFees | packages/vm/core/root/internal.go:95-125 | When the defaults cannot be read, a contract charges its own fees in the zero colour. A zero or missing fee then charges 0. |
| RootLookup.FeesResolvedIndependently | packages/vm/core/root/internal.go:102-107 | The owner fee charged depends only on the record's owner fee, and the validator fee only on its validator fee. |
| RootRegistry.DecodeContractRegistry | packages/vm/core/root/internal.go:129-149 | Succeeds exactly when every entry's key and record decode. The result is then a decoding of the registry. Otherwise it returns the decode error of some failing entry; which one depends on the iteration order. |
| RootRegistry.DecodingHoldsEveryEntry | packages/vm/core/root/internal.go:132-147 | When the registry's keys are canonical, every entry appears in the result under its decoded hname, with its decoded record. |
| RootRegistry.DecodingAgreesWithFindContract | packages/vm/core/root/internal.go:17-33 | Every hname in the result is found by FindContract with the same record. Every other hname except the root's is NotFound. |
| RootDeploy.IsAuthorizedToDeploy | packages/vm/core/root/internal.go:174-184 | The chain owner is always authorised. Any other contract caller is authorised exactly when it is on this chain. Any other address is authorised exactly when it is on the deploy-authorisation list. |
| RootDeploy.StoreAndInitContract | packages/vm/core/root/internal.go:157-171 | A name already registered gives AlreadyExists and leaves the state unchanged. Otherwise `init` sees the state with the new entry. If `init` succeeds, that is the final state. If it fails, the state is exactly as before and InitFailed is returned. |
| RootDeploy.RegisteredContractIsFound | packages/vm/core/root/internal.go:163 | After registration, FindContract on the name's hname returns the deployed record (given the record codec round-trips). |
| RootDeploy.RegistrationKeepsOtherLookups | packages/vm/core/root/internal.go:163 | Registration changes no other contract's lookup and no chain metadata. |
| RootDeploy.RegistrationKeepsOtherContracts | packages/vm/core/root/internal.go:163 | Given the hname round trip, registration changes the lookup of no other contract's hname and no chain metadata. |
| RootDeploy.RegistrationUpdatesOnlyTheRegistry | packages/vm/core/root/internal.go:163 | The registry after registration is the old registry plus the new entry. The deploy-authorisation list is unchanged. |
| RootDeploy.RegistrationKeepsKeysCanonical | packages/vm/core/root/internal.go:158-163 | Registration keeps every registry key the byte form of the hname it decodes to. |
| KV.DelAtUndoesSetAt | packages/vm/core/root/internal.go:163-167 | Deleting the entry that was just added to a map that lacked it restores the whole store exactly. |

## Left out

- The bodies of the name hash, the hname, record and scalar codecs, `AgentID.Bytes`, `ColorIOTA`, `NewContractRecord` and `EntryPointInit` are fields of `Env`, not definitions.
- The storage layout of the keyed maps is not modelled. This includes any size bookkeeping the map library keeps. Each map is a namespace of keys in one store.
- The `init` call is modelled as a deterministic outcome of the state it sees. Any change that the called contract makes to the root contract's state is not modelled, for example a nested deployment from within `init`. The call's token-transfer argument, always nil here, is dropped.
- RootRegistry.DecodeContractRegistry: on an error, the Go code also returns the entries decoded so far. The model returns only the error. Which failing entry's error comes first depends on the store's iteration order, which the model leaves open.
- RootRegistry.DecodingHoldsEveryEntry: needs canonical keys. Without them, two keys could decode to the same hname, and which record wins would depend on iteration order. RegistrationKeepsKeysCanonical shows that deployments keep the keys canonical.
- Error messages are structured values (`NotFound`, `DecodeFailed`, `AlreadyExists`, `InitFailed`), not formatted strings.
- Fees are 64-bit values that are only compared and copied. No arithmetic is done on them, so no overflow arises.
