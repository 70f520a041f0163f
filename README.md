# Volatilum SDK: slot-consistent account reads, in Dafny

The Volatilum SDK is a read-only observation layer over Solana account state.
Its core is the slot-consistent read. One batched RPC call fetches the bytes of several
accounts, and the read is accepted only if it is bound to one context slot, that slot is not
below a configured floor (`minContextSlot`), and every requested account is present.
The result is a whole snapshot or a typed error, never a partial map. Four domain methods
(liquidity topology, execution signals, yield curve, risk constraints) check their inputs
and delegate to this read, in both the TypeScript client and the Rust client.

The model has one module per source file:

- `Common` (common.dfy): `Option`, `Result`, bytes, and the decimal rendering that the
  error message uses for slot numbers.
- `Errors` (errors.dfy): the six error codes with their string tags, `VolatilumError` with
  code, message, optional cause and fixed name, and `Failure`. A `Failure` is whatever was
  thrown: an SDK error or a foreign value.
- `Keys` (keys.dfy) and `Invariants` (invariants.dfy): the two guard helpers. A helper that
  throws or returns is modelled as an `Outcome` (`Pass` or `Fail(error)`).
- `SlotConsistentRpc` (slot_consistent_rpc.dfy): `readAccountsSlotConsistent` as a method
  with the completeness loop. It is proved equal to the specification function `ReadOf`.
  The properties of a read are proved as lemmas about `ReadOf`: exact key set, transport
  slot, floor before completeness, first missing key, no double wrapping, and one ledger
  slot behind every byte.
- `Client` (volatilum_client.dfy): the TypeScript `VolatilumClient`. Its connection and
  configuration are `const` fields set by the constructor. The four domain methods share
  `Observe`, and `Domain` picks the label of the key-list check.
- `RustTypes` (rust_types.dfy) and `RustClient` (rust_client.dfy): `Slot` as a `u64`, the
  crate's `Error` and `RawAccounts`, and the client. The client is generic over an abstract
  `ReadOnlyRpc`, given as a function parameter. The trait's documented contract, that all
  bytes are bound to a single slot, is stated as the assumption `BindsToOneSlot`.

The RPC transport is a parameter. A `Connection` is the answer the transport gives to each
`Request`: either a context slot with positional optional payloads, or a thrown `Failure`.
The reader's contract names the single request it makes: all keys, the commitment, and
the floor hint only when a floor is configured. "No RPC call on invalid input" is proved as
independence: the result is the same for every connection or RPC.

Three behaviours of the code are worth stating:

- The reader itself accepts an empty key list (packages/typescript/src/client/slotConsistentRpc.ts:41-54):
  it makes the call and returns an empty map. Only the domain methods reject an empty list
  (packages/typescript/src/client/volatilumClient.ts:38 and the matching lines of the other three).
- If a key is requested twice, the record is overwritten (slotConsistentRpc.ts:51), so the key
  maps to the payload at its last position in the request (`IsSnapshotOf`). With distinct keys, key `i` maps
  to payload `i` (`ReadPairsKeysWithEntries`).
- A response list shorter than the key list reads as `undefined` past its end
  (slotConsistentRpc.ts:44). The model treats that as a missing account (`EntryAt`).

Program ids are modelled as their base58 strings, so an empty id can be passed in. In the
TypeScript client the empty-id check (volatilumClient.ts:111-117) cannot fire in practice: a
`PublicKey` never prints as an empty string, and the all-zero default key prints as 32 `1`
characters. So that check does not reject default keys, despite its comment, and
`ObservationRejectsEmptyProgramId` describes a path that real TypeScript callers cannot reach.
The Rust check on `&str` (client.rs:52) can fire.

## Model

| member | source | states |
|---|---|---|
| `Common.Decimal` | packages/typescript/src/client/slotConsistentRpc.ts:37 | the slot as printed in the message: non-empty decimal digits, a leading zero only for 0 |
| `Common.DecimalRoundTrip` | packages/typescript/src/client/slotConsistentRpc.ts:37 | the printed digits denote exactly the slot number (`ValueOf(Decimal(n)) == n`) |
| `Common.DecimalInjective` | packages/typescript/src/client/slotConsistentRpc.ts:37 | two different slot numbers never print alike, so the message tells both slots apart |
| `Errors.CodesAreSixWithDistinctTags` | packages/typescript/src/utils/errors.ts:4-11 | exactly six codes, each listed once, and no two share a string tag |
| `Errors.NewVolatilumError` | packages/typescript/src/utils/errors.ts:16-24 | the constructed error carries exactly the given code, message and cause, and its name is "VolatilumError" |
| `Keys.AssertNonEmptyKeys` | packages/typescript/src/utils/keys.ts:4-11 | throws InvalidInput exactly when the list is empty, with the label at the head of the message; otherwise returns normally |
| `Keys.OnlyLengthMatters` | packages/typescript/src/utils/keys.ts:5 | any two key lists of the same length, of any key type, get the same answer |
| `Invariants.Invariant` | packages/typescript/src/utils/invariants.ts:3-7 | returns normally exactly when the condition holds; otherwise throws an error with exactly the given code and message |
| `SlotConsistentRpc.SlotBelowFloorError` | packages/typescript/src/client/slotConsistentRpc.ts:34-39 | an RpcSlotInconsistency error whose message names the returned slot and the floor |
| `SlotConsistentRpc.MissingAccountError` | packages/typescript/src/client/slotConsistentRpc.ts:45-50 | a MissingAccount error whose message names the key |
| `SlotConsistentRpc.Rethrow` | packages/typescript/src/client/slotConsistentRpc.ts:55-58 | an SDK error is rethrown unchanged; anything else becomes RpcError with the original as cause |
| `SlotConsistentRpc.ReadAccountsSlotConsistent` | packages/typescript/src/client/slotConsistentRpc.ts:16-59 | makes one transport request with all keys, the commitment and the floor hint only when set, and returns exactly `ReadOf` of its answer |
| `SlotConsistentRpc.CollectErrPersists` | packages/typescript/src/client/slotConsistentRpc.ts:42-50 | once the loop has thrown, later iterations do not change the outcome |
| `SlotConsistentRpc.CollectSucceedsIff` | packages/typescript/src/client/slotConsistentRpc.ts:42-52 | the loop completes exactly when every visited entry is present |
| `SlotConsistentRpc.CollectErrorIsMissingAccount` | packages/typescript/src/client/slotConsistentRpc.ts:45-50 | the only error the loop throws is MissingAccount, with no cause |
| `SlotConsistentRpc.CollectBuildsSnapshot` | packages/typescript/src/client/slotConsistentRpc.ts:41-52 | a completed loop maps exactly the visited keys, each to the payload at its last position |
| `SlotConsistentRpc.CollectReportsFirstMissing` | packages/typescript/src/client/slotConsistentRpc.ts:42-50 | the loop throws for the first absent entry, naming its key |
| `SlotConsistentRpc.LastOccurrenceExists` | packages/typescript/src/client/slotConsistentRpc.ts:51 | every key written to the record has a last position in the request |
| `SlotConsistentRpc.ReadSucceedsIff` | packages/typescript/src/client/slotConsistentRpc.ts:33-54 | a read succeeds exactly when the transport answered, the slot is not below the floor, and all entries are present; otherwise no map is returned |
| `SlotConsistentRpc.ReadReturnsSnapshot` | packages/typescript/src/client/slotConsistentRpc.ts:33-54 | on success the slot is the transport's context slot, not below the floor, and the key set is exactly the requested keys, each mapped to its payload |
| `SlotConsistentRpc.ReadPairsKeysWithEntries` | packages/typescript/src/client/slotConsistentRpc.ts:42-52 | with distinct keys, key i maps to the bytes of response entry i |
| `SlotConsistentRpc.ReadRejectsSlotBelowFloor` | packages/typescript/src/client/slotConsistentRpc.ts:34-39 | a slot strictly below a set floor is RpcSlotInconsistency, even when entries are also missing |
| `SlotConsistentRpc.ReadReportsFirstMissing` | packages/typescript/src/client/slotConsistentRpc.ts:42-50 | at or above the floor, the first absent entry in request order is reported as MissingAccount naming its key |
| `SlotConsistentRpc.ReadWrapsTransportFailure` | packages/typescript/src/client/slotConsistentRpc.ts:55-58 | an SDK error thrown by the transport passes through; any other failure becomes RpcError with it as cause |
| `SlotConsistentRpc.ReadNeverWrapsTwice` | packages/typescript/src/client/slotConsistentRpc.ts:55-58 | no error the reader creates has an SDK error as its cause |
| `SlotConsistentRpc.ReadIsBoundToLedgerSlot` | packages/typescript/src/client/slotConsistentRpc.ts:41-54 | when the answer reads one ledger state, every returned byte sequence is that state at the returned slot |
| `SlotConsistentRpc.ReadIsBoundToOneSlot` | packages/typescript/src/client/slotConsistentRpc.ts:9-15 | for a transport that binds answers to the ledger, a successful read never mixes slots |
| `Client.ValidateProgramId` | packages/typescript/src/client/volatilumClient.ts:111-118 | rejects exactly an empty base58 program id, with InvalidInput "programId is required" |
| `Client.VolatilumClient.constructor` | packages/typescript/src/client/volatilumClient.ts:24-31 | connection and config are set once; they are constants |
| `Client.VolatilumClient.Observe` | packages/typescript/src/client/volatilumClient.ts:36-50 | returns exactly `ObservationOf` for its domain, with the client's fixed connection and config |
| `Client.VolatilumClient.GetLiquidityTopology` | packages/typescript/src/client/volatilumClient.ts:36-50 | program id check, then the key-list check labelled `LiquidityTopologyQuery.accountKeys`, then the reader's slot and accounts or error unchanged (`ObservationOf`) |
| `Client.VolatilumClient.ObserveExecutionSignals` | packages/typescript/src/client/volatilumClient.ts:55-69 | program id check, then the key-list check labelled `ExecutionSignalsQuery.accountKeys`, then the reader's slot and accounts or error unchanged (`ObservationOf`) |
| `Client.VolatilumClient.DeriveYieldCurve` | packages/typescript/src/client/volatilumClient.ts:76-90 | program id check, then the key-list check labelled `YieldCurveQuery.accountKeys`, then the reader's slot and accounts or error unchanged (`ObservationOf`) |
| `Client.VolatilumClient.GetRiskConstraints` | packages/typescript/src/client/volatilumClient.ts:95-109 | program id check, then the key-list check labelled `RiskConstraintsQuery.accountKeys`, then the reader's slot and accounts or error unchanged (`ObservationOf`) |
| `Client.ObservationRejectsEmptyProgramId` | packages/typescript/src/client/volatilumClient.ts:37 | an empty program id gives the programId error, whatever the key list; that check comes first |
| `Client.ObservationRejectsEmptyKeys` | packages/typescript/src/client/volatilumClient.ts:37-38 | with a program id, an empty key list gives InvalidInput with the domain's label |
| `Client.ObservationMakesNoCallOnInvalidInput` | packages/typescript/src/client/volatilumClient.ts:36-47 | invalid input gives InvalidInput, and the result is the same for every connection |
| `Client.ObservationDelegates` | packages/typescript/src/client/volatilumClient.ts:40-49 | valid input gives the reader's result unchanged, with the configured commitment and floor |
| `Client.DomainsDifferOnlyInLabel` | packages/typescript/src/client/volatilumClient.ts:36-109 | the four domain methods agree except for the label in the empty-keys message |
| `Client.ObservationIsSlotConsistentSnapshot` | packages/typescript/src/client/volatilumClient.ts:17-23 | a successful observation covers exactly the requested keys, at a slot not below the floor, with all bytes from that one ledger slot |
| `Client.ExampleReadAtFloor` | packages/typescript/src/client/slotConsistentRpc.ts:33-54 | A = [1, 2] and B = [3] at slot 100 with floor 100 give exactly that snapshot |
| `Client.ExampleReadBelowFloor` | packages/typescript/src/client/slotConsistentRpc.ts:34-39 | the same with floor 101 gives RpcSlotInconsistency, and the message names 100 and 101 |
| `Client.ExampleReadMissingAccount` | packages/typescript/src/client/slotConsistentRpc.ts:42-50 | requesting A and an absent C gives MissingAccount naming C, and A's bytes appear nowhere |
| `RustTypes.NewError` | packages/rust/src/types.rs:24-28 | `Error::new` stores exactly the given code and message |
| `RustClient.ValidatedRead` | packages/rust/src/client.rs:47-63 | an empty program id, then an empty key list, gives InvalidInput; otherwise the RPC's result for the keys and the client's config, unchanged |
| `RustClient.VolatilumClient.GetLiquidityTopology` | packages/rust/src/client.rs:47-63 | exactly `ValidatedRead` with the client's RPC and config: both emptiness checks, then the RPC result unchanged |
| `RustClient.VolatilumClient.ObserveExecutionSignals` | packages/rust/src/client.rs:66-82 | exactly `ValidatedRead` with the client's RPC and config: both emptiness checks, then the RPC result unchanged |
| `RustClient.VolatilumClient.DeriveYieldCurve` | packages/rust/src/client.rs:87-103 | exactly `ValidatedRead` with the client's RPC and config: both emptiness checks, then the RPC result unchanged |
| `RustClient.VolatilumClient.GetRiskConstraints` | packages/rust/src/client.rs:106-122 | exactly `ValidatedRead` with the client's RPC and config: both emptiness checks, then the RPC result unchanged |
| `RustClient.NewClient` | packages/rust/src/client.rs:42-44 | the client holds exactly the given RPC and config |
| `RustClient.ValidatedReadMakesNoCallOnInvalidInput` | packages/rust/src/client.rs:52-60 | invalid input gives InvalidInput, and the answer is the same for every RPC |
| `RustClient.ValidatedReadIsSlotConsistent` | packages/rust/src/client.rs:24-33 | assuming the trait's single-slot contract and the config's floor, a successful read is bound to one ledger slot, not below the floor |

## Left out

- The RPC call itself (`Connection.getMultipleAccountsInfoAndContext`, async/await) is network I/O. It is the `Connection` parameter. A connection is a fixed function of the request, so each lemma covers every possible answer to one call. How answers change between separate calls is not modelled.
- `PublicKey.toBase58()` is a foreign encoder. Keys and program ids are their base58 strings.
- Commitment levels are passed through and never interpreted. `Commitment` is a string.
- Account info fields other than `data` (lamports, owner, executable, rent epoch) are ignored by the source and left out.
- `new Uint8Array(info.data)` copies the payload. The model holds bytes as immutable sequences, so the result cannot alias a transport buffer. Update in place and aliasing are not represented.
- The TypeScript slot is an IEEE `number`. It is modelled as a natural number, so NaN and fractional slots are left out. The Rust `Slot` is bounded to `u64`.
- `Invariants.Invariant`: the condition is a boolean. JavaScript truthiness of arbitrary values is not modelled.
- The `MalformedAccountData` and `LayoutVersionMismatch` codes exist in the taxonomy but nothing in the core raises them. Account byte decoding is not part of the SDK.
- `VolatilumError`'s inheritance from `Error` (stack trace, `instanceof` chains) is reduced to the `Typed`/`Foreign` distinction that the catch block tests.
- The domain result types and query types are one generic snapshot and one query. The placeholder state and layout modules hold no logic.
- `RawAccounts` is a `BTreeMap`. Its key ordering and iteration order are not modelled; the map itself is.
- The Rust trait has no implementation in the crate. Its doc contract (single slot) and the config's floor doc are the assumptions `BindsToOneSlot` and `HonoursFloor`. They are not proved of any implementation.
- The four Rust domain methods have identical bodies. In the model each of the four delegates to one shared function, `ValidatedRead`, so they agree by construction.
