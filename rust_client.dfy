/** The Rust client (packages/rust/src/client.rs). */
module RustClient {
  import opened Common
  import opened RustTypes
  import Errors

  /** Read-only client configuration; a `Copy` value. */
  datatype ClientConfig = ClientConfig(minContextSlot: Option<Slot>)

  /** An observation bound to a single slot. */
  datatype SlotConsistentRead = SlotConsistentRead(slot: Slot, accounts: RawAccounts)

  /** The `ReadOnlyRpc` trait's one operation. The crate ships no implementation,
      so it is a parameter of the client. */
  type ReadOnlyRpc = (seq<string>, ClientConfig) -> Result<SlotConsistentRead, Error>

  /** Account state at each slot. */
  type Ledger = (Slot, string) -> Option<Bytes>

  /** The trait's documented contract, assumed of an implementation: every byte
      sequence it returns is the ledger's state at the one slot it reports. */
  ghost predicate BindsToOneSlot(rpc: ReadOnlyRpc, ledger: Ledger)
  {
    forall keys: seq<string>, config: ClientConfig :: rpc(keys, config).Ok? ==>
      forall k :: k in rpc(keys, config).value.accounts ==>
        ledger(rpc(keys, config).value.slot, k) == Some(rpc(keys, config).value.accounts[k])
  }

  /** The configuration's documented contract, assumed of an implementation:
      observations below the configured floor are rejected. */
  ghost predicate HonoursFloor(rpc: ReadOnlyRpc)
  {
    forall keys: seq<string>, config: ClientConfig ::
      rpc(keys, config).Ok? && config.minContextSlot.Some? ==>
        rpc(keys, config).value.slot >= config.minContextSlot.value
  }

  /** The body shared, word for word, by the four domain methods: two emptiness
      checks, then the RPC result as it is. */
  function ValidatedRead(rpc: ReadOnlyRpc, config: ClientConfig, programId: string, accountKeys: seq<string>)
    : (r: Result<SlotConsistentRead, Error>)
    ensures |programId| == 0 ==> r == Err(NewError(Errors.InvalidInput, "program_id_base58 is required"))
    ensures |programId| > 0 && |accountKeys| == 0 ==>
      r == Err(NewError(Errors.InvalidInput, "account_keys_base58 must be non-empty"))
    ensures |programId| > 0 && |accountKeys| > 0 ==> r == rpc(accountKeys, config)
  {
    if |programId| == 0 then
      Err(NewError(Errors.InvalidInput, "program_id_base58 is required"))
    else if |accountKeys| == 0 then
      Err(NewError(Errors.InvalidInput, "account_keys_base58 must be non-empty"))
    else
      rpc(accountKeys, config)
  }

  /** The client owns its RPC and a configuration it never changes. */
  datatype VolatilumClient = VolatilumClient(rpc: ReadOnlyRpc, config: ClientConfig)
  {
    function GetLiquidityTopology(programId: string, accountKeys: seq<string>): (r: Result<SlotConsistentRead, Error>)
      ensures r == ValidatedRead(rpc, config, programId, accountKeys)
    {
      ValidatedRead(rpc, config, programId, accountKeys)
    }

    function ObserveExecutionSignals(programId: string, accountKeys: seq<string>): (r: Result<SlotConsistentRead, Error>)
      ensures r == ValidatedRead(rpc, config, programId, accountKeys)
    {
      ValidatedRead(rpc, config, programId, accountKeys)
    }

    function DeriveYieldCurve(programId: string, accountKeys: seq<string>): (r: Result<SlotConsistentRead, Error>)
      ensures r == ValidatedRead(rpc, config, programId, accountKeys)
    {
      ValidatedRead(rpc, config, programId, accountKeys)
    }

    function GetRiskConstraints(programId: string, accountKeys: seq<string>): (r: Result<SlotConsistentRead, Error>)
      ensures r == ValidatedRead(rpc, config, programId, accountKeys)
    {
      ValidatedRead(rpc, config, programId, accountKeys)
    }
  }

  /** `VolatilumClient::new`. */
  function NewClient(rpc: ReadOnlyRpc, config: ClientConfig): (c: VolatilumClient)
    ensures c.rpc == rpc && c.config == config
  {
    VolatilumClient(rpc, config)
  }

  /** Invalid input is answered without calling the RPC: the answer is the same
      for every RPC. */
  lemma ValidatedReadMakesNoCallOnInvalidInput(rpc1: ReadOnlyRpc, rpc2: ReadOnlyRpc, config: ClientConfig,
                                               programId: string, accountKeys: seq<string>)
    requires |programId| == 0 || |accountKeys| == 0
    ensures ValidatedRead(rpc1, config, programId, accountKeys) == ValidatedRead(rpc2, config, programId, accountKeys)
    ensures ValidatedRead(rpc1, config, programId, accountKeys).Err?
    ensures ValidatedRead(rpc1, config, programId, accountKeys).error.code == Errors.InvalidInput
  {
  }

  /** Under the trait's and the configuration's contracts, a successful client
      read is bound to one slot of the ledger, not below the configured floor. */
  lemma ValidatedReadIsSlotConsistent(rpc: ReadOnlyRpc, ledger: Ledger, config: ClientConfig,
                                      programId: string, accountKeys: seq<string>)
    requires BindsToOneSlot(rpc, ledger) && HonoursFloor(rpc)
    requires ValidatedRead(rpc, config, programId, accountKeys).Ok?
    ensures var read := ValidatedRead(rpc, config, programId, accountKeys).value;
      && (config.minContextSlot.Some? ==> read.slot >= config.minContextSlot.value)
      && forall k :: k in read.accounts ==> ledger(read.slot, k) == Some(read.accounts[k])
  {
    assert rpc(accountKeys, config).Ok?;
  }
}
