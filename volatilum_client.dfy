/** The Observation Facade of the TypeScript client
    (packages/typescript/src/client/volatilumClient.ts). */
module Client {
  import opened Common
  import opened Errors
  import opened Keys
  import opened SlotConsistentRpc

  /** Client-wide configuration, fixed at construction. */
  datatype ClientConfig = ClientConfig(commitment: Commitment, minContextSlot: Option<nat>)

  /** The four observation domains; they differ only in the label of the key-list check. */
  datatype Domain = LiquidityTopology | ExecutionSignals | YieldCurve | RiskConstraints

  /** A domain query: the program id and the accounts to read, as base58 strings. */
  datatype Query = Query(programId: Key, accountKeys: seq<Key>)

  function KeysLabel(domain: Domain): string
  {
    match domain
    case LiquidityTopology => "LiquidityTopologyQuery.accountKeys"
    case ExecutionSignals => "ExecutionSignalsQuery.accountKeys"
    case YieldCurve => "YieldCurveQuery.accountKeys"
    case RiskConstraints => "RiskConstraintsQuery.accountKeys"
  }

  /** `validateProgramId`: rejects exactly the program id whose base58 string is empty. */
  function ValidateProgramId(programId: Key): (r: Outcome)
    ensures r.Fail? <==> |programId| == 0
    ensures r.Fail? ==> r.error == NewVolatilumError(InvalidInput, "programId is required", None)
  {
    if |programId| == 0 then Fail(NewVolatilumError(InvalidInput, "programId is required", None)) else Pass
  }

  /** What one domain method returns: program id check, then key-list check,
      then the reader with the configured commitment and floor; the reader's
      slot and accounts are re-tagged as they are and its errors propagate. */
  function ObservationOf(connection: Connection, config: ClientConfig, domain: Domain, query: Query): ReadResult
  {
    match ValidateProgramId(query.programId)
    case Fail(e) => Err(e)
    case Pass =>
      match AssertNonEmptyKeys(query.accountKeys, KeysLabel(domain))
      case Fail(e) => Err(e)
      case Pass =>
        var req := Request(query.accountKeys, config.commitment, config.minContextSlot);
        match ReadOf(query.accountKeys, config.minContextSlot, connection(req))
        case Err(e) => Err(e)
        case Ok(read) => Ok(SlotConsistentAccountsRead(read.slot, read.accounts))
  }

  /** The read-only client. Its connection and configuration are constants. */
  class VolatilumClient {
    const connection: Connection
    const config: ClientConfig

    constructor (connection: Connection, config: ClientConfig)
      ensures this.connection == connection && this.config == config
    {
      this.connection := connection;
      this.config := config;
    }

    method Observe(domain: Domain, query: Query) returns (r: ReadResult)
      ensures r == ObservationOf(connection, config, domain, query)
    {
      var programIdCheck := ValidateProgramId(query.programId);
      if programIdCheck.Fail? {
        return Err(programIdCheck.error);
      }
      var keysCheck := AssertNonEmptyKeys(query.accountKeys, KeysLabel(domain));
      if keysCheck.Fail? {
        return Err(keysCheck.error);
      }
      var read := ReadAccountsSlotConsistent(connection, query.accountKeys, config.commitment, config.minContextSlot);
      if read.Err? {
        return Err(read.error);
      }
      return Ok(SlotConsistentAccountsRead(read.value.slot, read.value.accounts));
    }

    method GetLiquidityTopology(query: Query) returns (r: ReadResult)
      ensures r == ObservationOf(connection, config, LiquidityTopology, query)
    {
      r := Observe(LiquidityTopology, query);
    }

    method ObserveExecutionSignals(query: Query) returns (r: ReadResult)
      ensures r == ObservationOf(connection, config, ExecutionSignals, query)
    {
      r := Observe(ExecutionSignals, query);
    }

    method DeriveYieldCurve(query: Query) returns (r: ReadResult)
      ensures r == ObservationOf(connection, config, YieldCurve, query)
    {
      r := Observe(YieldCurve, query);
    }

    method GetRiskConstraints(query: Query) returns (r: ReadResult)
      ensures r == ObservationOf(connection, config, RiskConstraints, query)
    {
      r := Observe(RiskConstraints, query);
    }
  }

  /** An empty program id is rejected first, whatever the key list. */
  lemma ObservationRejectsEmptyProgramId(connection: Connection, config: ClientConfig, domain: Domain, query: Query)
    requires |query.programId| == 0
    ensures ObservationOf(connection, config, domain, query)
         == Err(NewVolatilumError(InvalidInput, "programId is required", None))
  {
  }

  /** With a program id, an empty key list is rejected with the domain's label. */
  lemma ObservationRejectsEmptyKeys(connection: Connection, config: ClientConfig, domain: Domain, query: Query)
    requires |query.programId| > 0 && |query.accountKeys| == 0
    ensures var r := ObservationOf(connection, config, domain, query);
      && r.Err? && r.error.code == InvalidInput
      && r.error.message == KeysLabel(domain) + " must contain at least one public key"
  {
  }

  /** Invalid input is rejected before any transport call: the answer does not
      depend on the connection at all. */
  lemma ObservationMakesNoCallOnInvalidInput(c1: Connection, c2: Connection, config: ClientConfig,
                                             domain: Domain, query: Query)
    requires |query.programId| == 0 || |query.accountKeys| == 0
    ensures ObservationOf(c1, config, domain, query) == ObservationOf(c2, config, domain, query)
    ensures ObservationOf(c1, config, domain, query).Err?
    ensures ObservationOf(c1, config, domain, query).error.code == InvalidInput
  {
  }

  /** Valid input is one read with the configured commitment and floor, whose
      result (slot, accounts or error) is returned unchanged. */
  lemma ObservationDelegates(connection: Connection, config: ClientConfig, domain: Domain, query: Query)
    requires |query.programId| > 0 && |query.accountKeys| > 0
    ensures ObservationOf(connection, config, domain, query)
         == ReadOf(query.accountKeys, config.minContextSlot,
                   connection(Request(query.accountKeys, config.commitment, config.minContextSlot)))
  {
  }

  /** The four domain methods agree except for the label in the empty-keys message. */
  lemma DomainsDifferOnlyInLabel(connection: Connection, config: ClientConfig, d1: Domain, d2: Domain, query: Query)
    ensures |query.programId| == 0 || |query.accountKeys| > 0 ==>
      ObservationOf(connection, config, d1, query) == ObservationOf(connection, config, d2, query)
    ensures ObservationOf(connection, config, d1, query).Ok? == ObservationOf(connection, config, d2, query).Ok?
    ensures ObservationOf(connection, config, d1, query).Err? ==>
      ObservationOf(connection, config, d1, query).error.code == ObservationOf(connection, config, d2, query).error.code
  {
  }

  /** End to end: a successful observation holds exactly the requested keys, at
      a slot not below the configured floor, with every byte sequence taken
      from the ledger state at that one slot. */
  lemma ObservationIsSlotConsistentSnapshot(connection: Connection, ledger: Ledger, config: ClientConfig,
                                            domain: Domain, query: Query)
    requires AnswersFromLedger(connection, ledger)
    requires ObservationOf(connection, config, domain, query).Ok?
    ensures var read := ObservationOf(connection, config, domain, query).value;
      && read.accounts.Keys == (set k | k in query.accountKeys)
      && (config.minContextSlot.Some? ==> read.slot >= config.minContextSlot.value)
      && forall k :: k in read.accounts ==> ledger(read.slot, k) == Some(read.accounts[k])
  {
    var req := Request(query.accountKeys, config.commitment, config.minContextSlot);
    ReadReturnsSnapshot(query.accountKeys, config.minContextSlot, connection(req));
    ReadIsBoundToOneSlot(connection, ledger, query.accountKeys, config.commitment, config.minContextSlot);
  }

  // ---------------------------------------------------------------------------
  // Worked examples: accounts A = [0x01, 0x02] and B = [0x03] exist at slot 100; C does not.

  function ExampleAccount(key: Key): Option<Bytes>
  {
    if key == "A" then Some([0x01, 0x02]) else if key == "B" then Some([0x03]) else None
  }

  /** A transport that answers every request at slot 100. */
  function ExampleConnection(): Connection
  {
    (req: Request) => Answered(Response(100, seq(|req.accountKeys|, i requires 0 <= i < |req.accountKeys| =>
                                         ExampleAccount(req.accountKeys[i]))))
  }

  lemma ExampleReadAtFloor()
    ensures ObservationOf(ExampleConnection(), ClientConfig("confirmed", Some(100)), LiquidityTopology,
                          Query("Program", ["A", "B"]))
         == Ok(SlotConsistentAccountsRead(100, map["A" := [0x01, 0x02], "B" := [0x03]]))
  {
    var value := [Some([0x01, 0x02]), Some([0x03])];
    assert ExampleConnection()(Request(["A", "B"], "confirmed", Some(100))) == Answered(Response(100, value));
    assert CollectAccounts(["A", "B"], value, 2) == Ok(map["A" := [0x01, 0x02], "B" := [0x03]]);
  }

  lemma ExampleReadBelowFloor()
    ensures ObservationOf(ExampleConnection(), ClientConfig("confirmed", Some(101)), LiquidityTopology,
                          Query("Program", ["A", "B"]))
         == Err(NewVolatilumError(RpcSlotInconsistency,
                                  "RPC returned slot " + "100" + " below minContextSlot " + "101", None))
  {
    var req := Request(["A", "B"], "confirmed", Some(101));
    assert ExampleConnection()(req).response.slot == 100;
    ReadRejectsSlotBelowFloor(["A", "B"], Some(101), ExampleConnection()(req));
    DecimalOfExampleSlots();
  }

  lemma DecimalOfExampleSlots()
    ensures Decimal(100) == "100" && Decimal(101) == "101"
  {
    assert Decimal(1) == "1";
    assert Decimal(10) == Decimal(1) + [DigitChar(0)] == "10";
    assert Decimal(100) == Decimal(10) + [DigitChar(0)];
    assert Decimal(101) == Decimal(10) + [DigitChar(1)];
  }

  lemma ExampleReadMissingAccount()
    ensures ObservationOf(ExampleConnection(), ClientConfig("confirmed", Some(100)), LiquidityTopology,
                          Query("Program", ["A", "C"]))
         == Err(NewVolatilumError(MissingAccount, "Missing account data for C", None))
  {
    var value := [Some([0x01, 0x02]), None];
    assert ExampleConnection()(Request(["A", "C"], "confirmed", Some(100))) == Answered(Response(100, value));
    assert CollectAccounts(["A", "C"], value, 2) == Err(MissingAccountError("C"));
    assert "Missing account data for " + "C" == "Missing account data for C";
  }
}
