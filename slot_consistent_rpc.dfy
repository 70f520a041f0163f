/** The Snapshot Reader (packages/typescript/src/client/slotConsistentRpc.ts):
    one batched read of account bytes, checked to be bound to one slot and complete. */
module SlotConsistentRpc {
  import opened Common
  import opened Errors

  /** An account key, as its base58 string. */
  type Key = string

  /** The consistency level; passed through to the transport, never interpreted. */
  type Commitment = string

  /** The transport's payloads, aligned by position with the requested keys. */
  type Entries = seq<Option<Bytes>>

  /** The one batched request: all keys, the commitment, and the slot floor as a
      hint only when one is configured. */
  datatype Request = Request(accountKeys: seq<Key>, commitment: Commitment, minContextSlot: Option<nat>)

  /** A transport answer: the context slot and the positional payloads. */
  datatype Response = Response(slot: nat, value: Entries)

  /** The transport either answers or throws (network, timeout, malformed envelope). */
  datatype TransportOutcome = Answered(response: Response) | Threw(cause: Failure)

  /** The ledger RPC transport, as the answer it gives to each request. */
  type Connection = Request -> TransportOutcome

  /** A successful read: one slot and the bytes of every requested account. */
  datatype SlotConsistentAccountsRead = SlotConsistentAccountsRead(slot: nat, accounts: map<Key, Bytes>)

  type ReadResult = Result<SlotConsistentAccountsRead, VolatilumError>

  /** Account state at each slot: what a key holds there, if anything. */
  type Ledger = (nat, Key) -> Option<Bytes>

  /** `res.value[i]`: an index past the end reads as `undefined`, i.e. absent. */
  function EntryAt(value: Entries, i: nat): Option<Bytes>
  {
    if i < |value| then value[i] else None
  }

  function SlotBelowFloorError(slot: nat, floor: nat): (e: VolatilumError)
    ensures e.code == RpcSlotInconsistency && e.cause.None?
    ensures e.message == "RPC returned slot " + Decimal(slot) + " below minContextSlot " + Decimal(floor)
  {
    NewVolatilumError(RpcSlotInconsistency,
      "RPC returned slot " + Decimal(slot) + " below minContextSlot " + Decimal(floor), None)
  }

  function MissingAccountError(key: Key): (e: VolatilumError)
    ensures e.code == MissingAccount && e.cause.None?
    ensures e.message == "Missing account data for " + key
  {
    NewVolatilumError(MissingAccount, "Missing account data for " + key, None)
  }

  /** The catch block: an SDK error is rethrown as it is, anything else is
      wrapped once as `RpcError` with the original as its cause. */
  function Rethrow(thrown: Failure): (e: VolatilumError)
    ensures thrown.Typed? ==> e == thrown.error
    ensures thrown.Foreign? ==> e.code == RpcError && e.message == "RPC read failed" && e.cause == Some(thrown)
  {
    match thrown
    case Typed(error) => error
    case Foreign(_) => NewVolatilumError(RpcError, "RPC read failed", Some(thrown))
  }

  predicate BelowFloor(minContextSlot: Option<nat>, slot: nat)
  {
    minContextSlot.Some? && slot < minContextSlot.value
  }

  /** The completeness loop after its first `n` iterations: the accounts record
      built so far, or the error for the first absent entry. */
  function CollectAccounts(keys: seq<Key>, value: Entries, n: nat): Result<map<Key, Bytes>, VolatilumError>
    requires n <= |keys|
  {
    if n == 0 then Ok(map[])
    else
      match CollectAccounts(keys, value, n - 1)
      case Err(e) => Err(e)
      case Ok(accounts) =>
        match EntryAt(value, n - 1)
        case None => Err(MissingAccountError(keys[n - 1]))
        case Some(data) => Ok(accounts[keys[n - 1] := data])
  }

  /** What one read returns, given what the transport did. */
  function ReadOf(keys: seq<Key>, minContextSlot: Option<nat>, outcome: TransportOutcome): ReadResult
  {
    match outcome
    case Threw(cause) => Err(Rethrow(cause))
    case Answered(res) =>
      if BelowFloor(minContextSlot, res.slot) then
        Err(Rethrow(Typed(SlotBelowFloorError(res.slot, minContextSlot.value))))
      else
        match CollectAccounts(keys, res.value, |keys|)
        case Err(e) => Err(Rethrow(Typed(e)))
        case Ok(accounts) => Ok(SlotConsistentAccountsRead(res.slot, accounts))
  }

  /** `readAccountsSlotConsistent`: exactly one transport call, carrying every key,
      then the slot-floor check, then the completeness loop. */
  method ReadAccountsSlotConsistent(connection: Connection, accountKeys: seq<Key>,
                                    commitment: Commitment, minContextSlot: Option<nat>)
    returns (r: ReadResult)
    ensures r == ReadOf(accountKeys, minContextSlot, connection(Request(accountKeys, commitment, minContextSlot)))
  {
    var res := connection(Request(accountKeys, commitment, minContextSlot));
    var thrown: Option<Failure> := None;
    var slot: nat := 0;
    var accounts: map<Key, Bytes> := map[];
    match res {
      case Threw(cause) =>
        thrown := Some(cause);
      case Answered(response) =>
        slot := response.slot;
        if minContextSlot.Some? && slot < minContextSlot.value {
          thrown := Some(Typed(SlotBelowFloorError(slot, minContextSlot.value)));
        } else {
          var i := 0;
          while i < |accountKeys|
            invariant i <= |accountKeys|
            invariant CollectAccounts(accountKeys, response.value, i) == Ok(accounts)
          {
            var key := accountKeys[i];
            var info := EntryAt(response.value, i);
            if info.None? {
              thrown := Some(Typed(MissingAccountError(key)));
              CollectErrPersists(accountKeys, response.value, i + 1, |accountKeys|);
              break;
            }
            accounts := accounts[key := info.value];
            i := i + 1;
          }
        }
    }
    if thrown.Some? {
      r := Err(Rethrow(thrown.value));
    } else {
      r := Ok(SlotConsistentAccountsRead(slot, accounts));
    }
  }

  // ---------------------------------------------------------------------------
  // The reference view of a snapshot, independent of the loop.

  /** The set of requested keys among the first `n`. */
  function KeySet(keys: seq<Key>, n: nat): set<Key>
    requires n <= |keys|
  {
    set i | 0 <= i < n :: keys[i]
  }

  /** Every one of the first `n` entries is present. */
  ghost predicate AllPresent(value: Entries, n: nat)
  {
    forall i :: 0 <= i < n ==> EntryAt(value, i).Some?
  }

  /** Position `i` is the last request of its key among the first `n`. */
  ghost predicate IsLastOccurrence(keys: seq<Key>, n: nat, i: nat)
  {
    i < n <= |keys| && forall j :: i < j < n ==> keys[j] != keys[i]
  }

  /** `accounts` holds exactly the first `n` requested keys, each mapped to the
      payload at its last position in the request. */
  ghost predicate IsSnapshotOf(keys: seq<Key>, value: Entries, n: nat, accounts: map<Key, Bytes>)
    requires n <= |keys|
  {
    && accounts.Keys == KeySet(keys, n)
    && forall i: nat :: IsLastOccurrence(keys, n, i) ==>
         EntryAt(value, i).Some? && accounts[keys[i]] == EntryAt(value, i).value
  }

  // ---------------------------------------------------------------------------
  // The completeness loop.

  lemma {:induction false} CollectErrPersists(keys: seq<Key>, value: Entries, m: nat, n: nat)
    requires m <= n <= |keys|
    requires CollectAccounts(keys, value, m).Err?
    ensures CollectAccounts(keys, value, n) == CollectAccounts(keys, value, m)
  {
    if m < n {
      CollectErrPersists(keys, value, m, n - 1);
    }
  }

  /** The loop finishes without throwing exactly when every entry it visits is present. */
  lemma {:induction false} CollectSucceedsIff(keys: seq<Key>, value: Entries, n: nat)
    requires n <= |keys|
    ensures CollectAccounts(keys, value, n).Ok? <==> AllPresent(value, n)
  {
    if n > 0 {
      CollectSucceedsIff(keys, value, n - 1);
      if CollectAccounts(keys, value, n).Ok? {
        assert CollectAccounts(keys, value, n - 1).Ok?;
        assert EntryAt(value, n - 1).Some?;
      }
    }
  }

  /** The only error the loop raises is `MissingAccount`, with no cause. */
  lemma {:induction false} CollectErrorIsMissingAccount(keys: seq<Key>, value: Entries, n: nat)
    requires n <= |keys|
    requires CollectAccounts(keys, value, n).Err?
    ensures CollectAccounts(keys, value, n).error.code == MissingAccount
    ensures CollectAccounts(keys, value, n).error.cause.None?
  {
    if CollectAccounts(keys, value, n - 1).Err? {
      CollectErrorIsMissingAccount(keys, value, n - 1);
    }
  }

  /** A finished loop has built the snapshot of the keys it visited. */
  lemma {:induction false} CollectBuildsSnapshot(keys: seq<Key>, value: Entries, n: nat)
    requires n <= |keys|
    requires CollectAccounts(keys, value, n).Ok?
    ensures IsSnapshotOf(keys, value, n, CollectAccounts(keys, value, n).value)
  {
    if n > 0 {
      var prev := CollectAccounts(keys, value, n - 1);
      assert prev.Ok?;
      CollectBuildsSnapshot(keys, value, n - 1);
      var accounts := CollectAccounts(keys, value, n).value;
      assert accounts == prev.value[keys[n - 1] := EntryAt(value, n - 1).value];
      assert KeySet(keys, n) == KeySet(keys, n - 1) + {keys[n - 1]};
      forall i: nat | IsLastOccurrence(keys, n, i)
        ensures EntryAt(value, i).Some? && accounts[keys[i]] == EntryAt(value, i).value
      {
        if i < n - 1 {
          assert keys[n - 1] != keys[i];
          assert IsLastOccurrence(keys, n - 1, i);
        }
      }
    }
  }

  /** The loop stops at the first absent entry and names its key. */
  lemma {:induction false} CollectReportsFirstMissing(keys: seq<Key>, value: Entries, n: nat, i: nat)
    requires i < n <= |keys|
    requires AllPresent(value, i) && EntryAt(value, i).None?
    ensures CollectAccounts(keys, value, n) == Err(MissingAccountError(keys[i]))
  {
    CollectSucceedsIff(keys, value, i);
    assert CollectAccounts(keys, value, i + 1) == Err(MissingAccountError(keys[i]));
    CollectErrPersists(keys, value, i + 1, n);
  }

  /** Every requested key has a last position in the request. */
  lemma {:induction false} LastOccurrenceExists(keys: seq<Key>, n: nat, k: Key)
    requires n <= |keys|
    requires k in KeySet(keys, n)
    ensures exists i: nat :: IsLastOccurrence(keys, n, i) && keys[i] == k
  {
    if keys[n - 1] == k {
      assert IsLastOccurrence(keys, n, n - 1);
    } else {
      assert k in KeySet(keys, n - 1);
      LastOccurrenceExists(keys, n - 1, k);
      var i: nat :| IsLastOccurrence(keys, n - 1, i) && keys[i] == k;
      assert IsLastOccurrence(keys, n, i);
    }
  }

  // ---------------------------------------------------------------------------
  // Properties of one read.

  /** A read succeeds exactly when the transport answered, the slot is not below
      the floor, and every requested entry is present: there is no partial result. */
  lemma ReadSucceedsIff(keys: seq<Key>, minContextSlot: Option<nat>, outcome: TransportOutcome)
    ensures ReadOf(keys, minContextSlot, outcome).Ok? <==>
      && outcome.Answered?
      && !BelowFloor(minContextSlot, outcome.response.slot)
      && AllPresent(outcome.response.value, |keys|)
  {
    if outcome.Answered? {
      CollectSucceedsIff(keys, outcome.response.value, |keys|);
    }
  }

  /** A successful read carries the transport's slot, which is not below the
      floor, and maps exactly the requested keys to their payloads. */
  lemma ReadReturnsSnapshot(keys: seq<Key>, minContextSlot: Option<nat>, outcome: TransportOutcome)
    requires ReadOf(keys, minContextSlot, outcome).Ok?
    ensures outcome.Answered?
    ensures ReadOf(keys, minContextSlot, outcome).value.slot == outcome.response.slot
    ensures minContextSlot.Some? ==> ReadOf(keys, minContextSlot, outcome).value.slot >= minContextSlot.value
    ensures ReadOf(keys, minContextSlot, outcome).value.accounts.Keys == set k | k in keys
    ensures IsSnapshotOf(keys, outcome.response.value, |keys|, ReadOf(keys, minContextSlot, outcome).value.accounts)
  {
    CollectBuildsSnapshot(keys, outcome.response.value, |keys|);
    assert KeySet(keys, |keys|) == set k | k in keys by {
      forall k | k in keys ensures k in KeySet(keys, |keys|) {
        var i :| 0 <= i < |keys| && keys[i] == k;
      }
    }
  }

  /** With distinct keys, key `i` maps to payload `i`. */
  lemma ReadPairsKeysWithEntries(keys: seq<Key>, minContextSlot: Option<nat>, outcome: TransportOutcome, i: nat)
    requires ReadOf(keys, minContextSlot, outcome).Ok?
    requires forall a, b :: 0 <= a < b < |keys| ==> keys[a] != keys[b]
    requires i < |keys|
    ensures i < |outcome.response.value| && outcome.response.value[i].Some?
    ensures keys[i] in ReadOf(keys, minContextSlot, outcome).value.accounts
    ensures ReadOf(keys, minContextSlot, outcome).value.accounts[keys[i]] == outcome.response.value[i].value
  {
    ReadReturnsSnapshot(keys, minContextSlot, outcome);
    assert IsLastOccurrence(keys, |keys|, i);
  }

  /** A slot below the floor is reported, whatever the entries are: the floor
      check comes before the completeness check. */
  lemma ReadRejectsSlotBelowFloor(keys: seq<Key>, minContextSlot: Option<nat>, outcome: TransportOutcome)
    requires outcome.Answered? && BelowFloor(minContextSlot, outcome.response.slot)
    ensures ReadOf(keys, minContextSlot, outcome)
         == Err(SlotBelowFloorError(outcome.response.slot, minContextSlot.value))
  {
  }

  /** At or above the floor (or with no floor), an absent entry is reported as
      `MissingAccount` naming the first absent key in request order. */
  lemma ReadReportsFirstMissing(keys: seq<Key>, minContextSlot: Option<nat>, outcome: TransportOutcome, i: nat)
    requires outcome.Answered? && !BelowFloor(minContextSlot, outcome.response.slot)
    requires i < |keys| && AllPresent(outcome.response.value, i) && EntryAt(outcome.response.value, i).None?
    ensures ReadOf(keys, minContextSlot, outcome) == Err(MissingAccountError(keys[i]))
  {
    CollectReportsFirstMissing(keys, outcome.response.value, |keys|, i);
  }

  /** The catch block's behaviour on a transport failure. */
  lemma ReadWrapsTransportFailure(keys: seq<Key>, minContextSlot: Option<nat>, outcome: TransportOutcome)
    requires outcome.Threw?
    ensures outcome.cause.Typed? ==> ReadOf(keys, minContextSlot, outcome) == Err(outcome.cause.error)
    ensures outcome.cause.Foreign? ==>
      ReadOf(keys, minContextSlot, outcome) == Err(NewVolatilumError(RpcError, "RPC read failed", Some(outcome.cause)))
  {
  }

  /** Nothing is wrapped twice: an error the reader creates never has an SDK
      error as its cause; the only SDK error it returns unchanged is one the
      transport itself threw. */
  lemma ReadNeverWrapsTwice(keys: seq<Key>, minContextSlot: Option<nat>, outcome: TransportOutcome)
    requires ReadOf(keys, minContextSlot, outcome).Err?
    ensures var e := ReadOf(keys, minContextSlot, outcome).error;
      outcome == Threw(Typed(e)) || e.cause.None? || e.cause.value.Foreign?
  {
    if outcome.Answered? && !BelowFloor(minContextSlot, outcome.response.slot) {
      CollectErrorIsMissingAccount(keys, outcome.response.value, |keys|);
    }
  }

  /** A transport answer bound to one ledger state: each present payload is
      what the ledger holds for its key at the answered slot. */
  ghost predicate ResponseFromLedger(keys: seq<Key>, res: Response, ledger: Ledger)
  {
    forall i :: 0 <= i < |keys| && EntryAt(res.value, i).Some? ==>
      ledger(res.slot, keys[i]) == EntryAt(res.value, i)
  }

  /** The transport binds every answer to one slot of the ledger. */
  ghost predicate AnswersFromLedger(connection: Connection, ledger: Ledger)
  {
    forall req: Request :: connection(req).Answered? ==>
      ResponseFromLedger(req.accountKeys, connection(req).response, ledger)
  }

  /** No stitching: when the transport reads a single ledger state, every byte
      sequence in a successful read is that state at the returned slot. */
  lemma ReadIsBoundToOneSlot(connection: Connection, ledger: Ledger, keys: seq<Key>,
                             commitment: Commitment, minContextSlot: Option<nat>)
    requires AnswersFromLedger(connection, ledger)
    requires ReadOf(keys, minContextSlot, connection(Request(keys, commitment, minContextSlot))).Ok?
    ensures var read := ReadOf(keys, minContextSlot, connection(Request(keys, commitment, minContextSlot))).value;
      forall k :: k in read.accounts ==> ledger(read.slot, k) == Some(read.accounts[k])
  {
    var req := Request(keys, commitment, minContextSlot);
    var outcome := connection(req);
    ReadReturnsSnapshot(keys, minContextSlot, outcome);
    assert ResponseFromLedger(keys, outcome.response, ledger);
    ReadIsBoundToLedgerSlot(keys, minContextSlot, outcome, ledger);
  }

  lemma ReadIsBoundToLedgerSlot(keys: seq<Key>, minContextSlot: Option<nat>, outcome: TransportOutcome, ledger: Ledger)
    requires ReadOf(keys, minContextSlot, outcome).Ok?
    requires outcome.Answered? && ResponseFromLedger(keys, outcome.response, ledger)
    ensures var read := ReadOf(keys, minContextSlot, outcome).value;
      forall k :: k in read.accounts ==> ledger(read.slot, k) == Some(read.accounts[k])
  {
    var read := ReadOf(keys, minContextSlot, outcome).value;
    ReadReturnsSnapshot(keys, minContextSlot, outcome);
    forall k | k in read.accounts ensures ledger(read.slot, k) == Some(read.accounts[k]) {
      LastOccurrenceExists(keys, |keys|, k);
      var i: nat :| IsLastOccurrence(keys, |keys|, i) && keys[i] == k;
    }
  }
}
