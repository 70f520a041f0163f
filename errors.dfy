/** The SDK's error taxonomy (packages/typescript/src/utils/errors.ts). */
module Errors {
  import opened Common

  /** The six error codes; the Rust crate declares the same six variants. */
  datatype ErrorCode =
    | InvalidInput
    | RpcError
    | RpcSlotInconsistency
    | MissingAccount
    | MalformedAccountData
    | LayoutVersionMismatch

  /** The string value of each enum member. */
  function Tag(code: ErrorCode): string
  {
    match code
    case InvalidInput => "INVALID_INPUT"
    case RpcError => "RPC_ERROR"
    case RpcSlotInconsistency => "RPC_SLOT_INCONSISTENCY"
    case MissingAccount => "MISSING_ACCOUNT"
    case MalformedAccountData => "MALFORMED_ACCOUNT_DATA"
    case LayoutVersionMismatch => "LAYOUT_VERSION_MISMATCH"
  }

  const AllCodes: seq<ErrorCode> :=
    [InvalidInput, RpcError, RpcSlotInconsistency, MissingAccount, MalformedAccountData, LayoutVersionMismatch]

  /** There are exactly six codes, listed once each, and their tags tell them apart. */
  lemma CodesAreSixWithDistinctTags()
    ensures |AllCodes| == 6
    ensures forall c: ErrorCode :: c in AllCodes
    ensures forall i, j :: 0 <= i < j < |AllCodes| ==> AllCodes[i] != AllCodes[j]
    ensures forall a: ErrorCode, b: ErrorCode :: Tag(a) == Tag(b) ==> a == b
  {
    forall c: ErrorCode ensures c in AllCodes {
      match c
      case InvalidInput => assert AllCodes[0] == c;
      case RpcError => assert AllCodes[1] == c;
      case RpcSlotInconsistency => assert AllCodes[2] == c;
      case MissingAccount => assert AllCodes[3] == c;
      case MalformedAccountData => assert AllCodes[4] == c;
      case LayoutVersionMismatch => assert AllCodes[5] == c;
    }
  }

  /** What was thrown: an SDK error, or any other value (a foreign exception). */
  datatype Failure = Typed(error: VolatilumError) | Foreign(description: string)

  /** The SDK's error class: a typed code, a message and an optional cause.
      Its `name` is fixed for every instance. */
  datatype VolatilumError = VolatilumError(code: ErrorCode, message: string, cause: Option<Failure>)
  {
    const name: string := "VolatilumError"
  }

  /** `new VolatilumError(code, message, { cause })`. */
  function NewVolatilumError(code: ErrorCode, message: string, cause: Option<Failure>): (e: VolatilumError)
    ensures e.code == code && e.message == message && e.cause == cause
    ensures e.name == "VolatilumError"
  {
    VolatilumError(code, message, cause)
  }

  /** A check that either returns normally or throws an SDK error. */
  datatype Outcome = Pass | Fail(error: VolatilumError)
}
