/** Shared types of the Rust crate (packages/rust/src/types.rs). */
module RustTypes {
  import opened Common
  import Errors

  /** `u64`: one past the largest slot. */
  const SLOT_LIMIT: int := 0x1_0000_0000_0000_0000

  /** A slot number, an unsigned 64-bit integer. */
  type Slot = x: int | 0 <= x < SLOT_LIMIT

  /** The crate's six error codes are the same six as the TypeScript enum. */
  type ErrorCode = Errors.ErrorCode

  /** The crate's error: a code and a static message. */
  datatype Error = Error(code: ErrorCode, message: string)

  /** `Error::new(code, message)`. */
  function NewError(code: ErrorCode, message: string): (e: Error)
    ensures e.code == code && e.message == message
  {
    Error(code, message)
  }

  /** Raw account bytes keyed by base58 key string: at most one payload per key. */
  type RawAccounts = map<string, Bytes>
}
