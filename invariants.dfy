/** The generic assertion helper (packages/typescript/src/utils/invariants.ts). */
module Invariants {
  import opened Common
  import opened Errors

  /** Returns normally exactly when `condition` holds; otherwise throws an SDK
      error carrying the given code and message and no cause. */
  function Invariant(condition: bool, code: ErrorCode, message: string): (r: Outcome)
    ensures r.Pass? <==> condition
    ensures r.Fail? ==> r.error.code == code && r.error.message == message && r.error.cause.None?
  {
    if !condition then Fail(NewVolatilumError(code, message, None)) else Pass
  }
}
