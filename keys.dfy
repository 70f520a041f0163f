/** The account-key list guard (packages/typescript/src/utils/keys.ts). */
module Keys {
  import opened Common
  import opened Errors

  /** Throws `InvalidInput` exactly when the list is empty. The key type is a
      parameter: the guard never looks at a key, only at how many there are. */
  function AssertNonEmptyKeys<K>(keys: seq<K>, fieldLabel: string): (r: Outcome)
    ensures r.Fail? <==> |keys| == 0
    ensures r.Fail? ==> r.error.code == InvalidInput && r.error.cause.None?
    ensures r.Fail? ==> r.error.message == fieldLabel + " must contain at least one public key"
  {
    if |keys| == 0 then
      Fail(NewVolatilumError(InvalidInput, fieldLabel + " must contain at least one public key", None))
    else
      Pass
  }

  /** Two lists of the same length, of whatever keys, get the same answer. */
  lemma OnlyLengthMatters<K, L>(keys: seq<K>, others: seq<L>, fieldLabel: string)
    requires |keys| == |others|
    ensures AssertNonEmptyKeys(keys, fieldLabel) == AssertNonEmptyKeys(others, fieldLabel)
  {
  }
}
