/** Shared vocabulary: options, results, machine integers and package versions. */
module Prelude {

  datatype Option<+T> = None | Some(value: T)

  datatype Result<+T, +E> = Ok(value: T) | Err(error: E)

  type U32 = n: nat | n < 0x1_0000_0000

  type U64 = n: nat | n < 0x1_0000_0000_0000_0000

  // The order of `semver::Version` is a countable total order, so it embeds in the reals.
  // Nothing here uses a version except through comparison.
  type Version = real

  /** 1 when the condition holds: lets conservation laws be written as sums. */
  function Count(condition: bool): nat
  {
    if condition then 1 else 0
  }

  // ---- Checks made one after the other ----

  datatype Check<+E> = Check(holds: bool, error: E)

  /** Check `k` is the first that fails. */
  predicate FailsFirst<E>(checks: seq<Check<E>>, k: int)
  {
    0 <= k < |checks| && !checks[k].holds && forall j | 0 <= j < k :: checks[j].holds
  }

  /** The error is that of the first check that fails. */
  ghost predicate FirstFailure<E>(checks: seq<Check<E>>, error: E)
  {
    exists k :: FailsFirst(checks, k) && checks[k].error == error
  }

  predicate AllHold<E>(checks: seq<Check<E>>)
  {
    forall k | 0 <= k < |checks| :: checks[k].holds
  }
}
