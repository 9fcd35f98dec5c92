/**
 * Argument checks used by the operation objects' constructors
 * (replicatorg.util.Preconditions).
 */
module Preconditions {
  import opened Common

  /**
   * checkNonNegative: a value below zero is rejected with
   * IllegalArgumentException carrying `message`; anything else, zero
   * included, is handed back unchanged.
   */
  function CheckNonNegative(value: Int32, message: string): (r: Result<Int32>)
    ensures r.Ok? <==> value >= 0
    ensures r.Ok? ==> r.value == value
    ensures r.Err? ==> r.error == IllegalArgument(message)
  {
    if value < 0 then Err(IllegalArgument(message)) else Ok(value)
  }

  /** The check is stateless and idempotent: checking an accepted value again accepts it again. */
  lemma CheckIdempotent(value: Int32, message: string, other: string)
    requires CheckNonNegative(value, message).Ok?
    ensures CheckNonNegative(CheckNonNegative(value, message).value, other) == CheckNonNegative(value, other)
  {
  }
}
