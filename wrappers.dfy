/** Optional values and success/failure results used across the model. */
module Wrappers {

  /** A value that may be absent (JavaScript's `null` / `undefined`). */
  datatype Option<+T> = None | Some(value: T) {
    function GetOr(default: T): T {
      match this
      case Some(v) => v
      case None => default
    }
  }

  /** The outcome of an operation that either succeeds with a value or fails with a message. */
  datatype Result<+R> = Ok(value: R) | Err(message: string)

  /**
   * How an event handler ended: it returned early without doing anything,
   * it stopped with a message shown to the user, or its writes were made.
   */
  datatype Outcome = Skipped | Rejected(message: string) | Applied

  /**
   * What a numeric text field holds once read with `parseInt`:
   * nothing typed, text that `parseInt` turns into NaN, or an integer.
   */
  datatype AmountInput = Blank | Unparsable | Parsed(n: int) {
    /** `parseInt` of the field: NaN (None) for a blank or unparsable field. */
    function AsNumber(): Option<int> {
      match this
      case Parsed(n) => Some(n)
      case _ => None
    }
  }

  function Abs(x: int): (r: int)
    ensures r >= 0 && (r == x || r == -x)
  {
    if x < 0 then -x else x
  }
}
