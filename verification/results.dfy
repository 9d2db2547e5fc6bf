/** Failure-compatible wrappers shared by every module of the model. */
module Results {

  /** An optional value; `None` stands for Python's `None` or a missing key. */
  datatype Option<+T> = None | Some(value: T) {

    function GetOr(default: T): T {
      match this
      case Some(v) => v
      case None => default
    }
  }

  /**
   * The exceptions a batch run can raise. Each run sits inside one
   * `transaction.atomic()` block that re-raises, so an error means the whole
   * run is discarded.
   */
  datatype RunError =
    | DateOutOfRange          // `OverflowError` from date/timedelta arithmetic
    | MultipleObjectsReturned // `update_or_create` found two rows for one key
    | AttributeMissing        // `AttributeError`, e.g. `.id` on an `int` or `.get` on `None`
    | TypeMismatch            // `TypeError`, e.g. adding `None` or a string to a number

  datatype Result<+T> = Ok(value: T) | Err(error: RunError) {

    predicate IsFailure() {
      Err?
    }

    function PropagateFailure<U>(): Result<U>
      requires Err?
    {
      Err(error)
    }

    function Extract(): T
      requires Ok?
    {
      value
    }
  }
}
