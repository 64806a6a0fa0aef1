/** Outcomes shared by every module: the crate's error classes, an optional
    value, and a result that is one or the other. */
module Wrappers {

  datatype Option<+T> = None | Some(value: T)

  /** The error classes of the crate, without their messages. */
  datatype Error =
    | Validation
    | Unsupported
    | Storage
    | HeadMismatch(expected: nat, actual: nat)
    | Truncated(requested: nat, removedUpTo: nat)
    | NotExported(upTo: nat, exportedThrough: nat)
    | ConsumerBehind(upTo: nat)
    | Sink
    | Apply

  datatype Result<+T> = Ok(value: T) | Err(error: Error)
  {
    predicate IsFailure() { Err? }

    function PropagateFailure<U>(): Result<U>
      requires Err?
    {
      Err(error)
    }

    function Extract(): T
      requires Ok?
    {
      value
    }
  }
}
