/** The errors the scheduler raises and the result types that carry them. */
module Failures {

  /** The three errors thrown by the scheduling workflow. */
  datatype Error =
    | NoZoneFound   // no zone name contains the normalised city
    | NotOwner      // approval attempted by someone who does not own the event
    | NotAdmin      // the administrative report asked for by a non-admin

  /** The outcome of a lookup that may find nothing (`Array.prototype.find`). */
  datatype Option<+T> = None | Some(value: T)

  /** A value, or the error that stopped the operation before it changed anything. */
  datatype Result<+T> = Success(value: T) | Failure(error: Error)

  /** Success without a value, for operations that only change state. */
  datatype Outcome = Pass | Fail(error: Error)
}
