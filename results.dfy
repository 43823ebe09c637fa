/**
 * Optional values and the outcome of a Python call that may raise.
 */
module Results {

  datatype Option<+T> = None | Some(value: T)

  /** The exceptions the modelled code lets escape or catches. */
  datatype Exception =
    | NotImplementedError  // the holiday calendar has no rules for the year asked about
    | OverflowError        // date arithmetic went past 9999-12-31

  /** What a call does: return a value or raise an exception. */
  datatype Outcome<+T> = Returned(value: T) | Raised(exception: Exception)
}
