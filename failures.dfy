/** The ways the grading engine fails, and the wrappers that carry a result or a failure. */
module Failures {

  /** Every exception the engine can raise, named after its cause. */
  datatype Error =
    | MissingColumns(names: seq<string>)  // ValueError raised by the column check
    | NonNumericMarks                     // TypeError from arithmetic or comparison on a text mark
    | NoThresholds                        // TypeError from subscripting absent thresholds
    | MissingThreshold(key: string)       // KeyError for a grade the thresholds do not name
    | NoMarks                             // KeyError: the mode of no numbers has no first entry

  /** A computed value or the error that stopped the computation. */
  datatype Result<+T> = Ok(value: T) | Err(error: Error)

  /** The outcome of an operation whose effect is a change of state. */
  datatype Outcome = Pass | Fail(error: Error)

  datatype Option<+T> = None | Some(value: T)
}
