/** Datatypes used by every module. */
module Prelude {

  datatype Option<+T> = None | Some(value: T)

  /** Result of one machine step, or of a run of them. */
  datatype Outcome<+S> =
    | Next(state: S)  // the machine moved to `state`
    | Halted          // ran off the end of its code
    | Stuck           // undefined behaviour, or an access outside an array
}
