/**
 * Small result types shared by the whole model.
 */
module Outcomes {

  /** A value that may be absent. */
  datatype Option<T> = None | Some(value: T)

  /**
   * The result of Go code that can panic at run time (a slice expression out
   * of range, an explicit `panic`). `Panic` stands for the goroutine, and so
   * the whole process, being torn down.
   */
  datatype Outcome<T> = Ok(value: T) | Panic
}
