/** Failure-compatible wrapper used where the source can read a value that does not exist. */
module Wrappers {

  /** `None` stands for a value the program cannot define (a read past the end of a table). */
  datatype Option<+T> = None | Some(value: T)
}
