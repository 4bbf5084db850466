/** The optional value used for the checks that the original system rejects at build time. */
module Wrappers {

  /** `None` stands for a protocol that is rejected (no trait implementation applies). */
  datatype Option<+T> = None | Some(value: T)
}
