/** What several modules use. */
module Wrappers {

  /** A value that may be missing: a Redis key that is absent or expired, a field that is None. */
  datatype Option<+T> = None | Some(value: T)

  /** A truth value as a count. */
  function Flag(p: bool): nat {
    if p then 1 else 0
  }
}
