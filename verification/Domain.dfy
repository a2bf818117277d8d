/** Vocabulary shared by every component of the evidence pipeline. */
module Domain {

  datatype Option<+T> = None | Some(value: T)

  /** A UUID: only equality matters. */
  type Id = nat

  /** An instant or a duration, in microseconds (the resolution of the source's timestamps). */
  type Time = int

  /** Whole seconds as microseconds. */
  function Seconds(n: int): Time {
    1_000_000 * n
  }
}
