/** What every part of the model shares. */
module Common {
  datatype Option<+T> = None | Some(value: T)

  /** Clock readings, in nanoseconds since some epoch. */
  type Instant = int
}
