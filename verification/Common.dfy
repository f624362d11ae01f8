/** Types shared by every component. */
module Common {

  datatype Option<+T> = None | Some(value: T)

  /** Instants and durations, in microseconds: the resolution of a Postgres timestamp. */
  type Time = int

  const MICROSECONDS_PER_SECOND: int := 1_000_000
}
