/** The quantities that several modules measure in. */
module Units {
  /** Nanoseconds; each module says from when it counts. */
  type Time = int
  type Duration = int

  const SECOND: Duration := 1_000_000_000

  newtype byte = x: int | 0 <= x < 256

  /** domain.DefaultMaxPipeHops */
  const DEFAULT_MAX_PIPE_HOPS := 8
}
