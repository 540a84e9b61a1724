/** Instants and durations, counted in the microseconds that Python's time stamps resolve. */
module Clock {
  type Time = int

  const SECOND: Time := 1_000_000
}
