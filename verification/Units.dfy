/** Units of time that all parts share. */
module Units {
  /** The number of values of a tick counter; ticks are milliseconds in a 32 bit `unsigned long`. */
  const TICKS: nat := 0x1_0000_0000

  /** MIN_TIME, 2010-01-01T00:00:00, in seconds since 1970. */
  const MIN_TIME: int := 14610 * 86400
}
