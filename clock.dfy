/** The production timestamps a sample carries. The engines store them and
    never read them, so a timestamp is modelled as an instant in nanoseconds
    since the Unix epoch, with no calendar and no time zone. */
module Clock {

  datatype Time = Time(unixNanos: int)

  const Hour: int := 3_600_000_000_000

  /** `t.Add(d)` for a duration of `nanos` nanoseconds. */
  function After(t: Time, nanos: int): Time {
    Time(t.unixNanos + nanos)
  }
}
