/**
  The part of Rust's std::time::Duration the application relies on: a
  duration is a whole number of seconds plus a sub-second part in
  nanoseconds (always below one second). Seconds are a u64.
 */
module StdTime {

  const NANOS_PER_SEC: nat := 1_000_000_000
  const U64_LIMIT: nat := 0x1_0000_0000_0000_0000

  type U64 = x: nat | x < U64_LIMIT

  datatype Duration = Duration(secs: U64, subsecNanos: nat)
  {
    /** The representation invariant Duration keeps. */
    predicate Normalized() { subsecNanos < NANOS_PER_SEC }
  }

  /** The whole duration in nanoseconds. */
  function AsNanos(d: Duration): nat {
    d.secs * NANOS_PER_SEC + d.subsecNanos
  }

  /** Duration::as_micros: whole microseconds, the sub-microsecond part truncated. */
  function AsMicros(d: Duration): nat {
    d.secs * 1_000_000 + d.subsecNanos / 1_000
  }

  /** Duration::as_millis: whole milliseconds, the sub-millisecond part truncated. */
  function AsMillis(d: Duration): nat {
    d.secs * 1_000 + d.subsecNanos / 1_000_000
  }

  /** Duration::from_secs. */
  function FromSecs(secs: U64): (d: Duration)
    ensures d.Normalized()
    ensures AsNanos(d) == secs * NANOS_PER_SEC
    ensures AsMicros(d) == secs * 1_000_000
  {
    Duration(secs, 0)
  }

  /** Duration::from_millis: the seconds and the remaining milliseconds as nanoseconds. */
  function FromMillis(millis: U64): (d: Duration)
    ensures d.Normalized()
    ensures AsMillis(d) == millis
    ensures AsNanos(d) == millis * 1_000_000
  {
    var secs := millis / 1_000;
    var rest := millis % 1_000;
    assert millis == secs * 1_000 + rest;
    assert rest * 1_000_000 / 1_000_000 == rest;
    Duration(secs, rest * 1_000_000)
  }
}
