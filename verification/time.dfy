/** Points in time as the feed carries them: whole Unix seconds, UTC. The
    calendar breakdown of `DateTimeOffset` is not modelled; only the range
    check of `DateTimeOffset.FromUnixTimeSeconds` is. */
module Time {
  import opened Wrappers
  import opened Numeric

  /** 0001-01-01T00:00:00Z and 9999-12-31T23:59:59Z in Unix seconds: the
      range `FromUnixTimeSeconds` accepts. */
  const MinUnixSeconds: int := -62_135_596_800
  const MaxUnixSeconds: int := 253_402_300_799

  /** An absolute point in time, counted in seconds from 1970-01-01T00:00:00Z. */
  datatype Instant = UnixTime(seconds: int)

  /** `DateTimeOffset.FromUnixTimeSeconds(s)`: throws outside the supported range. */
  function FromUnixTimeSeconds(s: int): (r: Result<Instant>)
    ensures r.Success? <==> MinUnixSeconds <= s <= MaxUnixSeconds
    ensures r.Success? ==> r.value.seconds == s
    ensures r.Failure? ==> r.error == TimeOutOfRange
  {
    if MinUnixSeconds <= s <= MaxUnixSeconds then Success(UnixTime(s)) else Failure(TimeOutOfRange)
  }

  /** The same conversion for a 32-bit epoch, which always lies in range:
      no 32-bit epoch makes the conversion throw, and it keeps the exact
      number of seconds. */
  function FromEpoch(epoch: int32): (t: Instant)
    ensures FromUnixTimeSeconds(epoch as int) == Success(t)
    ensures t.seconds == epoch as int
  {
    assert InInt32Range(epoch as int);
    UnixTime(epoch as int)
  }
}
