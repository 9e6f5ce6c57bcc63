/**
  Block times. A time is a whole number of nanoseconds since 1970-01-01T00:00:00Z and lies in the
  years 1 to 9999, the range of the Tendermint time type. Vote and pending entries are stored with
  the fraction of the second cut off.
 */
module Times {
  const NANOS: int := 1_000_000_000
  const MIN_SECOND: int := -62_135_596_800
  const MAX_SECOND: int := 253_402_300_799

  type Seconds = s: int | MIN_SECOND <= s <= MAX_SECOND
  type Time = t: int | MIN_SECOND * NANOS <= t < (MAX_SECOND + 1) * NANOS

  /** The Unix timestamp of a time: rounded towards the past, also before 1970. */
  function Second(t: Time): (s: Seconds)
    ensures s * NANOS <= t < (s + 1) * NANOS
  {
    t / NANOS
  }

  /** `now.duration_since(since).unwrap_or_default()`: zero when `since` lies in the future. */
  function Age(now: Time, since: Seconds): (age: nat) {
    if since * NANOS <= now then now - since * NANOS else 0
  }

  /** Whether an entry of the given second has reached the given age, in seconds. */
  predicate Due(now: Time, since: Seconds, limit: nat) {
    Age(now, since) >= limit * NANOS
  }

  lemma OlderIsDue(now: Time, older: Seconds, younger: Seconds, limit: nat)
    requires older <= younger && Due(now, younger, limit)
    ensures Due(now, older, limit)
  {}
}
