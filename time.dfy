/**
  java.time as the core uses it. An Instant is a count of nanoseconds since
  1970-01-01T00:00:00Z; an OffsetDateTime is a local date-time (nanoseconds on
  the local time line) together with its offset from UTC in seconds.
 */
module Time {

  type Instant = int

  const NANOS_PER_SECOND: int := 1_000_000_000

  /** ZoneOffset.UTC, in seconds. */
  const UTC: int := 0

  /** Instant.getEpochSecond(): rounds towards negative infinity. */
  function EpochSecond(t: Instant): int
  {
    t / NANOS_PER_SECOND
  }

  /** Instant.getNano(): the nanosecond within the second, never negative. */
  function Nano(t: Instant): int
  {
    t % NANOS_PER_SECOND
  }

  /** The two parts of an instant give it back, and the nano part is in range. */
  lemma SplitRecombines(t: Instant)
    ensures EpochSecond(t) * NANOS_PER_SECOND + Nano(t) == t
    ensures 0 <= Nano(t) < NANOS_PER_SECOND
  {
  }

  /** No other (seconds, nanos) pair with nanos in range denotes the same instant. */
  lemma SplitIsUnique(t: Instant, seconds: int, nanos: int)
    requires 0 <= nanos < NANOS_PER_SECOND
    requires seconds * NANOS_PER_SECOND + nanos == t
    ensures seconds == EpochSecond(t) && nanos == Nano(t)
  {
    SplitRecombines(t);
  }

  datatype OffsetDateTime = OffsetDateTime(localNanos: int, offsetSeconds: int)

  /** OffsetDateTime.toInstant(): the instant the local date-time denotes at its offset. */
  function ToInstant(odt: OffsetDateTime): Instant
  {
    odt.localNanos - odt.offsetSeconds * NANOS_PER_SECOND
  }

  /** Instant.atOffset(offset): the same instant, expressed at the given offset. */
  function AtOffset(t: Instant, offsetSeconds: int): (odt: OffsetDateTime)
    ensures odt.offsetSeconds == offsetSeconds
    ensures ToInstant(odt) == t
  {
    OffsetDateTime(t + offsetSeconds * NANOS_PER_SECOND, offsetSeconds)
  }

  /** A date-time is fully determined by its instant and its offset. */
  lemma AtOffsetOfInstant(odt: OffsetDateTime)
    ensures AtOffset(ToInstant(odt), odt.offsetSeconds) == odt
  {
  }
}

/** The system clock behind Instant.now(). */
module Clocks {
  import opened Time

  /**
    Every stamping call reads the clock through Now(). A reading is never
    earlier than the previous one; how far the clock moves is left open.
   */
  class Clock {
    var now: Instant

    constructor (start: Instant)
      ensures now == start
    {
      now := start;
    }

    /**
      Instant.now(). The body is a stand-in that keeps the reading where it
      is; callers rely only on the contract, which allows any later reading.
     */
    method Now() returns (t: Instant)
      modifies this
      ensures old(now) <= t && now == t
    {
      t := now;
    }
  }
}
