/** Lease and consumer durations: seconds become 64-bit nanosecond counts, and may wrap. */
module DaemonDurations {
  import opened Common

  const SECOND := 1_000_000_000
  const MINIMUM_LEASE := 60 * SECOND
  const MAXIMUM_LEASE := 24 * 3600 * SECOND
  const DEFAULT_CONSUMER := 24 * 3600 * SECOND
  const MINIMUM_CONSUMER := 3600 * SECOND
  const MAXIMUM_CONSUMER := 7 * 24 * 3600 * SECOND
  const MANAGEMENT_TTL := 5 * 60 * SECOND
  const TWO_64 := 0x1_0000_0000_0000_0000

  function Min(a: int, b: int): int {
    if a < b then a else b
  }

  /** The signed 64-bit number with the same low bits. */
  function Wrap(n: int): (r: int)
    ensures -TWO_64 / 2 <= r < TWO_64 / 2 && (n - r) % TWO_64 == 0
  {
    (n + TWO_64 / 2) % TWO_64 - TWO_64 / 2
  }

  function Nanos(seconds: int): int {
    Wrap(seconds * SECOND)
  }

  function ConsumerDuration(seconds: int): Option<int> {
    var asked := Nanos(seconds);
    var d := if asked == 0 then DEFAULT_CONSUMER else asked;
    if MINIMUM_CONSUMER <= d <= MAXIMUM_CONSUMER then Some(d) else None
  }

  /** The duration the human is asked to approve, when the consumer has `remaining` left. */
  function LeaseDuration(seconds: int, defaultSeconds: int, remaining: int): Option<int> {
    var asked := Nanos(seconds);
    var d := if asked == 0 then Nanos(defaultSeconds) else asked;
    if d < MINIMUM_LEASE || d > MAXIMUM_LEASE then None
    else if remaining < MINIMUM_LEASE then None
    else Some(Min(d, remaining))
  }

  /** Whatever wraps, an approved duration is between a minute and a day and within what the consumer has left. */
  lemma ApprovedIsInRange(seconds: int, defaultSeconds: int, remaining: int)
    ensures var d := LeaseDuration(seconds, defaultSeconds, remaining);
            d.Some? ==> 60_000_000_000 <= d.value <= 86_400_000_000_000 && d.value <= remaining
  {
  }

  /** The nanosecond count is the one asked for exactly when it does not leave 64 bits. */
  lemma NanosExact(seconds: int)
    ensures Nanos(seconds) == seconds * SECOND <==> -9_223_372_036 <= seconds <= 9_223_372_036
  {
    var n := seconds * SECOND;
    if -TWO_64 / 2 <= n < TWO_64 / 2 {
      assert (n + TWO_64 / 2) % TWO_64 == n + TWO_64 / 2;
    }
  }

  /** A request for some 585 years wraps and is approved as one minute. */
  lemma WrapsToAMinute()
    ensures LeaseDuration(18_446_744_134, 0, MAXIMUM_LEASE) == Some(60_290_448_384)
  {
    assert 18_446_744_134 * SECOND == 60_290_448_384 + TWO_64;
  }

  /** A request for some 1.1 thousand million years wraps to nothing and is approved as the profile's default. */
  lemma WrapsToTheDefault(defaultSeconds: int, remaining: int)
    ensures LeaseDuration(TWO_55, defaultSeconds, remaining) == LeaseDuration(0, defaultSeconds, remaining)
  {
    assert TWO_55 * SECOND == 1_953_125 * TWO_64;
  }

  const TWO_55 := 0x80_0000_0000_0000

  /** What asking for a duration should mean: itself, if it is in range, cut to what the consumer has left. */
  function Wanted(seconds: int, remaining: int): Option<int> {
    if 60 <= seconds <= 86_400 then Some(Min(seconds * 1_000_000_000, remaining)) else None
  }

  /**
    Approval means just what was asked if and only if the request does not wrap, or what it wraps to,
    the profile's default if that is nothing, is refused as well.
  */
  lemma ApprovedAsAsked(seconds: int, defaultSeconds: int, remaining: int)
    requires seconds != 0 && remaining >= MINIMUM_LEASE
    ensures var d := if Nanos(seconds) == 0 then Nanos(defaultSeconds) else Nanos(seconds);
            LeaseDuration(seconds, defaultSeconds, remaining) == Wanted(seconds, remaining) <==>
            -9_223_372_036 <= seconds <= 9_223_372_036 || !(MINIMUM_LEASE <= d <= MAXIMUM_LEASE)
  {
    NanosExact(seconds);
  }

  /** A request for no duration asks for the profile's default, and with less than a minute left nothing is approved. */
  lemma ZeroAsksForTheDefault(defaultSeconds: int, remaining: int)
    requires -9_223_372_036 <= defaultSeconds <= 9_223_372_036
    ensures LeaseDuration(0, defaultSeconds, remaining) ==
            if remaining < 60 * SECOND then None else Wanted(defaultSeconds, remaining)
    ensures forall seconds :: remaining < 60 * SECOND ==> LeaseDuration(seconds, defaultSeconds, remaining) == None
    ensures ConsumerDuration(0) == Some(24 * 60 * 60 * SECOND)
  {
    NanosExact(defaultSeconds);
  }

  /** The same for a new consumer, whose default is fixed and so is granted to whatever wraps to nothing. */
  lemma ConsumerAsAsked(seconds: int)
    requires seconds != 0
    ensures var inRange := 3_600 <= seconds <= 604_800;
            var wanted := if inRange then Some(seconds * 1_000_000_000) else None;
            ConsumerDuration(seconds) == wanted <==>
            || -9_223_372_036 <= seconds <= 9_223_372_036
            || !(Nanos(seconds) == 0 || MINIMUM_CONSUMER <= Nanos(seconds) <= MAXIMUM_CONSUMER)
  {
    NanosExact(seconds);
  }
}
