/** Jittered backoff after a failed attempt. */
module Retry {
  import opened Basics

  const DEFAULT_DELAY := 60

  /** Entry of the schedule for the attempt; the last entry repeats. */
  function Base(attempt: int, backoff: seq<nat>): nat {
    var index := Max(attempt, 1) - 1;
    if index < |backoff| then backoff[index] else if backoff != [] then backoff[|backoff| - 1] else DEFAULT_DELAY
  }

  function Delay(attempt: int, retryAfter: Option<real>, backoff: seq<nat>): (d: real)
    ensures d >= Base(attempt, backoff) as real && (retryAfter.Some? ==> d >= retryAfter.value)
  {
    var base := Base(attempt, backoff) as real;
    if retryAfter.Some? && retryAfter.value > base then retryAfter.value else base
  }

  predicate Jitter(j: real) {
    -0.25 <= j < 0.25
  }

  lemma Scaled(d: real, j: real)
    requires d >= 0.0 && Jitter(j)
    ensures 0.75 * d <= d * (1.0 + j) <= 1.25 * d
    ensures d > 0.0 ==> d * (1.0 + j) < 1.25 * d
  {
    assert d * (1.0 + j) - 0.75 * d == d * (0.25 + j);
    assert 1.25 * d - d * (1.0 + j) == d * (0.25 - j);
  }

  function Jittered(d: real, j: real): (r: real)
    ensures d >= 0.0 && Jitter(j) ==> 0.75 * d <= r <= 1.25 * d
    ensures d > 0.0 && Jitter(j) ==> r < 1.25 * d
  {
    if d >= 0.0 && Jitter(j) then Scaled(d, j); d * (1.0 + j) else d * (1.0 + j)
  }

  /** `compute_next_available_at`, given the clock and the random draw. */
  function NextAvailable(attempt: int, retryAfter: Option<real>, backoff: seq<nat>, jitter: real, now: Time): Time {
    now + Jittered(Delay(attempt, retryAfter, backoff), jitter)
  }

  /** The next attempt is due after 0.75 to 1.25 times the longer of Retry-After and the schedule's entry. */
  lemma DelayBounds(attempt: nat, retryAfter: Option<real>, backoff: seq<nat>, jitter: real, now: Time)
    requires attempt >= 1 && backoff != [] && Jitter(jitter)
    ensures var entry := backoff[Min(attempt, |backoff|) - 1] as real;
            var d := if retryAfter.Some? && retryAfter.value > entry then retryAfter.value else entry;
            var next := NextAvailable(attempt, retryAfter, backoff, jitter, now);
            && now + 0.75 * d <= next <= now + 1.25 * d
            && (d > 0.0 ==> next < now + 1.25 * d)
  {
    assert Base(attempt, backoff) == backoff[Min(attempt, |backoff|) - 1];
    assert NextAvailable(attempt, retryAfter, backoff, jitter, now) ==
        now + Jittered(Delay(attempt, retryAfter, backoff), jitter);
  }

  /** The longest the next attempt can be delayed. */
  function Upper(attempt: int, retryAfter: Option<real>, backoff: seq<nat>): (d: real)
    ensures d >= 0.0
  {
    1.25 * Delay(attempt, retryAfter, backoff)
  }

  lemma NextWithin(attempt: int, retryAfter: Option<real>, backoff: seq<nat>, jitter: real, now: Time)
    requires Jitter(jitter)
    ensures now <= NextAvailable(attempt, retryAfter, backoff, jitter, now) <= now + Upper(attempt, retryAfter, backoff)
  {
    var r := Jittered(Delay(attempt, retryAfter, backoff), jitter);
  }
}
