// Decisions about one answer: may it be sent again, may it go elsewhere, how long to wait.
module RetryPolicy {
  import opened Options

  const MAX_RETRY_AFTER_SECONDS := 60.0
  const NANOS := 1_000_000_000

  /** A header parsed as a number; some spellings parse to something that is not finite. */
  datatype Number = NotFinite | Finite(value: real)

  /** The two retry hints, where present and parseable. */
  datatype Hints = Hints(millis: Option<Number>, seconds: Option<Number>)

  /** The gateway's explicit instruction, if it gave one. */
  type Verdict = Option<bool>

  function BoundedRetryAfter(n: Number): Option<real> {
    if n.NotFinite? || n.value < 0.0 then None
    else if n.value < MAX_RETRY_AFTER_SECONDS then Some(n.value) else Some(MAX_RETRY_AFTER_SECONDS)
  }

  function RetryAfterSeconds(h: Hints): (r: Option<real>)
    ensures r.Some? ==> 0.0 <= r.value <= MAX_RETRY_AFTER_SECONDS
  {
    var fine := if h.millis.Some? && h.millis.value.Finite? then BoundedRetryAfter(Finite(h.millis.value.value / 1000.0)) else None;
    if fine.Some? then fine
    else if h.seconds.None? then None
    else BoundedRetryAfter(h.seconds.value)
  }

  /** A hint that gives a delay: present, finite and not negative. */
  predicate Usable(n: Option<Number>) {
    n.Some? && n.value.Finite? && n.value.value >= 0.0
  }

  function CutAtMinute(seconds: real): real {
    if seconds < 60.0 then seconds else 60.0
  }

  /** The millisecond hint wins if it is usable, then the one in seconds; either is cut at a minute. */
  lemma HintOrder(h: Hints)
    ensures var r := RetryAfterSeconds(h);
      if Usable(h.millis) then r == Some(CutAtMinute(h.millis.value.value / 1000.0))
      else if Usable(h.seconds) then r == Some(CutAtMinute(h.seconds.value.value))
      else r == None
  {
  }

  predicate Retryable(status: int, verdict: Verdict) {
    if verdict.Some? then verdict.value else status == 429 || status >= 500
  }

  predicate RegionalFailoverable(status: int, verdict: Verdict) {
    verdict != Some(false) && (status == 502 || status == 503 || status == 504)
  }

  function Shift(n: nat): nat {
    if n == 0 then 1 else 2 * Shift(n - 1)
  }

  /** The sleep before the next attempt, in nanoseconds, from a random draw in [0, 1). */
  function RetrySleep(attempt: nat, retryAfter: Option<real>, draw: real): int {
    var base := Min(NANOS / 2 * Shift(Min(attempt, 6)), 30 * NANOS);
    var jitter := (draw * base as real).Floor;
    var bounded := if retryAfter.Some? then BoundedRetryAfter(Finite(retryAfter.value)) else None;
    var delay := if bounded.Some? then Max(jitter, (bounded.value * NANOS as real).Floor) else jitter;
    Min(delay, 60 * NANOS)
  }

  /** A sleep is at least the bounded hint, at most a minute, and at most half a minute without a hint. */
  lemma RetrySleepBounds(attempt: nat, retryAfter: Option<real>, draw: real)
    requires 0.0 <= draw < 1.0
    ensures 0 <= RetrySleep(attempt, retryAfter, draw) <= 60 * NANOS
    ensures retryAfter.Some? && 0.0 <= retryAfter.value <= MAX_RETRY_AFTER_SECONDS ==>
      RetrySleep(attempt, retryAfter, draw) >= (retryAfter.value * NANOS as real).Floor
    ensures retryAfter.None? ==> RetrySleep(attempt, retryAfter, draw) <= 30 * NANOS
  {
    var base := Min(NANOS / 2 * Shift(Min(attempt, 6)), 30 * NANOS);
    assert 0.0 <= draw * base as real <= base as real;
    if retryAfter.Some? && 0.0 <= retryAfter.value <= MAX_RETRY_AFTER_SECONDS {
      assert retryAfter.value * NANOS as real <= 60.0 * NANOS as real;
    }
  }
}
