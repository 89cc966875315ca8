// Backoff and policy: how long the reporter waits, and what a policy may change.
module ReporterPace {
  import opened Options
  import opened ReporterState

  function Pow2(k: nat): nat {
    if k == 0 then 1 else 2 * Pow2(k - 1)
  }

  /** The base delay after k retryable failures since the last accepted batch. */
  function BackoffBase(k: nat): int {
    Min(60 * Pow2(k), 600) * SECOND
  }

  ghost predicate PaceOk(p: Pace) {
    BACKOFF_MIN <= p.backoff <= BACKOFF_MAX && FLUSH_INTERVAL <= p.flushInterval <= BACKOFF_MAX
  }

  lemma {:induction false} Pow2Grows(k: nat)
    ensures Pow2(k) >= 1 && Pow2(k + 1) == 2 * Pow2(k)
  {
    if k > 0 {
      Pow2Grows(k - 1);
    }
  }

  /** One more failure doubles the base up to ten minutes; the wait itself is within one and ten minutes. */
  lemma BackoffStep(p: Pace, now: int, retryAfter: Option<int>, k: nat)
    requires p.backoff == BackoffBase(k)
    ensures SetBackoff(p, now, retryAfter).backoff == BackoffBase(k + 1)
    ensures BACKOFF_MIN <= BackoffDelay(p, retryAfter) <= BACKOFF_MAX
    ensures SetBackoff(p, now, retryAfter).backoffUntil == now + BackoffDelay(p, retryAfter)
    ensures retryAfter.Some? && retryAfter.value <= BACKOFF_MAX ==> BackoffDelay(p, retryAfter) >= retryAfter.value
  {
    Pow2Grows(k);
  }

  lemma BackoffBaseBounds(k: nat)
    ensures BACKOFF_MIN <= BackoffBase(k) <= BACKOFF_MAX
    ensures BackoffBase(0) == BACKOFF_MIN
  {
    Pow2Grows(k);
  }

  /** A policy can only slow the reporter down. */
  predicate Slower(p: Pace, q: Pace) {
    q.sampleRate <= p.sampleRate && q.flushInterval >= p.flushInterval && q.pausedUntil >= p.pausedUntil
  }

  lemma PolicySlower(p: Pace, policy: Policy, now: int)
    requires FLUSH_INTERVAL <= p.flushInterval <= BACKOFF_MAX
    ensures var q := ApplyPolicy(p, policy, now);
      && Slower(p, q)
      && q.backoff == p.backoff && q.backoffUntil == p.backoffUntil
      && FLUSH_INTERVAL <= q.flushInterval <= BACKOFF_MAX
      && (0.0 <= p.sampleRate ==> 0.0 <= q.sampleRate)
      && q.pausedUntil <= Max(p.pausedUntil, now + 86_400 * SECOND)
  {
    if policy.flushSeconds.Some? && policy.flushSeconds.value > Seconds(p.flushInterval) {
      var x := if policy.flushSeconds.value < Seconds(BACKOFF_MAX) then policy.flushSeconds.value else Seconds(BACKOFF_MAX);
      assert x * SECOND as real >= p.flushInterval as real;
      assert x * SECOND as real <= BACKOFF_MAX as real;
    }
    if policy.pauseSeconds.Some? && 0.0 <= policy.pauseSeconds.value <= MAX_PAUSE_SECONDS {
      assert policy.pauseSeconds.value * SECOND as real <= 86_400.0 * SECOND as real;
    }
  }
}
