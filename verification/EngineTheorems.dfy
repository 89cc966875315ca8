// Safety of the retry loop over every run, what the failover flag may change, and
// how its runs and the recorder's agree.
module EngineTheorems {
  import opened Options
  import opened Counters
  import opened CallRecorder
  import opened RecorderProofs
  import opened RecorderTheorems
  import opened RetryPolicy
  import opened Engine

  ghost predicate Draws(env: nat -> Turn) {
    forall i: nat :: 0.0 <= env(i).draw < 1.0
  }

  // ---- Safety ----

  /** One step of a run: send i and what licensed it. */
  ghost predicate SendOk(c: Config, env: nat -> Turn, s: Send, attempt: nat) {
    && s.attempt == attempt
    && s.base < |c.candidates| && s.candidate == c.candidates[s.base]
    && s.idempotencyKey == c.idempotencyKey
    && !env(attempt).callerEnded && !env(attempt).buildFails
  }

  /** A further send needs a replay-safe request and a repeatable answer, and moves at most one candidate on. */
  ghost predicate StepOk(c: Config, env: nat -> Turn, s: Send, t: Send) {
    && CanRepeat(c, env(s.attempt).answer) && !env(s.attempt).interrupted
    && s.base <= t.base <= s.base + 1
    && (t.base == s.base + 1 ==> MayMove(c, env(s.attempt).answer))
  }

  ghost predicate SendsOk(c: Config, env: nat -> Turn, sends: seq<Send>, attempt: nat, base: nat) {
    && (forall i | 0 <= i < |sends| :: SendOk(c, env, sends[i], attempt + i))
    && (forall i | 0 <= i < |sends| - 1 :: StepOk(c, env, sends[i], sends[i + 1]))
    && (sends != [] ==> sends[0].base == base)
  }

  lemma SendsCons(c: Config, env: nat -> Turn, s: Send, rest: seq<Send>, attempt: nat, next: nat)
    requires SendOk(c, env, s, attempt) && SendsOk(c, env, rest, attempt + 1, next)
    requires rest != [] ==> CanRepeat(c, env(attempt).answer) && !env(attempt).interrupted
    requires s.base <= next <= s.base + 1 && (next == s.base + 1 ==> MayMove(c, env(attempt).answer))
    ensures SendsOk(c, env, [s] + rest, attempt, s.base)
  {
    var all := [s] + rest;
    forall i | 0 <= i < |all|
      ensures SendOk(c, env, all[i], attempt + i)
    {
      assert i > 0 ==> all[i] == rest[i - 1] && attempt + i == attempt + 1 + (i - 1);
    }
    forall i | 0 <= i < |all| - 1
      ensures StepOk(c, env, all[i], all[i + 1])
    {
      if i > 0 {
        assert all[i] == rest[i - 1] && all[i + 1] == rest[i];
      }
    }
  }

  /** From any point of a run: the budget bounds the sends left, and each is licensed by the one before. */
  lemma {:induction false} RunSends(c: Config, env: nat -> Turn, attempt: nat, base: nat)
    requires base < |c.candidates|
    ensures var r := Run(c, env, attempt, base);
      && SendsOk(c, env, r.sends, attempt, base)
      && |r.sends| <= (if attempt <= c.maxRetries then c.maxRetries - attempt else 0) + 1
      && |r.naps| <= (if attempt <= c.maxRetries then c.maxRetries - attempt else 0)
    decreases c.maxRetries + 1 - attempt
  {
    var t := env(attempt);
    if !t.callerEnded && !t.buildFails {
      var s := Send(attempt, base, c.candidates[base], c.idempotencyKey);
      var next := NextBase(c, t.answer, base);
      if attempt < c.maxRetries && CanRepeat(c, t.answer) && !t.interrupted {
        RunSends(c, env, attempt + 1, next);
        SendsCons(c, env, s, Run(c, env, attempt + 1, next).sends, attempt, next);
      } else {
        SendsCons(c, env, s, [], attempt, base);
        assert [s] + [] == [s];
        assert Run(c, env, attempt, base).sends == [s];
      }
    }
  }

  function TotalNap(naps: seq<Nap>): int {
    if naps == [] then 0 else naps[0].nanos + TotalNap(naps[1..])
  }

  ghost predicate NapOk(n: Nap) {
    && 0 <= n.nanos <= 60 * NANOS
    && (n.floor.Some? ==> 0.0 <= n.floor.value <= MAX_RETRY_AFTER_SECONDS && n.nanos >= (n.floor.value * NANOS as real).Floor)
    && (n.floor.None? ==> n.nanos <= 30 * NANOS)
  }

  lemma {:induction false} RunNaps(c: Config, env: nat -> Turn, attempt: nat, base: nat)
    requires base < |c.candidates| && Draws(env)
    ensures forall i | 0 <= i < |Run(c, env, attempt, base).naps| :: NapOk(Run(c, env, attempt, base).naps[i])
    decreases c.maxRetries + 1 - attempt
  {
    var t := env(attempt);
    if !t.callerEnded && !t.buildFails && attempt < c.maxRetries && CanRepeat(c, t.answer) {
      RetrySleepBounds(attempt, Floor(t.answer), t.draw);
      assert NapOk(NapOf(t, attempt));
      if !t.interrupted {
        RunNaps(c, env, attempt + 1, NextBase(c, t.answer, base));
      }
    }
  }

  lemma {:induction false} NapsBounded(naps: seq<Nap>)
    requires forall i | 0 <= i < |naps| :: NapOk(naps[i])
    ensures TotalNap(naps) <= 60 * NANOS * |naps|
  {
    if naps != [] {
      assert NapOk(naps[0]);
      NapsBounded(naps[1..]);
    }
  }

  /** Send t may follow send s, answered by a. */
  ghost predicate Licensed(c: Config, a: Answer, s: Send, t: Send) {
    && ReplaySafe(c)
    && (a.NoResponse? || Retryable(a.status, a.verdict))
    && s.base <= t.base <= s.base + 1
    && (t.base > s.base ==>
          c.failover && (a.NoResponse? || (a.status in {502, 503, 504} && a.verdict != Some(false))))
  }

  lemma StepLicensed(c: Config, env: nat -> Turn, s: Send, t: Send)
    requires StepOk(c, env, s, t)
    ensures Licensed(c, env(s.attempt).answer, s, t)
  {
  }

  /**
   * Over any run: at most maxRetries + 1 sends, all under the call's one idempotency key, each further one licensed
   * by a replay-safe request and a repeatable answer; moves one candidate at a time, never after a 500 or a 429;
   * and no more than a minute of sleep per retry.
   */
  lemma RetrySafety(c: Config, env: nat -> Turn)
    requires c.candidates != [] && Draws(env)
    ensures var r := Run(c, env, 0, 0);
      && |r.sends| <= c.maxRetries + 1
      && (forall i | 0 <= i < |r.sends| :: r.sends[i].idempotencyKey == c.idempotencyKey && r.sends[i].attempt == i)
      && (forall i | 0 < i < |r.sends| :: Licensed(c, env(i - 1).answer, r.sends[i - 1], r.sends[i]))
      && TotalNap(r.naps) <= 60 * NANOS * c.maxRetries
  {
    RunSends(c, env, 0, 0);
    RunNaps(c, env, 0, 0);
    var r := Run(c, env, 0, 0);
    NapsBounded(r.naps);
    SendsLicensed(c, env, r.sends);
    assert |r.naps| <= c.maxRetries;
  }

  lemma SendsLicensed(c: Config, env: nat -> Turn, sends: seq<Send>)
    requires SendsOk(c, env, sends, 0, 0)
    ensures forall i | 0 <= i < |sends| :: sends[i].idempotencyKey == c.idempotencyKey && sends[i].attempt == i
    ensures forall i | 0 < i < |sends| :: Licensed(c, env(i - 1).answer, sends[i - 1], sends[i])
  {
    forall i | 0 <= i < |sends|
      ensures sends[i].idempotencyKey == c.idempotencyKey && sends[i].attempt == i
    {
      assert SendOk(c, env, sends[i], 0 + i);
    }
    forall i | 0 < i < |sends|
      ensures Licensed(c, env(i - 1).answer, sends[i - 1], sends[i])
    {
      assert sends[i - 1].attempt == i - 1;
      assert StepOk(c, env, sends[i - 1], sends[(i - 1) + 1]);
      StepLicensed(c, env, sends[i - 1], sends[i]);
    }
  }

  // ---- The failover flag governs where, never whether ----

  ghost predicate SameBut(c: Config, d: Config) {
    c.verb == d.verb && c.idempotencyKey == d.idempotencyKey && c.maxRetries == d.maxRetries
  }

  /** Runs that differ only in the failover flag and the candidates send, sleep and end alike. */
  lemma {:induction false} FailoverOnlyWhere(c: Config, d: Config, env: nat -> Turn, attempt: nat, base: nat, other: nat)
    requires SameBut(c, d) && base < |c.candidates| && other < |d.candidates|
    ensures var r, s := Run(c, env, attempt, base), Run(d, env, attempt, other);
      |r.sends| == |s.sends| && r.naps == s.naps && r.final == s.final
    decreases c.maxRetries + 1 - attempt
  {
    var t := env(attempt);
    assert CanRepeat(c, t.answer) == CanRepeat(d, t.answer);
    if !t.callerEnded && !t.buildFails && attempt < c.maxRetries && CanRepeat(c, t.answer) && !t.interrupted {
      FailoverOnlyWhere(c, d, env, attempt + 1, NextBase(c, t.answer, base), NextBase(d, t.answer, other));
    }
  }

  /** With the flag off, or a single candidate, every send goes to the first. */
  lemma {:induction false} PinnedStays(c: Config, env: nat -> Turn, attempt: nat)
    requires c.candidates != [] && (!c.failover || |c.candidates| == 1)
    ensures var r := Run(c, env, attempt, 0);
      r.base == 0 && forall i | 0 <= i < |r.sends| :: r.sends[i].base == 0
    decreases c.maxRetries + 1 - attempt
  {
    var t := env(attempt);
    if !t.callerEnded && !t.buildFails && attempt < c.maxRetries && CanRepeat(c, t.answer) && !t.interrupted {
      PinnedStays(c, env, attempt + 1);
    }
  }

  // ---- The idempotency key ----

  /** A request that may not be replayed is sent at most once. */
  lemma SentOnce(c: Config, env: nat -> Turn)
    requires c.candidates != [] && !ReplaySafe(c)
    ensures |Run(c, env, 0, 0).sends| <= 1
  {
  }

  /**
   * A call has one key on every send: the caller's if there is one, the one minted before the first send if the call
   * mints, and none otherwise; a call that mints may always be replayed, and one without a key only if its verb allows.
   */
  lemma CallKey(c: Config, auto: bool, minted: string, env: nat -> Turn)
    requires c.candidates != [] && Draws(env)
    ensures var d := WithKey(c, auto, minted);
      var sends, key := Run(d, env, 0, 0).sends, if c.idempotencyKey == "" && auto then minted else c.idempotencyKey;
      && (forall i | 0 <= i < |sends| :: sends[i].idempotencyKey == key)
      && (key == "" && c.verb !in {"GET", "HEAD", "OPTIONS", "TRACE"} ==> |sends| <= 1)
      && (key != "" ==> ReplaySafe(d))
  {
    var d := WithKey(c, auto, minted);
    RetrySafety(d, env);
    if !ReplaySafe(d) {
      SentOnce(d, env);
    }
  }
}
