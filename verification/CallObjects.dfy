// A call as it runs: the recorder updated in place, the loop that drives it, and
// the body that finishes it.
module CallObjects {
  import opened Options
  import opened Counters
  import opened CallRecorder
  import opened RecorderTheorems
  import opened RetryPolicy
  import opened Engine
  import opened EngineCoupling
  import opened Body

  class RequestRecorder {
    const facts: Facts
    var attempts: seq<Attempt>
    var overflow: seq<OverflowEntry>
    var foldedIndex: int
    var recorded: nat
    var firstErrorClass: string
    var lastAttempt: Option<Attempt>
    var nextIndex: nat
    var failoverUsed: bool
    var currentHost: string
    var currentIndex: nat
    var begun: bool
    var sinceFirstMS: int
    var ttftMS: Option<int>
    var exhausted: bool
    var finished: bool
    var sunk: seq<Emission>
    ghost var history: seq<Attempt>

    ghost function View(): Recorder
      reads this
    {
      Recorder(facts, attempts, overflow, foldedIndex, recorded, firstErrorClass, lastAttempt, nextIndex, failoverUsed,
               currentHost, currentIndex, begun, sinceFirstMS, ttftMS, exhausted, finished, sunk, history)
    }

    constructor (facts: Facts)
      ensures View() == NewRecorder(facts)
    {
      this.facts := facts;
      attempts, overflow, foldedIndex, recorded, firstErrorClass := [], [], -1, 0, "";
      lastAttempt, nextIndex, failoverUsed, currentHost, currentIndex, begun := None, 0, false, "", 0, false;
      sinceFirstMS, ttftMS, exhausted, finished, sunk := 0, None, false, false, [];
      history := [];
    }

    /** Store or replace the record of attempt a.index. */
    method StoreAttempt(given: Attempt)
      modifies this
      ensures View() == Store(old(View()), given)
    {
      var a := given.(phase := OrNone(given.phase), shouldRetry := if given.shouldRetry == "" then "absent" else given.shouldRetry);
      var replaced := lastAttempt.Some? && lastAttempt.value.index == a.index;
      var updated, stored := ReplaceRecord(attempts, a);
      if !stored && !replaced && |attempts| < MAX_EVENT_ATTEMPTS {
        updated := attempts + [a];
      }
      var count, first := recorded, firstErrorClass;
      if !replaced {
        count := count + 1;
      }
      if first == "" && a.errorClass != "" {
        first := a.errorClass;
      }
      Adopt(updated, count, first, a);
    }

    method Adopt(updated: seq<Attempt>, count: nat, first: string, a: Attempt)
      modifies this
      ensures View() == old(View()).(attempts := updated, recorded := count, firstErrorClass := first, last := Some(a),
                                     history := StoreIn(old(history), a))
    {
      attempts, recorded, firstErrorClass, lastAttempt := updated, count, first, Some(a);
      history := StoreIn(history, a);
    }

    method FoldLast()
      modifies this
      ensures View() == FoldOverflow(old(View())) && begun == old(begun)
    {
      if lastAttempt.None? || lastAttempt.value.index == foldedIndex {
        return;
      }
      var i := 0;
      while i < |attempts|
        invariant 0 <= i <= |attempts| && forall j | 0 <= j < i :: attempts[j].index != lastAttempt.value.index
      {
        if attempts[i].index == lastAttempt.value.index {
          assert attempts[i] in attempts;
          return;
        }
        i := i + 1;
      }
      assert !Holds(attempts, lastAttempt.value.index);
      var key := AttemptKey(facts, lastAttempt.value);
      foldedIndex := lastAttempt.value.index;
      var m := if lastAttempt.value.moved then 1 else 0;
      i := 0;
      while i < |overflow|
        invariant 0 <= i <= |overflow| && forall j | 0 <= j < i :: overflow[j].key != key
      {
        if overflow[i].key == key {
          overflow := overflow[i := OverflowEntry(key, overflow[i].attempts + 1, overflow[i].moved + m)];
          return;
        }
        i := i + 1;
      }
      overflow := overflow + [OverflowEntry(key, 1, m)];
    }

    /** An attempt is about to be sent; with hostFault the host could not be named and stays custom. */
    method BeginAttempt(host: string, sinceFirst: int, hostFault: bool)
      modifies this
      ensures View() == Do(old(View()), Begin(host, sinceFirst, hostFault))
    {
      NextAttempt();
      FoldLast();
      StartClock(sinceFirst, if hostFault then CUSTOM else host);
    }

    method NextAttempt()
      modifies this
      ensures View() == Advanced(old(View()))
    {
      currentIndex := nextIndex;
      nextIndex := nextIndex + 1;
      currentHost := CUSTOM;
    }

    method StartClock(sinceFirst: int, host: string)
      modifies this
      ensures View() == Started(old(View()), sinceFirst, host)
    {
      sinceFirstMS := if begun then sinceFirst else 0;
      begun := true;
      currentHost := host;
    }

    method OnResponse(status: int, shouldRetry: string, retryAfterMS: Option<int>, requestID: string, elapsedMS: int)
      modifies this
      ensures View() == Do(old(View()), Response(status, shouldRetry, retryAfterMS, requestID, elapsedMS))
    {
      if !begun {
        return;
      }
      var outcome := "http_error";
      if status < 400 {
        outcome := "ok";
      }
      var elapsed := ClampMS(elapsedMS);
      var after := if retryAfterMS.Some? then Some(ClampMS(retryAfterMS.value)) else None;
      StoreAttempt(Attempt(currentIndex, currentHost, outcome, status, "", "", shouldRetry, after, elapsed, Some(elapsed),
                           requestID, false, "none"));
    }

    method OnTransportError(error: ErrorFacts, openTimedOut: bool, responseOpened: bool, bodyStarted: bool, elapsedMS: int)
      modifies this
      ensures View() == Do(old(View()), TransportError(error, openTimedOut, responseOpened, bodyStarted, elapsedMS))
    {
      if !begun {
        return;
      }
      var a := FailedAttempt(error, openTimedOut, bodyStarted, elapsedMS);
      if lastAttempt.Some? && lastAttempt.value.index == currentIndex {
        var previous := lastAttempt.value;
        if responseOpened {
          a := a.(httpStatus := previous.httpStatus, ttfbMS := previous.ttfbMS);
        }
        a := a.(errorSource := previous.errorSource, shouldRetry := previous.shouldRetry,
                retryAfterMS := previous.retryAfterMS, requestID := previous.requestID);
      }
      StoreAttempt(a);
    }

    method FailedAttempt(error: ErrorFacts, openTimedOut: bool, bodyStarted: bool, elapsedMS: int) returns (a: Attempt)
      ensures a == FailedRecord(View(), error, openTimedOut, bodyStarted, elapsedMS)
    {
      var failure := ClassOf(error, openTimedOut);
      var errorClass, phase := failure.errorClass, failure.phase;
      var outcome := "transport_error";
      if failure.timedOut {
        outcome := "timeout";
        if bodyStarted {
          phase := "idle";
          if errorClass == "read_timeout" {
            errorClass := "stream_stalled";
          }
        }
      } else if bodyStarted {
        outcome := "stream_broken";
      }
      a := Attempt(currentIndex, currentHost, outcome, 0, errorClass, "", "", None, ClampMS(elapsedMS), None, "", false, phase);
    }

    method OnMoved()
      modifies this
      ensures View() == Do(old(View()), Moved)
    {
      failoverUsed := true;
      if lastAttempt.Some? && lastAttempt.value.index == currentIndex {
        var index := lastAttempt.value.index;
        lastAttempt := Some(lastAttempt.value.(moved := true));
        attempts := MarkRecord(attempts, index);
        history := MarkMoved(history, index);
      }
    }

    method OnFirstEvent(ms: int)
      modifies this
      ensures View() == Do(old(View()), FirstEvent(ms))
    {
      if !begun || ttftMS.Some? {
        return;
      }
      ttftMS := Some(ClampMS(ms));
    }

    method OnAborted(elapsedMS: int)
      modifies this
      ensures View() == Do(old(View()), Aborted(elapsedMS))
    {
      if !begun {
        return;
      }
      var a := Attempt(currentIndex, currentHost, "aborted", 0, "", "", "", None, ClampMS(elapsedMS), None, "", false, "none");
      if lastAttempt.Some? && lastAttempt.value.index == currentIndex {
        var p := lastAttempt.value;
        a := a.(httpStatus := p.httpStatus, errorClass := p.errorClass, errorSource := p.errorSource,
                shouldRetry := p.shouldRetry, retryAfterMS := p.retryAfterMS, ttfbMS := p.ttfbMS,
                requestID := p.requestID, moved := p.moved, phase := p.phase);
      }
      StoreAttempt(a);
    }

    method MarkExhausted(value: bool)
      modifies this
      ensures View() == Do(old(View()), Exhausted(value))
    {
      exhausted := value;
    }

    /** Hand the event and its counters to the sink, once. */
    method FinishCall(totalMS: int)
      modifies this
      ensures View() == Do(old(View()), Finish(totalMS))
    {
      if finished {
        return;
      }
      finished := true;
      if !facts.Recordable() || !facts.hasSink || !begun || lastAttempt.None? {
        return;
      }
      FoldLast();
      Emit(totalMS);
    }

    method Emit(totalMS: int)
      requires lastAttempt.Some?
      modifies this
      ensures View() == Emitted(old(View()), totalMS)
    {
      var event := MakeEvent(totalMS);
      var request := MakeRequest(totalMS);
      var counters := MakeCounters(request);
      sunk := sunk + [Emission(event, counters)];
    }

    method MakeCounters(request: Increment) returns (counters: seq<Increment>)
      ensures counters == [request] + AttemptIncrements(facts, attempts) + OverflowIncrements(overflow)
    {
      counters := [request];
      for i := 0 to |attempts|
        invariant counters == [request] + AttemptIncrements(facts, attempts[..i])
      {
        var a := attempts[i];
        counters := counters + [Increment(AttemptKey(facts, a), Counts(1, if a.moved then 1 else 0))];
      }
      assert attempts[..|attempts|] == attempts;
      ghost var kept := counters;
      for i := 0 to |overflow|
        invariant counters == kept + OverflowIncrements(overflow[..i])
      {
        counters := counters + [Increment(overflow[i].key, Counts(overflow[i].attempts, overflow[i].moved))];
      }
      assert overflow[..|overflow|] == overflow;
    }

    method MakeEvent(totalMS: int) returns (event: RequestEvent)
      requires lastAttempt.Some?
      ensures event == EventOf(View(), totalMS)
    {
      var final := lastAttempt.value;
      var finalOutcome := final.outcome;
      if exhausted && recorded > 1 && final.outcome != "ok" {
        finalOutcome := "exhausted";
      }
      var phase := OrNone(final.phase);
      event := RequestEvent(facts, attempts, finalOutcome, final.httpStatus, ClampMS(totalMS), ttftMS, failoverUsed, phase,
                            ConfiguredTimeout(facts, phase));
    }

    method MakeRequest(totalMS: int) returns (request: Increment)
      requires lastAttempt.Some?
      ensures request == RequestIncrement(View(), totalMS)
    {
      var final := lastAttempt.value;
      var phase := OrNone(final.phase);
      var first := final;
      if |attempts| > 0 {
        first := attempts[0];
      }
      var firstEvent: Histogram := map[];
      if ttftMS.Some? {
        firstEvent := map[LatencyBucket(ttftMS.value) := 1];
      } else if final.ttfbMS.Some? {
        firstEvent := map[LatencyBucket(final.ttfbMS.value) := 1];
      }
      request := Increment(
        CounterKey("request", facts.endpoint, facts.streaming, final.host, final.outcome, firstErrorClass,
                   StatusClass(final.httpStatus), phase, TimeoutFloorMet(phase, ConfiguredTimeout(facts, phase)),
                   facts.providerPinned),
        CounterValue(1, recorded, if failoverUsed then 1 else 0, if first.outcome == "ok" then 1 else 0,
                     map[LatencyBucket(ClampMS(totalMS)) := 1], firstEvent));
    }

    /** The header for the attempt in flight, if one may be sent. */
    method CurrentHeader() returns (header: Option<Header>)
      ensures header == HeaderValue(View())
    {
      if !begun || currentHost == CUSTOM || currentIndex > 99 {
        return None;
      }
      if currentIndex == 0 {
        return Some(Header(0, None, facts.streaming, false));
      }
      if lastAttempt.None? {
        return None;
      }
      var previous := lastAttempt.value;
      if previous.index != currentIndex - 1 {
        return None;
      }
      var outcome, errorClass := previous.outcome, if previous.errorClass == "" then "none" else previous.errorClass;
      if !Reportable(outcome) {
        outcome, errorClass := "none", "none";
      }
      return Some(Header(currentIndex, Some(Previous(outcome, errorClass, previous.host, previous.elapsedMS, ClampMS(sinceFirstMS))),
                         facts.streaming, failoverUsed));
    }
  }

  method ReplaceRecord(attempts: seq<Attempt>, a: Attempt) returns (updated: seq<Attempt>, stored: bool)
    ensures stored == Holds(attempts, a.index) && updated == Replace(attempts, a)
    ensures !stored ==> updated == attempts
  {
    updated, stored := attempts, false;
    for i := 0 to |attempts|
      invariant |updated| == |attempts|
      invariant forall j | 0 <= j < |attempts| ::
        updated[j] == if j < i && attempts[j].index == a.index then a else attempts[j]
      invariant stored == exists j :: 0 <= j < i && attempts[j].index == a.index
    {
      if attempts[i].index == a.index {
        updated := updated[i := a];
        stored := true;
      }
    }
    if stored {
      var j :| 0 <= j < |attempts| && attempts[j].index == a.index;
      assert attempts[j] in attempts;
    }
  }

  method MarkRecord(attempts: seq<Attempt>, index: nat) returns (updated: seq<Attempt>)
    ensures updated == MarkMoved(attempts, index)
  {
    updated := attempts;
    for i := 0 to |attempts|
      invariant |updated| == |attempts|
      invariant forall j | 0 <= j < |attempts| ::
        updated[j] == if j < i && attempts[j].index == index then attempts[j].(moved := true) else attempts[j]
    {
      if attempts[i].index == index {
        updated := updated[i := attempts[i].(moved := true)];
      }
    }
  }

  // ---- The engine's loop ----

  lemma PrefixTwice(a: seq<Send>, b: seq<Nap>, o: seq<Op>, x: seq<Send>, y: seq<Nap>, p: seq<Op>, rest: Trace)
    ensures Prefix(a, b, o, Prefix(x, y, p, rest)) == Prefix(a + x, b + y, o + p, rest)
  {
  }

  lemma PrefixLast(a: seq<Send>, b: seq<Nap>, o: seq<Op>, t: Trace)
    ensures Prefix(a, b, o, t) == Trace(a + t.sends, b + t.naps, o + t.ops, t.final, t.base)
  {
  }

  lemma PlayMore(r: Recorder, ops: seq<Op>, op: Op)
    ensures Play(r, ops + [op]) == Do(Play(r, ops), op)
  {
    assert (ops + [op])[..|ops|] == ops;
  }

  /** Tell the recorder how the attempt just sent went. */
  method Hear(c: Config, t: Turn, base: nat, recorder: RequestRecorder)
    requires base < |c.candidates|
    modifies recorder
    ensures recorder.View() == Play(old(recorder.View()), SentOps(c, t, base))
  {
    ghost var r := recorder.View();
    recorder.BeginAttempt(c.candidates[base].host, t.sinceFirstMS, false);
    match t.answer {
      case NoResponse(error, timedOut, ended) =>
        if ended {
          recorder.OnAborted(t.elapsedMS);
          Two(r, Begin(c.candidates[base].host, t.sinceFirstMS, false), Aborted(t.elapsedMS));
        } else {
          recorder.OnTransportError(error, timedOut, false, false, t.elapsedMS);
          Two(r, Begin(c.candidates[base].host, t.sinceFirstMS, false), TransportError(error, timedOut, false, false, t.elapsedMS));
        }
      case Answered(status, verdict, hints, id) =>
        var after := RetryAfterSeconds(hints);
        recorder.OnResponse(status, Verdicts(verdict), if after.Some? then Some((after.value * 1000.0).Floor) else None, id,
                            t.elapsedMS);
        Two(r, Begin(c.candidates[base].host, t.sinceFirstMS, false), ResponseOp(t));
    }
  }

  /** Tell the recorder that the attempt just sent was the last. */
  method HearLast(c: Config, t: Turn, attempt: nat, recorder: RequestRecorder)
    modifies recorder
    ensures recorder.View() == Play(old(recorder.View()), LastOps(c, t, attempt))
  {
    ghost var r := recorder.View();
    match t.answer {
      case NoResponse(_, _, ended) =>
        var value := attempt > 0 && ReplaySafe(c);
        Two(r, Finish(t.totalMS), Finish(t.totalMS));
        Two(r, Exhausted(value), Finish(t.totalMS));
        if !ended {
          recorder.MarkExhausted(value);
        }
        recorder.FinishCall(t.totalMS);
      case Answered(_, _, _, _) =>
        var value := attempt > 0 && CanRepeat(c, t.answer);
        Two(r, Exhausted(value), Exhausted(value));
        recorder.MarkExhausted(value);
    }
  }

  method HearAborted(t: Turn, recorder: RequestRecorder)
    modifies recorder
    ensures recorder.View() == Play(old(recorder.View()), [Aborted(t.elapsedMS), Finish(t.totalMS)])
  {
    Two(recorder.View(), Aborted(t.elapsedMS), Finish(t.totalMS));
    recorder.OnAborted(t.elapsedMS);
    recorder.FinishCall(t.totalMS);
  }

  method TakeNextTurn(c: Config, t: Turn, attempt: nat, base: nat, recorder: RequestRecorder)
    returns (sends: seq<Send>, naps: seq<Nap>, final: Option<Final>, next: nat)
    requires base < |c.candidates|
    modifies recorder
    ensures var u := TakeTurn(c, t, attempt, base);
      && sends == u.sends && naps == u.naps && final == u.final && next == u.base
      && recorder.View() == Play(old(recorder.View()), u.ops)
  {
    if t.callerEnded {
      HearAborted(t, recorder);
      return [], [], Some(CallerEnded), base;
    }
    if t.buildFails {
      Two(recorder.View(), Begin(c.candidates[base].host, t.sinceFirstMS, false), Finish(t.totalMS));
      recorder.BeginAttempt(c.candidates[base].host, t.sinceFirstMS, false);
      recorder.FinishCall(t.totalMS);
      return [], [], Some(BuildFailed), base;
    }
    sends, naps, final, next := SendOnce(c, t, attempt, base, recorder);
  }

  method SendOnce(c: Config, t: Turn, attempt: nat, base: nat, recorder: RequestRecorder)
    returns (sends: seq<Send>, naps: seq<Nap>, final: Option<Final>, next: nat)
    requires base < |c.candidates| && !t.callerEnded && !t.buildFails
    modifies recorder
    ensures var u := TakeTurn(c, t, attempt, base);
      && sends == u.sends && naps == u.naps && final == u.final && next == u.base
      && recorder.View() == Play(old(recorder.View()), u.ops)
  {
    ghost var r := recorder.View();
    sends := [Send(attempt, base, c.candidates[base], c.idempotencyKey)];
    Hear(c, t, base, recorder);
    if attempt >= c.maxRetries || !CanRepeat(c, t.answer) {
      HearLast(c, t, attempt, recorder);
      PlayConcat(r, SentOps(c, t, base), LastOps(c, t, attempt));
      return sends, [], Some(LastFinal(t)), base;
    }
    next := base;
    if MayMove(c, t.answer) && base < |c.candidates| - 1 {
      next := base + 1;
      recorder.OnMoved();
    }
    Repeated(c, t, base, r);
    naps := [Nap(Floor(t.answer), RetrySleep(attempt, Floor(t.answer), t.draw))];
    if t.interrupted {
      HearAborted(t, recorder);
      PlayConcat(r, SentOps(c, t, base) + RepeatOps(c, t, base), [Aborted(t.elapsedMS), Finish(t.totalMS)]);
      return sends, naps, Some(CallerEnded), next;
    }
    final := None;
  }

  /** One logical call: send, retry, move on, and tell the recorder. */
  method Call(c: Config, env: nat -> Turn, recorder: RequestRecorder)
    returns (final: Final, sends: seq<Send>, naps: seq<Nap>, baseIndex: nat)
    requires c.candidates != []
    modifies recorder
    ensures var run := Run(c, env, 0, 0);
      && final == run.final && sends == run.sends && naps == run.naps && baseIndex == run.base
      && recorder.View() == Play(old(recorder.View()), run.ops)
  {
    var attempt := 0;
    baseIndex, sends, naps := 0, [], [];
    ghost var ops: seq<Op> := [];
    ghost var r0, whole := recorder.View(), Run(c, env, 0, 0);
    while true
      invariant baseIndex < |c.candidates|
      invariant recorder.View() == Play(r0, ops)
      invariant Prefix(sends, naps, ops, Run(c, env, attempt, baseIndex)) == whole
      decreases c.maxRetries + 1 - attempt
    {
      ghost var u, rest := TakeTurn(c, env(attempt), attempt, baseIndex), Run(c, env, attempt, baseIndex);
      PlayConcat(r0, ops, u.ops);
      var s, n, f, next := TakeNextTurn(c, env(attempt), attempt, baseIndex, recorder);
      if f.Some? {
        PrefixLast(sends, naps, ops, rest);
        return f.value, sends + s, naps + n, next;
      }
      PrefixTwice(sends, naps, ops, s, n, u.ops, Run(c, env, attempt + 1, next));
      sends, naps, ops := sends + s, naps + n, ops + u.ops;
      baseIndex, attempt := next, attempt + 1;
    }
  }

  /** A call that mints its own key does so once, before the loop. */
  method CallMinting(c: Config, auto: bool, minted: string, env: nat -> Turn, recorder: RequestRecorder)
    returns (final: Final, sends: seq<Send>, naps: seq<Nap>, baseIndex: nat)
    requires c.candidates != []
    modifies recorder
    ensures var run := Run(WithKey(c, auto, minted), env, 0, 0);
      && final == run.final && sends == run.sends && naps == run.naps && baseIndex == run.base
      && recorder.View() == Play(old(recorder.View()), run.ops)
  {
    var keyed := c;
    if auto {
      if keyed.idempotencyKey == "" {
        keyed := keyed.(idempotencyKey := minted);
      }
    }
    final, sends, naps, baseIndex := Call(keyed, env, recorder);
  }

  lemma Repeated(c: Config, t: Turn, base: nat, r: Recorder)
    requires base < |c.candidates|
    ensures Play(r, SentOps(c, t, base) + RepeatOps(c, t, base))
      == if NextBase(c, t.answer, base) != base then Do(Play(r, SentOps(c, t, base)), Moved) else Play(r, SentOps(c, t, base))
  {
    if NextBase(c, t.answer, base) != base {
      PlayMore(r, SentOps(c, t, base), Moved);
    } else {
      assert SentOps(c, t, base) + [] == SentOps(c, t, base);
    }
  }

  // ---- The body ----

  class TelemetryBody {
    const recorder: RequestRecorder
    var bodyStarted: bool
    var sawEOF: bool
    var done: bool

    ghost function View(): BodyState
      reads this
    {
      BodyState(bodyStarted, sawEOF, done)
    }

    constructor (recorder: RequestRecorder)
      ensures View() == UNREAD && this.recorder == recorder
    {
      this.recorder := recorder;
      bodyStarted, sawEOF, done := false, false, false;
    }

    method ObserveReadError(eof: bool, callerEnded: bool, error: ErrorFacts, elapsedMS: int, totalMS: int)
      modifies this, recorder
      ensures var (b, ops) := BodyStep(old(View()), ReadError(eof, callerEnded, error, elapsedMS, totalMS));
        View() == b && recorder.View() == Play(old(recorder.View()), ops)
    {
      if eof {
        sawEOF := true;
        return;
      }
      if done {
        return;
      }
      done := true;
      ghost var op := if callerEnded then Aborted(elapsedMS) else TransportError(error, false, true, bodyStarted, elapsedMS);
      Two(recorder.View(), op, Finish(totalMS));
      if callerEnded {
        recorder.OnAborted(elapsedMS);
      } else {
        recorder.OnTransportError(error, false, true, bodyStarted, elapsedMS);
      }
      recorder.FinishCall(totalMS);
    }

    method Close(callerEnded: bool, elapsedMS: int, totalMS: int)
      modifies this, recorder
      ensures var (b, ops) := BodyStep(old(View()), CloseBody(callerEnded, elapsedMS, totalMS));
        View() == b && recorder.View() == Play(old(recorder.View()), ops)
    {
      Two(recorder.View(), Aborted(elapsedMS), Finish(totalMS));
      Two(recorder.View(), Finish(totalMS), Finish(totalMS));
      if !done {
        done := true;
        if callerEnded && !sawEOF {
          recorder.OnAborted(elapsedMS);
        }
      }
      recorder.FinishCall(totalMS);
    }

    method OnFirstEvent(ms: int)
      modifies this, recorder
      ensures var (b, ops) := BodyStep(old(View()), FirstItem(ms));
        View() == b && recorder.View() == Play(old(recorder.View()), ops)
    {
      Two(recorder.View(), FirstEvent(ms), FirstEvent(ms));
      bodyStarted := true;
      recorder.OnFirstEvent(ms);
    }

    method OnAborted(elapsedMS: int)
      modifies this, recorder
      ensures var (b, ops) := BodyStep(old(View()), StoppedEarly(elapsedMS));
        View() == b && recorder.View() == Play(old(recorder.View()), ops)
    {
      if done {
        return;
      }
      Two(recorder.View(), Aborted(elapsedMS), Aborted(elapsedMS));
      done := true;
      recorder.OnAborted(elapsedMS);
    }
  }
}
