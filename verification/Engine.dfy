// The retry and failover loop, against an adversary that chooses the outcome of
// every attempt, and what it tells the recorder on the way.
module Engine {
  import opened Options
  import opened Counters
  import opened CallRecorder
  import opened RetryPolicy

  /** A base URL, and the name telemetry has for it. */
  datatype Candidate = Candidate(url: string, host: string)

  datatype Config = Config(verb: string, idempotencyKey: string, maxRetries: nat, failover: bool, candidates: seq<Candidate>)

  /** What came of sending an attempt. */
  datatype Answer =
    | NoResponse(error: ErrorFacts, openTimedOut: bool, callerEnded: bool)
    | Answered(status: int, verdict: Verdict, hints: Hints, requestID: string)

  /** Everything about attempt i that the engine does not decide. */
  datatype Turn = Turn(
    callerEnded: bool,     // the caller's context had ended when the attempt was about to start
    buildFails: bool,      // the request could not be built
    answer: Answer,
    draw: real,            // the random draw of the jitter
    interrupted: bool,     // the caller's context ended during the sleep after the attempt
    elapsedMS: int, sinceFirstMS: int, totalMS: int)

  datatype Final =
    | CallerEnded
    | BuildFailed
    | TransportFailed(error: ErrorFacts, openTimedOut: bool)
    | Returned(status: int)

  datatype Send = Send(attempt: nat, base: nat, candidate: Candidate, idempotencyKey: string)
  datatype Nap = Nap(floor: Option<real>, nanos: int)

  /** A whole call: what it sent, how it slept, what it told the recorder, and how it ended. */
  datatype Trace = Trace(sends: seq<Send>, naps: seq<Nap>, ops: seq<Op>, final: Final, base: nat)

  predicate ReplaySafe(c: Config) {
    c.verb == "GET" || c.verb == "HEAD" || c.verb == "OPTIONS" || c.verb == "TRACE" || c.idempotencyKey != ""
  }

  function Verdicts(v: Verdict): string {
    if v.None? then "absent" else if v.value then "true" else "false"
  }

  function ResponseOp(t: Turn): Op
    requires t.answer.Answered?
  {
    var after := RetryAfterSeconds(t.answer.hints);
    Response(t.answer.status, Verdicts(t.answer.verdict),
             if after.Some? then Some((after.value * 1000.0).Floor) else None, t.answer.requestID, t.elapsedMS)
  }

  /** The attempt may be repeated, whatever the budget says. */
  predicate CanRepeat(c: Config, answer: Answer) {
    ReplaySafe(c)
    && match answer
       case NoResponse(_, _, ended) => !ended
       case Answered(status, verdict, _, _) => Retryable(status, verdict)
  }

  /** A repeat may go to another domain. */
  predicate MayMove(c: Config, answer: Answer) {
    c.failover && (answer.Answered? ==> RegionalFailoverable(answer.status, answer.verdict))
  }

  function Floor(answer: Answer): Option<real> {
    if answer.Answered? then RetryAfterSeconds(answer.hints) else None
  }

  function NextBase(c: Config, answer: Answer, base: nat): nat {
    if MayMove(c, answer) && base + 1 < |c.candidates| then base + 1 else base
  }

  /** What the recorder hears of an attempt that was sent. */
  function SentOps(c: Config, t: Turn, base: nat): seq<Op>
    requires base < |c.candidates|
  {
    [Begin(c.candidates[base].host, t.sinceFirstMS, false)]
    + match t.answer
      case NoResponse(error, timedOut, ended) =>
        if ended then [Aborted(t.elapsedMS)] else [TransportError(error, timedOut, false, false, t.elapsedMS)]
      case Answered(_, _, _, _) => [ResponseOp(t)]
  }

  /** How the recorder hears that a sent attempt was the last. */
  function LastOps(c: Config, t: Turn, attempt: nat): seq<Op> {
    match t.answer
    case NoResponse(_, _, ended) =>
      if ended then [Finish(t.totalMS)] else [Exhausted(attempt > 0 && ReplaySafe(c)), Finish(t.totalMS)]
    case Answered(_, _, _, _) => [Exhausted(attempt > 0 && CanRepeat(c, t.answer))]
  }

  function LastFinal(t: Turn): Final {
    match t.answer
    case NoResponse(error, timedOut, ended) => if ended then CallerEnded else TransportFailed(error, timedOut)
    case Answered(status, _, _, _) => Returned(status)
  }

  function RepeatOps(c: Config, t: Turn, base: nat): seq<Op> {
    if NextBase(c, t.answer, base) != base then [Moved] else []
  }

  function NapOf(t: Turn, attempt: nat): Nap {
    Nap(Floor(t.answer), RetrySleep(attempt, Floor(t.answer), t.draw))
  }

  function Prefix(sends: seq<Send>, naps: seq<Nap>, ops: seq<Op>, rest: Trace): Trace {
    Trace(sends + rest.sends, naps + rest.naps, ops + rest.ops, rest.final, rest.base)
  }

  /** One turn of the loop: what it sent, slept and told the recorder, how it ended the call if it did, and where to go on. */
  datatype TurnResult = TurnResult(sends: seq<Send>, naps: seq<Nap>, ops: seq<Op>, final: Option<Final>, base: nat)

  function TakeTurn(c: Config, t: Turn, attempt: nat, base: nat): TurnResult
    requires base < |c.candidates|
  {
    if t.callerEnded then TurnResult([], [], [Aborted(t.elapsedMS), Finish(t.totalMS)], Some(CallerEnded), base)
    else if t.buildFails then
      TurnResult([], [], [Begin(c.candidates[base].host, t.sinceFirstMS, false), Finish(t.totalMS)], Some(BuildFailed), base)
    else
      var sent, ops := [Send(attempt, base, c.candidates[base], c.idempotencyKey)], SentOps(c, t, base);
      if attempt >= c.maxRetries || !CanRepeat(c, t.answer) then
        TurnResult(sent, [], ops + LastOps(c, t, attempt), Some(LastFinal(t)), base)
      else
        var next, more := NextBase(c, t.answer, base), ops + RepeatOps(c, t, base);
        if t.interrupted then
          TurnResult(sent, [NapOf(t, attempt)], more + [Aborted(t.elapsedMS), Finish(t.totalMS)], Some(CallerEnded), next)
        else TurnResult(sent, [NapOf(t, attempt)], more, None, next)
  }

  /** The loop from a given attempt and candidate on. */
  function Run(c: Config, env: nat -> Turn, attempt: nat, base: nat): Trace
    requires base < |c.candidates|
    decreases c.maxRetries + 1 - attempt
  {
    var u := TakeTurn(c, env(attempt), attempt, base);
    if u.final.Some? then Trace(u.sends, u.naps, u.ops, u.final.value, u.base)
    else Prefix(u.sends, u.naps, u.ops, Run(c, env, attempt + 1, u.base))
  }

  /** A call mints its idempotency key once, before the first attempt. */
  function WithKey(c: Config, auto: bool, minted: string): Config {
    if auto && c.idempotencyKey == "" then c.(idempotencyKey := minted) else c
  }
}
