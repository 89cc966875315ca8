// The recorder of one logical call: at most sixteen attempts in full, the rest
// folded into counts, and the header each attempt carries.
module CallRecorder {
  import opened Options
  import opened Counters

  const MAX_EVENT_ATTEMPTS := 16
  const MAX_DURATION_MS := 3_600_000
  const CUSTOM := "custom"

  /** What is known of one attempt; the empty string stands for null. */
  datatype Attempt = Attempt(
    index: nat, host: string, outcome: string, httpStatus: int, errorClass: string, errorSource: string,
    shouldRetry: string, retryAfterMS: Option<int>, elapsedMS: int, ttfbMS: Option<int>, requestID: string,
    moved: bool, phase: string)

  /** What is known of the call before its first attempt. */
  datatype Facts = Facts(
    endpoint: string, verb: string, streaming: bool, providerPinned: bool, configuredTimeoutMS: Option<int>, hasSink: bool)
  {
    predicate Recordable() {
      InSlice(ENDPOINTS, endpoint) && (verb == "GET" || verb == "POST")
    }
  }

  datatype OverflowEntry = OverflowEntry(key: CounterKey, attempts: nat, moved: nat)

  datatype RequestEvent = RequestEvent(
    facts: Facts, attempts: seq<Attempt>, finalOutcome: string, finalHTTPStatus: int, totalMS: int, ttftMS: Option<int>,
    failoverUsed: bool, timeoutPhase: string, configuredTimeoutMS: Option<int>)

  datatype Emission = Emission(event: RequestEvent, counters: seq<Increment>)

  datatype Recorder = Recorder(
    facts: Facts,
    attempts: seq<Attempt>, overflow: seq<OverflowEntry>, foldedIndex: int, recorded: nat, firstErrorClass: string,
    last: Option<Attempt>, nextIndex: nat, failoverUsed: bool, currentHost: string, currentIndex: nat, begun: bool,
    sinceFirstMS: int, ttftMS: Option<int>, exhausted: bool, finished: bool,
    sunk: seq<Emission>,       // what the sink has been given
    history: seq<Attempt>)     // every attempt's latest record, for accounting only

  function NewRecorder(facts: Facts): Recorder {
    Recorder(facts, [], [], -1, 0, "", None, 0, false, "", 0, false, 0, None, false, false, [], [])
  }

  // ---- Small tables ----

  function StatusClass(status: int): string {
    if 200 <= status <= 299 then "2xx"
    else if status == 429 then "429"
    else if 400 <= status <= 499 then "4xx"
    else if 500 <= status <= 599 then "5xx"
    else "none"
  }

  predicate TimeoutFloorMet(phase: string, configuredMS: Option<int>) {
    configuredMS.Some?
    && ((phase == "connect" && configuredMS.value >= 10_000)
        || (phase == "first_byte" && configuredMS.value >= 60_000)
        || (phase == "idle" && configuredMS.value >= 30_000))
  }

  function ConfiguredTimeout(facts: Facts, phase: string): Option<int> {
    if phase == "connect" || phase == "first_byte" || phase == "idle" then facts.configuredTimeoutMS else None
  }

  const BOUNDS: seq<int> := [100, 200, 400, 800, 1600, 3200, 6400, 12800, 25600, 51200, 102400]

  function LatencyBucketFrom(ms: int, i: nat): string
    requires i <= |BOUNDS|
    decreases |BOUNDS| - i
  {
    if i == |BOUNDS| then "ge102400" else if ms < BOUNDS[i] then LATENCY_BUCKETS[i] else LatencyBucketFrom(ms, i + 1)
  }

  function LatencyBucket(ms: int): string {
    LatencyBucketFrom(Max(ms, 0), 0)
  }

  function ClampMS(ms: int): int {
    Clamp(ms, 0, MAX_DURATION_MS)
  }

  function OrNone(phase: string): string {
    if phase == "" then "none" else phase
  }

  // ---- Counter contributions ----

  function AttemptKey(facts: Facts, a: Attempt): CounterKey {
    var phase := OrNone(a.phase);
    CounterKey("attempt", facts.endpoint, facts.streaming, a.host, a.outcome, a.errorClass, StatusClass(a.httpStatus),
               phase, TimeoutFloorMet(phase, ConfiguredTimeout(facts, phase)), facts.providerPinned)
  }

  function Counts(attempts: nat, moved: nat): CounterValue {
    CounterValue(attempts, attempts, moved, 0, map[], map[])
  }

  function AttemptIncrement(facts: Facts, a: Attempt): Increment {
    Increment(AttemptKey(facts, a), Counts(1, if a.moved then 1 else 0))
  }

  function AttemptIncrements(facts: Facts, attempts: seq<Attempt>): (r: seq<Increment>)
    ensures |r| == |attempts|
    ensures forall i | 0 <= i < |attempts| :: r[i] == AttemptIncrement(facts, attempts[i])
  {
    seq(|attempts|, i requires 0 <= i < |attempts| => AttemptIncrement(facts, attempts[i]))
  }

  function OverflowIncrements(overflow: seq<OverflowEntry>): (r: seq<Increment>)
    ensures |r| == |overflow|
    ensures forall i | 0 <= i < |overflow| :: r[i] == Increment(overflow[i].key, Counts(overflow[i].attempts, overflow[i].moved))
  {
    seq(|overflow|, i requires 0 <= i < |overflow| =>
      Increment(overflow[i].key, Counts(overflow[i].attempts, overflow[i].moved)))
  }

  // ---- Storing and folding ----

  function FindEntry(overflow: seq<OverflowEntry>, key: CounterKey): (i: nat)
    ensures i <= |overflow|
    ensures i < |overflow| ==> overflow[i].key == key
    ensures forall j | 0 <= j < i :: overflow[j].key != key
  {
    if overflow == [] then 0 else if overflow[0].key == key then 0 else 1 + FindEntry(overflow[1..], key)
  }

  function FoldInto(overflow: seq<OverflowEntry>, key: CounterKey, moved: bool): seq<OverflowEntry> {
    var m := if moved then 1 else 0;
    var i := FindEntry(overflow, key);
    if i < |overflow| then overflow[i := OverflowEntry(key, overflow[i].attempts + 1, overflow[i].moved + m)]
    else overflow + [OverflowEntry(key, 1, m)]
  }

  predicate Holds(attempts: seq<Attempt>, index: nat) {
    exists a :: a in attempts && a.index == index
  }

  /** Fold the last record into the overflow counts, once, when it fell past the cap. */
  function FoldOverflow(r: Recorder): Recorder {
    if r.last.None? || r.last.value.index == r.foldedIndex || Holds(r.attempts, r.last.value.index) then r
    else
      r.(foldedIndex := r.last.value.index,
         overflow := FoldInto(r.overflow, AttemptKey(r.facts, r.last.value), r.last.value.moved))
  }

  /** Every record of attempt a.index becomes a. */
  function Replace(attempts: seq<Attempt>, a: Attempt): (r: seq<Attempt>)
    ensures |r| == |attempts|
    ensures forall i | 0 <= i < |attempts| :: r[i] == if attempts[i].index == a.index then a else attempts[i]
  {
    seq(|attempts|, i requires 0 <= i < |attempts| => if attempts[i].index == a.index then a else attempts[i])
  }

  function Normalise(a: Attempt): Attempt {
    a.(phase := OrNone(a.phase), shouldRetry := if a.shouldRetry == "" then "absent" else a.shouldRetry)
  }

  /** The unbounded recorder: a record replaces the last one of the same attempt, or is a new one. */
  function StoreIn(history: seq<Attempt>, a: Attempt): seq<Attempt> {
    if history != [] && history[|history| - 1].index == a.index then history[|history| - 1 := a] else history + [a]
  }

  function Store(r: Recorder, given: Attempt): Recorder {
    var a := Normalise(given);
    var replaced := r.last.Some? && r.last.value.index == a.index;
    var stored := Holds(r.attempts, a.index);
    r.(attempts := if stored then Replace(r.attempts, a)
                   else if !replaced && |r.attempts| < MAX_EVENT_ATTEMPTS then r.attempts + [a] else r.attempts,
       recorded := if replaced then r.recorded else r.recorded + 1,
       firstErrorClass := if r.firstErrorClass == "" then a.errorClass else r.firstErrorClass,
       last := Some(a),
       history := StoreIn(r.history, a))
  }

  /** Before the first attempt has begun there is nothing to record. */
  function StoreBegun(r: Recorder, a: Attempt): Recorder {
    if r.begun then Store(r, a) else r
  }

  /** The record of the attempt in flight, if it has one. */
  function CurrentRecord(r: Recorder): Option<Attempt> {
    if r.last.Some? && r.last.value.index == r.currentIndex then r.last else None
  }

  // ---- Callbacks ----

  /** What a transport error is: a dial, the idle sentinel, and its class. */
  datatype ErrorFacts = ErrorFacts(dialing: bool, idle: bool, errorClass: string)

  datatype Op =
    | Begin(host: string, sinceFirstMS: int, hostFault: bool)
    | Response(status: int, shouldRetry: string, retryAfterMS: Option<int>, requestID: string, elapsedMS: int)
    | TransportError(error: ErrorFacts, openTimedOut: bool, responseOpened: bool, bodyStarted: bool, elapsedMS: int)
    | Moved
    | FirstEvent(ms: int)
    | Aborted(elapsedMS: int)
    | Exhausted(value: bool)
    | Finish(totalMS: int)
    | Lost  // a callback that panicked before it stored anything

  /** The index advances and the host is reset to the fail-closed value before anything that can go wrong. */
  function Advanced(r: Recorder): Recorder {
    r.(currentIndex := r.nextIndex, nextIndex := r.nextIndex + 1, currentHost := CUSTOM)
  }

  function Started(r: Recorder, sinceFirstMS: int, host: string): Recorder {
    r.(sinceFirstMS := if r.begun then sinceFirstMS else 0, begun := true, currentHost := host)
  }

  function DoBegin(r: Recorder, host: string, sinceFirstMS: int, hostFault: bool): Recorder {
    Started(FoldOverflow(Advanced(r)), sinceFirstMS, if hostFault then CUSTOM else host)
  }

  function ResponseRecord(r: Recorder, status: int, shouldRetry: string, retryAfterMS: Option<int>, requestID: string,
                          elapsedMS: int): Attempt {
    var ms := ClampMS(elapsedMS);
    Attempt(r.currentIndex, r.currentHost, if status < 400 then "ok" else "http_error", status, "", "", shouldRetry,
            if retryAfterMS.Some? then Some(ClampMS(retryAfterMS.value)) else None, ms, Some(ms), requestID, false, "none")
  }

  datatype Failure = Failure(errorClass: string, phase: string, timedOut: bool)

  function ClassOf(error: ErrorFacts, openTimedOut: bool): Failure {
    if openTimedOut then
      if error.dialing then Failure("connect_timeout", "connect", true) else Failure("read_timeout", "first_byte", true)
    else if error.idle then Failure("read_timeout", "first_byte", true)
    else if error.errorClass == "connect_timeout" then Failure("connect_timeout", "connect", true)
    else if error.errorClass == "read_timeout" || error.errorClass == "write_timeout"
    then Failure(error.errorClass, "first_byte", true)
    else Failure(error.errorClass, "none", false)
  }

  /** A failed attempt, on its own. */
  function FailedRecord(r: Recorder, error: ErrorFacts, openTimedOut: bool, bodyStarted: bool, elapsedMS: int): Attempt {
    var f := ClassOf(error, openTimedOut);
    var phase := if f.timedOut && bodyStarted then "idle" else f.phase;
    var errorClass := if f.timedOut && bodyStarted && f.errorClass == "read_timeout" then "stream_stalled" else f.errorClass;
    var outcome := if f.timedOut then "timeout" else if bodyStarted then "stream_broken" else "transport_error";
    Attempt(r.currentIndex, r.currentHost, outcome, 0, errorClass, "", "", None, ClampMS(elapsedMS), None, "", false, phase)
  }

  /** What the headers of the same attempt already said is kept. */
  function WithHeaders(a: Attempt, p: Option<Attempt>, responseOpened: bool): Attempt {
    if p.None? then a
    else
      a.(httpStatus := if responseOpened then p.value.httpStatus else a.httpStatus,
         ttfbMS := if responseOpened then p.value.ttfbMS else a.ttfbMS,
         errorSource := p.value.errorSource, shouldRetry := p.value.shouldRetry,
         retryAfterMS := p.value.retryAfterMS, requestID := p.value.requestID)
  }

  function TransportRecord(r: Recorder, error: ErrorFacts, openTimedOut: bool, responseOpened: bool, bodyStarted: bool,
                           elapsedMS: int): Attempt {
    WithHeaders(FailedRecord(r, error, openTimedOut, bodyStarted, elapsedMS), CurrentRecord(r), responseOpened)
  }

  function MarkMoved(attempts: seq<Attempt>, index: nat): (r: seq<Attempt>)
    ensures |r| == |attempts|
    ensures forall i | 0 <= i < |attempts| ::
      r[i] == if attempts[i].index == index then attempts[i].(moved := true) else attempts[i]
  {
    seq(|attempts|, i requires 0 <= i < |attempts| =>
      if attempts[i].index == index then attempts[i].(moved := true) else attempts[i])
  }

  function DoMoved(r: Recorder): Recorder {
    var p := CurrentRecord(r);
    if p.None? then r.(failoverUsed := true)
    else
      r.(failoverUsed := true, last := Some(p.value.(moved := true)), attempts := MarkMoved(r.attempts, p.value.index),
         history := MarkMoved(r.history, p.value.index))
  }

  function DoFirstEvent(r: Recorder, ms: int): Recorder {
    if !r.begun || r.ttftMS.Some? then r else r.(ttftMS := Some(ClampMS(ms)))
  }

  /** An abandoned attempt keeps every fact already observed for it. */
  function AbortRecord(r: Recorder, elapsedMS: int): Attempt {
    var p := CurrentRecord(r);
    if p.None?
    then Attempt(r.currentIndex, r.currentHost, "aborted", 0, "", "", "", None, ClampMS(elapsedMS), None, "", false, "none")
    else p.value.(index := r.currentIndex, host := r.currentHost, outcome := "aborted", elapsedMS := ClampMS(elapsedMS))
  }

  // ---- Finishing ----

  predicate Emits(r: Recorder) {
    !r.finished && r.facts.Recordable() && r.facts.hasSink && r.begun && r.last.Some?
  }

  function EventOf(r: Recorder, totalMS: int): RequestEvent
    requires r.last.Some?
  {
    var final := r.last.value;
    var phase := OrNone(final.phase);
    RequestEvent(r.facts, r.attempts,
                 if r.exhausted && r.recorded > 1 && final.outcome != "ok" then "exhausted" else final.outcome,
                 final.httpStatus, ClampMS(totalMS), r.ttftMS, r.failoverUsed, phase, ConfiguredTimeout(r.facts, phase))
  }

  function RequestIncrement(r: Recorder, totalMS: int): Increment
    requires r.last.Some?
  {
    var final := r.last.value;
    var phase := OrNone(final.phase);
    var first := if r.attempts != [] then r.attempts[0] else final;
    Increment(
      CounterKey("request", r.facts.endpoint, r.facts.streaming, final.host, final.outcome, r.firstErrorClass,
                 StatusClass(final.httpStatus), phase, TimeoutFloorMet(phase, ConfiguredTimeout(r.facts, phase)),
                 r.facts.providerPinned),
      CounterValue(1, r.recorded, if r.failoverUsed then 1 else 0, if first.outcome == "ok" then 1 else 0,
                   map[LatencyBucket(ClampMS(totalMS)) := 1],
                   if r.ttftMS.Some? then map[LatencyBucket(r.ttftMS.value) := 1]
                   else if final.ttfbMS.Some? then map[LatencyBucket(final.ttfbMS.value) := 1]
                   else map[]))
  }

  function EmissionOf(r: Recorder, totalMS: int): Emission
    requires r.last.Some?
  {
    Emission(EventOf(r, totalMS),
             [RequestIncrement(r, totalMS)] + AttemptIncrements(r.facts, r.attempts) + OverflowIncrements(r.overflow))
  }

  function DoFinish(r: Recorder, totalMS: int): Recorder {
    if r.finished then r
    else
      var done := r.(finished := true);
      if !Emits(r) then done else Emitted(FoldOverflow(done), totalMS)
  }

  function Emitted(r: Recorder, totalMS: int): Recorder
    requires r.last.Some?
  {
    r.(sunk := r.sunk + [EmissionOf(r, totalMS)])
  }

  function Do(r: Recorder, op: Op): Recorder {
    match op
    case Begin(host, ms, fault) => DoBegin(r, host, ms, fault)
    case Response(status, retry, after, id, ms) => StoreBegun(r, ResponseRecord(r, status, retry, after, id, ms))
    case TransportError(e, timedOut, headers, body, ms) => StoreBegun(r, TransportRecord(r, e, timedOut, headers, body, ms))
    case Moved => DoMoved(r)
    case FirstEvent(ms) => DoFirstEvent(r, ms)
    case Aborted(ms) => StoreBegun(r, AbortRecord(r, ms))
    case Exhausted(value) => r.(exhausted := value)
    case Finish(ms) => DoFinish(r, ms)
    case Lost => r
  }

  function Play(r: Recorder, ops: seq<Op>): Recorder {
    if ops == [] then r else Do(Play(r, ops[..|ops| - 1]), ops[|ops| - 1])
  }

  // ---- The header of the attempt in flight ----

  datatype Previous = Previous(outcome: string, errorClass: string, host: string, elapsedMS: int, sinceFirstMS: int)

  /** The header's fields; an attempt after the first also reports the one before it and whether the call moved. */
  datatype Header = Header(attempt: nat, previous: Option<Previous>, streaming: bool, failoverUsed: bool)

  predicate Reportable(outcome: string) {
    outcome == "http_error" || outcome == "transport_error" || outcome == "timeout" || outcome == "stream_broken"
  }

  function Describe(p: Attempt, sinceFirstMS: int): Previous {
    if Reportable(p.outcome)
    then Previous(p.outcome, if p.errorClass == "" then "none" else p.errorClass, p.host, p.elapsedMS, ClampMS(sinceFirstMS))
    else Previous("none", "none", p.host, p.elapsedMS, ClampMS(sinceFirstMS))
  }

  function HeaderValue(r: Recorder): Option<Header> {
    if !r.begun || r.currentHost == CUSTOM || r.currentIndex > 99 then None
    else if r.currentIndex == 0 then Some(Header(0, None, r.facts.streaming, false))
    else if r.last.None? || r.last.value.index != r.currentIndex - 1 then None
    else Some(Header(r.currentIndex, Some(Describe(r.last.value, r.sinceFirstMS)), r.facts.streaming, r.failoverUsed))
  }
}
