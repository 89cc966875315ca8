// What the beacon reporter does, as functions on its state: recording, minute
// windows, batch selection, acknowledgement, backoff and policy. Times are
// nanoseconds since the zero time. JSON lengths are functions the caller supplies.
module ReporterState {
  import opened Options
  import opened Counters
  import opened FoldLadder

  const SECOND := 1_000_000_000
  const MINUTE := 60 * SECOND
  const MILLISECOND := 1_000_000
  const RETENTION := 86_400 * SECOND
  const RETENTION_BYTES := 524_288
  const MAX_EVENTS := 1000
  const MAX_BATCH_EVENTS := 100
  const MAX_BATCH_COUNTERS := 200
  const MAX_BATCH_BYTES := 65_536
  const MAX_AGE_MS := 86_400_000
  const FLUSH_INTERVAL := 30 * SECOND
  const BACKOFF_MIN := 60 * SECOND
  const BACKOFF_MAX := 600 * SECOND
  const MAX_RETRY_AFTER := 600 * SECOND
  const MAX_PAUSE_SECONDS := 86_400.0

  /** A sampled event awaiting delivery; ids number the events in order of arrival. */
  datatype Event = Event(id: nat, finalOutcome: string, completedAt: int, bytes: nat)
  {
    predicate Success() {
      finalOutcome == "ok"
    }
  }

  /** A closed minute; the id stands for the window's identity. */
  datatype Window = Window(id: nat, start: int, rows: Table, size: int)

  /** A selected counter row: the window it sits in, as that window is, and its key. */
  datatype Ref = Ref(window: Window, key: CounterKey)

  datatype WireEvent = WireEvent(ageMS: int, event: Event)
  datatype WireCounter = WireCounter(ageMS: int, key: CounterKey, value: CounterValue)
  datatype Wire = Wire(seqNo: nat, dropped: int, events: seq<WireEvent>, counters: seq<WireCounter>)
  datatype Batch = Batch(wire: Wire, events: seq<Event>, refs: seq<Ref>, dropped: int)

  /** Encoded lengths: of a window's rows, and of a whole batch. */
  datatype Sizes = Sizes(window: Table -> nat, batch: Wire -> nat)

  datatype Pace = Pace(backoff: int, backoffUntil: int, pausedUntil: int, sampleRate: real, flushInterval: int)

  /** History, for accounting only; no operation reads it, except for fresh ids. */
  datatype Log = Log(
    windows: nat,              // windows ever closed
    arrivals: seq<Event>,      // events ever buffered
    merged: seq<Increment>,    // increments ever counted
    moved: Table,              // rows ever re-keyed by the fold ladder, with the values they had
    pruned: seq<Window>,       // windows given up by retention
    delivered: Table,          // rows removed by an accepted batch
    rejected: Table,           // rows removed by a batch refused as too large
    discarded: Table,          // rows released when the reporter was disabled
    drift: int,                // bytes subtracted twice, for windows no longer retained, since the buffers were last released
    drops: int,                // drops ever counted
    reported: int,             // drops carried by accepted batches
    forgotten: int)            // drops never reported because the reporter was disabled

  datatype Reporter = Reporter(
    events: seq<Event>, eventsSize: int,
    hasWindow: bool, windowStart: int, current: Table,
    closed: seq<Window>, retained: int, dropped: int,
    sent: nat, pace: Pace, disabled: bool, shut: bool, log: Log)

  const NO_LOG := Log(0, [], [], [], [], [], [], [], 0, 0, 0, 0)

  function Fresh(sampleRate: real): Reporter {
    Reporter([], 0, false, 0, [], [], 0, 0, 0, Pace(BACKOFF_MIN, 0, 0, sampleRate, FLUSH_INTERVAL), false, false, NO_LOG)
  }

  function CountDrops(s: Reporter, n: int): Reporter {
    s.(dropped := s.dropped + n, log := s.log.(drops := s.log.drops + n))
  }

  // ---- Events ----

  function Bytes(events: seq<Event>): int {
    if events == [] then 0 else events[0].bytes + Bytes(events[1..])
  }

  /** The oldest success, or the oldest event when no success is buffered. */
  function Victim(events: seq<Event>): (r: nat)
    requires events != []
    ensures r < |events|
    ensures events[r].Success() || r == 0
    ensures events[r].Success() ==> forall i | 0 <= i < r :: !events[i].Success()
    ensures !events[r].Success() ==> forall i | 0 <= i < |events| :: !events[i].Success()
  {
    var i := FirstSuccess(events);
    if i < |events| then i else 0
  }

  function FirstSuccess(events: seq<Event>): (r: nat)
    ensures r <= |events|
    ensures r < |events| ==> events[r].Success()
    ensures forall i | 0 <= i < r :: !events[i].Success()
  {
    if events == [] then 0 else if events[0].Success() then 0 else 1 + FirstSuccess(events[1..])
  }

  function DropEvent(s: Reporter): Reporter
    requires s.events != []
  {
    var i := Victim(s.events);
    CountDrops(s.(events := s.events[..i] + s.events[i + 1..], eventsSize := s.eventsSize - s.events[i].bytes), 1)
  }

  function Push(s: Reporter, e: Event): Reporter {
    s.(events := s.events + [e], eventsSize := s.eventsSize + e.bytes, log := s.log.(arrivals := s.log.arrivals + [e]))
  }

  function AppendEvent(s: Reporter, e: Event): Reporter {
    Push(if |s.events| >= MAX_EVENTS then DropEvent(s) else s, e)
  }

  // ---- Windows ----

  function MinuteStart(now: int): int {
    now - now % MINUTE
  }

  function DropOldest(s: Reporter): Reporter
    requires s.closed != []
  {
    var w := s.closed[0];
    CountDrops(s.(closed := s.closed[1..], retained := s.retained - w.size,
                  log := s.log.(pruned := s.log.pruned + [w])), |w.rows|)
  }

  function PruneOld(s: Reporter, now: int): Reporter
    decreases |s.closed|
  {
    if s.closed != [] && now - s.closed[0].start > RETENTION then PruneOld(DropOldest(s), now) else s
  }

  function PruneBytes(s: Reporter): Reporter
    decreases |s.closed|
  {
    if s.closed != [] && s.retained > RETENTION_BYTES then PruneBytes(DropOldest(s)) else s
  }

  function Prune(s: Reporter, now: int): Reporter {
    PruneBytes(PruneOld(s, now))
  }

  /** The state between closing the current minute and pruning. */
  function Closing(z: Sizes, s: Reporter, now: int): Reporter {
    s.(closed := s.closed + [NewWindow(z, s)], retained := s.retained + NewWindow(z, s).size, current := [],
       windowStart := MinuteStart(now), log := s.log.(windows := s.log.windows + 1))
  }

  function NewWindow(z: Sizes, s: Reporter): Window {
    Window(s.log.windows, s.windowStart, s.current, z.window(s.current))
  }

  function CloseCurrent(z: Sizes, s: Reporter, now: int): Reporter {
    if s.current == [] || !s.hasWindow then s else Prune(Closing(z, s, now), now)
  }

  function Roll(z: Sizes, s: Reporter, now: int): Reporter {
    var m := MinuteStart(now);
    if !s.hasWindow then s.(windowStart := m, hasWindow := true)
    else if m > s.windowStart then CloseCurrent(z, s, now).(windowStart := m, hasWindow := true)
    else s
  }

  // ---- Recording ----

  function MergeCounters(s: Reporter, incs: seq<Increment>): Reporter {
    var accepted := Accepted(incs);
    CountDrops(s.(current := AbsorbAll(s.current, accepted),
                  log := s.log.(merged := s.log.merged + accepted,
                                moved := s.log.moved + MovedAll(s.current, accepted))),
               |incs| - |accepted|)
  }

  /** What sampling made of the event: nothing to buffer, an event the wire cannot express, or an event. */
  datatype Sample = Unsampled | Unusable | Sampled(finalOutcome: string, bytes: nat)

  function OnRequest(z: Sizes, s: Reporter, now: int, sample: Sample, incs: seq<Increment>): Reporter {
    if s.disabled || s.shut then s
    else AddSample(MergeCounters(Roll(z, s, now), incs), now, sample)
  }

  function AddSample(t: Reporter, now: int, sample: Sample): Reporter {
    match sample
    case Unsampled => t
    case Unusable => CountDrops(t, 1)
    case Sampled(o, b) => AppendEvent(t, Event(|t.log.arrivals|, o, now, b))
  }

  // ---- Selection ----

  function AgeMS(now: int, since: int): int {
    Clamp((now - since) / MILLISECOND, 0, MAX_AGE_MS)
  }

  function RefsOf(w: Window): seq<Ref> {
    seq(|w.rows|, i requires 0 <= i < |w.rows| => Ref(w, w.rows[i].key))
  }

  /** Every row of every window, oldest window first, in insertion order. */
  function AllRefs(closed: seq<Window>): seq<Ref> {
    if closed == [] then [] else RefsOf(closed[0]) + AllRefs(closed[1..])
  }

  function WireValue(v: CounterValue): CounterValue {
    CounterValue(Clamp(v.requests, 1, MAX_COUNT), Bounded(v.attempts), Bounded(v.failoverUsed),
                 Bounded(v.firstAttemptSuccess), v.totalMSHist, v.firstEventMSHist)
  }

  function WireRow(ref: Ref, now: int): WireCounter {
    WireCounter(AgeMS(now, ref.window.start), ref.key, WireValue(ValueAt(ref.window.rows, ref.key)))
  }

  function WireEvents(events: seq<Event>, now: int): (r: seq<WireEvent>)
    ensures |r| == |events|
    ensures forall i | 0 <= i < |events| :: r[i] == WireEvent(AgeMS(now, events[i].completedAt), events[i])
  {
    seq(|events|, i requires 0 <= i < |events| => WireEvent(AgeMS(now, events[i].completedAt), events[i]))
  }

  function WireRows(refs: seq<Ref>, now: int): (r: seq<WireCounter>)
    ensures |r| == |refs|
    ensures forall i | 0 <= i < |refs| :: r[i] == WireRow(refs[i], now)
  {
    seq(|refs|, i requires 0 <= i < |refs| => WireRow(refs[i], now))
  }

  function BatchOf(seqNo: nat, dropped: int, events: seq<Event>, refs: seq<Ref>, now: int): Batch {
    Batch(Wire(seqNo, dropped, WireEvents(events, now), WireRows(refs, now)), events, refs, dropped)
  }

  /** Trim from the tail, events before rows, until the batch fits. */
  function Trim(z: Sizes, seqNo: nat, dropped: int, events: seq<Event>, refs: seq<Ref>, now: int): Option<Batch>
    decreases |events| + |refs|
  {
    var b := BatchOf(seqNo, dropped, events, refs, now);
    if z.batch(b.wire) <= MAX_BATCH_BYTES then Some(b)
    else if events != [] then Trim(z, seqNo, dropped, events[..|events| - 1], refs, now)
    else if refs != [] then Trim(z, seqNo, dropped, events, refs[..|refs| - 1], now)
    else None
  }

  function FirstN<T>(xs: seq<T>, n: nat): seq<T> {
    if |xs| <= n then xs else xs[..n]
  }

  /** The state a selection looks at: the current minute closed and retention enforced. */
  function Settled(z: Sizes, s: Reporter, now: int): Reporter {
    Prune(CloseCurrent(z, Roll(z, s, now), now), now)
  }

  /** The batch the settled buffers offer, if any. */
  function SelectFrom(z: Sizes, t: Reporter, now: int): (Reporter, Option<Batch>) {
    var events, refs := FirstN(t.events, MAX_BATCH_EVENTS), FirstN(AllRefs(t.closed), MAX_BATCH_COUNTERS);
    if events == [] && refs == [] then (t, None)
    else (t.(sent := t.sent + 1), Trim(z, t.sent, t.dropped, events, refs, now))
  }

  function SelectBatch(z: Sizes, s: Reporter, now: int): (Reporter, Option<Batch>) {
    SelectFrom(z, Settled(z, s, now), now)
  }

  predicate MayPost(s: Reporter, now: int) {
    !s.disabled && s.pace.pausedUntil <= now && s.pace.backoffUntil <= now
  }

  function BeginFlush(z: Sizes, s: Reporter, now: int, hasKey: bool): (Reporter, Option<Batch>) {
    if !MayPost(s, now) || !hasKey then (s, None) else SelectBatch(z, s, now)
  }

  // ---- Acknowledgement ----

  function SentKeys(refs: seq<Ref>, id: nat): set<CounterKey> {
    set r | r in refs && r.window.id == id :: r.key
  }

  function Without(t: Table, ks: set<CounterKey>): Table {
    if t == [] then [] else (if t[0].key in ks then [] else [t[0]]) + Without(t[1..], ks)
  }

  function Within(t: Table, ks: set<CounterKey>): Table {
    if t == [] then [] else (if t[0].key in ks then [t[0]] else []) + Within(t[1..], ks)
  }

  /** Window w after the selected rows have left it. */
  function Shrunk(z: Sizes, w: Window, refs: seq<Ref>): Window {
    var rest := Without(w.rows, SentKeys(refs, w.id));
    if |rest| == |w.rows| then w else w.(rows := rest, size := if rest == [] then 0 else z.window(rest))
  }

  function ShrunkAll(z: Sizes, closed: seq<Window>, refs: seq<Ref>): (r: seq<Window>)
    ensures |r| == |closed|
    ensures forall i | 0 <= i < |closed| :: r[i] == Shrunk(z, closed[i], refs)
  {
    seq(|closed|, i requires 0 <= i < |closed| => Shrunk(z, closed[i], refs))
  }

  function Nonempty(windows: seq<Window>): seq<Window> {
    if windows == [] then []
    else (if windows[0].rows == [] then [] else [windows[0]]) + Nonempty(windows[1..])
  }

  /** The windows left once the selected rows are gone and emptied windows dropped. */
  function Remaining(z: Sizes, closed: seq<Window>, refs: seq<Ref>): seq<Window> {
    Nonempty(ShrunkAll(z, closed, refs))
  }

  /** Bytes given back by the retained windows. */
  function Freed(z: Sizes, closed: seq<Window>, refs: seq<Ref>): int {
    if closed == [] then 0 else closed[0].size - Shrunk(z, closed[0], refs).size + Freed(z, closed[1..], refs)
  }

  /** The rows that leave the retained windows. */
  function Removed(closed: seq<Window>, refs: seq<Ref>): Table {
    if closed == [] then [] else Within(closed[0].rows, SentKeys(refs, closed[0].id)) + Removed(closed[1..], refs)
  }

  predicate Live(closed: seq<Window>, id: nat) {
    exists w :: w in closed && w.id == id
  }

  /** The selected windows that are no longer retained, each once. */
  function Orphans(closed: seq<Window>, refs: seq<Ref>): seq<Window> {
    if refs == [] then []
    else
      var before, w := Orphans(closed, refs[..|refs| - 1]), refs[|refs| - 1].window;
      if Live(closed, w.id) || Live(before, w.id) then before else before + [w]
  }

  function KeepEvents(events: seq<Event>, gone: seq<Event>): seq<Event> {
    if events == [] then []
    else (if events[0] in gone then [] else [events[0]]) + KeepEvents(events[1..], gone)
  }

  /** Take a delivered or refused batch out of the buffers. */
  function RemoveSelected(z: Sizes, s: Reporter, b: Batch): Reporter {
    var kept := KeepEvents(s.events, b.events);
    var orphaned := Freed(z, Orphans(s.closed, b.refs), b.refs);
    s.(events := kept, eventsSize := Bytes(kept),
       closed := Remaining(z, s.closed, b.refs),
       retained := s.retained - Freed(z, s.closed, b.refs) - orphaned,
       log := s.log.(drift := s.log.drift + orphaned))
  }

  // ---- Pace ----

  /** A Retry-After in seconds, already parsed; honoured only within its bound. */
  function HonouredRetryAfter(seconds: Option<real>): Option<int> {
    if seconds.None? || seconds.value < 0.0 then None
    else
      var delay := (seconds.value * SECOND as real).Floor;
      if delay > MAX_RETRY_AFTER then None else Some(delay)
  }

  function BackoffDelay(pace: Pace, retryAfter: Option<int>): int {
    Min(if retryAfter.Some? then Max(pace.backoff, retryAfter.value) else pace.backoff, BACKOFF_MAX)
  }

  function SetBackoff(pace: Pace, now: int, retryAfter: Option<int>): Pace {
    pace.(backoffUntil := now + BackoffDelay(pace, retryAfter),
          backoff := Clamp(pace.backoff * 2, BACKOFF_MIN, BACKOFF_MAX))
  }

  /** The policy of an accepted batch, as far as its fields parse as finite numbers. */
  datatype Policy = Policy(sampleRate: Option<real>, flushSeconds: Option<real>, pauseSeconds: Option<real>)

  function Seconds(interval: int): real {
    interval as real / SECOND as real
  }

  function Nanoseconds(seconds: real): int {
    (seconds * SECOND as real).Floor
  }

  function ApplyPolicy(pace: Pace, policy: Policy, now: int): Pace {
    var rate := if policy.sampleRate.Some? && 0.0 <= policy.sampleRate.value < pace.sampleRate
                then policy.sampleRate.value else pace.sampleRate;
    var interval := if policy.flushSeconds.Some? && policy.flushSeconds.value > Seconds(pace.flushInterval)
                    then Nanoseconds(if policy.flushSeconds.value < Seconds(BACKOFF_MAX)
                                     then policy.flushSeconds.value else Seconds(BACKOFF_MAX))
                    else pace.flushInterval;
    var paused := if policy.pauseSeconds.Some? && 0.0 <= policy.pauseSeconds.value <= MAX_PAUSE_SECONDS
                  then Max(pace.pausedUntil, now + Nanoseconds(policy.pauseSeconds.value)) else pace.pausedUntil;
    pace.(sampleRate := rate, flushInterval := interval, pausedUntil := paused)
  }

  // ---- Responses ----

  datatype Reply = Reply(status: int, off: bool, retryAfter: Option<real>, policy: Policy)

  function RowsOfWindows(closed: seq<Window>): Table {
    if closed == [] then [] else closed[0].rows + RowsOfWindows(closed[1..])
  }

  function Disable(s: Reporter): Reporter {
    s.(disabled := true, events := [], eventsSize := 0, current := [], closed := [], retained := 0, dropped := 0,
       log := s.log.(discarded := s.log.discarded + RowsOfWindows(s.closed) + s.current,
                     drift := 0, forgotten := s.log.forgotten + s.dropped))
  }

  predicate Fatal(status: int) {
    status in {400, 401, 403, 404, 410}
  }

  function Delivered(t: Reporter, carried: int, rows: Table): Reporter {
    t.(dropped := Max(t.dropped - carried, 0),
       pace := t.pace.(backoff := BACKOFF_MIN, backoffUntil := 0),
       log := t.log.(delivered := t.log.delivered + rows, reported := t.log.reported + carried))
  }

  /** A 202: the batch is delivered, its drops are reported, and the backoff starts over. */
  function Accept(z: Sizes, s: Reporter, policy: Policy, now: int, b: Batch): Reporter {
    var t := Delivered(RemoveSelected(z, s, b), b.dropped, Removed(s.closed, b.refs));
    t.(pace := ApplyPolicy(t.pace, policy, now))
  }

  /** A 413: the batch will never be taken, so it is dropped. */
  function Refuse(z: Sizes, s: Reporter, b: Batch): Reporter {
    var t := RemoveSelected(z, s, b);
    CountDrops(t.(log := t.log.(rejected := t.log.rejected + Removed(s.closed, b.refs))), |b.events| + |b.refs|)
  }

  function HandleReply(z: Sizes, s: Reporter, reply: Reply, now: int, b: Batch): Reporter {
    if reply.off then Disable(s)
    else if reply.status == 202 then Accept(z, s, reply.policy, now, b)
    else if Fatal(reply.status) then Disable(s)
    else if reply.status == 413 then Refuse(z, s, b)
    else s.(pace := SetBackoff(s.pace, now, HonouredRetryAfter(reply.retryAfter)))
  }
}
