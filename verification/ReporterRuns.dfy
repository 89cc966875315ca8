// Whole runs of the reporter: any interleaving of finished calls with the steps of
// a flush, whose POST is in flight while calls go on being recorded.
module ReporterRuns {
  import opened Options
  import opened Counters
  import opened FoldLadder
  import opened ReporterState
  import opened ReporterBalance
  import opened ReporterEvents
  import opened ReporterWindows
  import opened ReporterBatches
  import opened ReporterPace

  datatype Step =
    | Record(at: int, sample: Sample, incs: seq<Increment>)  // a finished call reaches the reporter
    | Flush(at: int, hasKey: bool)                           // a flush selects a batch, unless one is in flight
    | Answer(at: int, reply: Reply)                          // the POST in flight is answered
    | Fail(at: int)                                          // the POST in flight fails in transport
    | Shut                                                   // the client is closed

  /** A batch being posted, with the windows that were retained when it was selected. */
  datatype Flight = Flight(batch: Batch, base: seq<Window>, at: int)

  datatype Sys = Sys(r: Reporter, flight: Option<Flight>)

  function Next(z: Sizes, y: Sys, step: Step): Sys {
    match step
    case Record(at, sample, incs) => y.(r := OnRequest(z, y.r, at, sample, incs))
    case Flush(at, hasKey) =>
      if y.flight.Some? then y
      else
        var (t, b) := BeginFlush(z, y.r, at, hasKey);
        Sys(t, if b.Some? then Some(Flight(b.value, t.closed, at)) else None)
    case Answer(at, reply) =>
      if y.flight.None? then y else Sys(HandleReply(z, y.r, reply, at, y.flight.value.batch), None)
    case Fail(at) =>
      if y.flight.None? then y else Sys(y.r.(pace := SetBackoff(y.r.pace, at, None)), None)
    case Shut => y.(r := y.r.(shut := true))
  }

  function Run(z: Sizes, y: Sys, steps: seq<Step>): Sys {
    if steps == [] then y else Next(z, Run(z, y, steps[..|steps| - 1]), steps[|steps| - 1])
  }

  function Start(sampleRate: real): Sys {
    Sys(Fresh(sampleRate), None)
  }

  // ---- Conservation ----

  lemma NextBalanced(z: Sizes, y: Sys, step: Step, m: Measure)
    requires WellFormed(y.r.current) && Balanced(y.r, m)
    ensures WellFormed(Next(z, y, step).r.current) && Balanced(Next(z, y, step).r, m)
  {
    match step
    case Record(at, sample, incs) => OnRequestBalanced(z, y.r, at, sample, incs, m);
    case Flush(at, hasKey) => FlushBalanced(z, y.r, at, hasKey, m);
    case Answer(at, reply) =>
      if y.flight.Some? {
        ReplyBalanced(z, y.r, reply, at, y.flight.value.batch, m);
      }
    case Fail(at) => PaceBalanced(y.r, Next(z, y, step).r.pace, m);
    case Shut =>
  }

  lemma {:induction false} RunKeepsBalance(z: Sizes, rate: real, steps: seq<Step>, m: Measure)
    ensures WellFormed(Run(z, Start(rate), steps).r.current) && Balanced(Run(z, Start(rate), steps).r, m)
  {
    if steps != [] {
      RunKeepsBalance(z, rate, steps[..|steps| - 1], m);
      NextBalanced(z, Run(z, Start(rate), steps[..|steps| - 1]), steps[|steps| - 1], m);
    }
  }

  // ---- What holds in every reachable state ----

  ghost predicate DropsOk(s: Reporter) {
    s.dropped >= 0 && s.log.drops == s.log.reported + s.log.forgotten + s.dropped
  }

  /** Of the windows in base and those closed later, the oldest n were given up and the rest are retained. */
  ghost predicate Retains(z: Sizes, s: Reporter, base: seq<Window>, later: seq<Window>, n: nat) {
    && n <= |base| + |later|
    && s.closed == (base + later)[n..]
    && ListOk(z, base + later, s.log.windows)
  }

  ghost predicate FlightOk(z: Sizes, s: Reporter, f: Flight) {
    var b := f.batch;
    && !s.disabled
    && AtFront(s.events, b.events)
    && (forall e | e in b.events :: e.id < |s.log.arrivals|)
    && b == BatchOf(b.wire.seqNo, b.dropped, b.events, b.refs, f.at)
    && b.refs <= AllRefs(f.base)
    && b.dropped <= s.dropped
    && |b.events| <= MAX_BATCH_EVENTS && |b.refs| <= MAX_BATCH_COUNTERS && FitsWire(z, b)
    && (exists later, n :: Retains(z, s, f.base, later, n))
  }

  ghost predicate Released(s: Reporter) {
    s.events == [] && s.eventsSize == 0 && s.current == [] && s.closed == [] && s.retained == 0 && s.dropped == 0
  }

  ghost predicate StateOk(z: Sizes, s: Reporter) {
    && EventsOk(s) && WindowsOk(z, s) && DropsOk(s) && PaceOk(s.pace)
    && (Shrinks(z) ==> Capped(s))
    && (s.disabled ==> Released(s))
  }

  ghost predicate Good(z: Sizes, y: Sys) {
    StateOk(z, y.r) && (y.flight.Some? ==> FlightOk(z, y.r, y.flight.value))
  }

  lemma RetainsAged(z: Sizes, s: Reporter, t: Reporter, base: seq<Window>, later: seq<Window>, n: nat,
                    added: seq<Window>, k: nat)
    requires Retains(z, s, base, later, n) && Aged(z, s, t, added, k)
    ensures Retains(z, t, base, later + added, n + k)
  {
    var xs := base + later;
    assert base + (later + added) == xs + added;
    assert (xs + added)[n..] == s.closed + added;
    assert (xs + added)[n + k..] == (s.closed + added)[k..];
    ListJoin(z, xs, n, added, s.log.windows, t.log.windows);
  }

  lemma FlightAged(z: Sizes, s: Reporter, t: Reporter, f: Flight, added: seq<Window>, k: nat)
    requires FlightOk(z, s, f) && Aged(z, s, t, added, k)
    ensures FlightOk(z, t, f)
  {
    var later, n :| Retains(z, s, f.base, later, n);
    RetainsAged(z, s, t, f.base, later, n, added, k);
  }

  /** A step that touches neither windows nor buffered events keeps what a flight relies on. */
  lemma FlightKept(z: Sizes, s: Reporter, t: Reporter, f: Flight)
    requires FlightOk(z, s, f)
    requires t.closed == s.closed && t.log.windows == s.log.windows && t.disabled == s.disabled
    requires |t.log.arrivals| >= |s.log.arrivals| && t.dropped >= s.dropped
    requires AtFront(t.events, f.batch.events)
    ensures FlightOk(z, t, f)
  {
    var later, n :| Retains(z, s, f.base, later, n);
    assert Retains(z, t, f.base, later, n);
  }

  // ---- Recording ----

  lemma MergeOk(z: Sizes, s: Reporter, incs: seq<Increment>)
    requires StateOk(z, s) && !s.disabled
    ensures StateOk(z, MergeCounters(s, incs)) && MergeCounters(s, incs).dropped >= s.dropped
  {
    AbsorbAllWellFormed(s.current, Accepted(incs));
  }

  lemma AppendOk(z: Sizes, s: Reporter, e: Event, sent: seq<Event>)
    requires StateOk(z, s) && !s.disabled && e.id == |s.log.arrivals|
    requires forall x | x in sent :: x.id < |s.log.arrivals|
    ensures StateOk(z, AppendEvent(s, e))
    ensures AtFront(s.events, sent) ==> AtFront(AppendEvent(s, e).events, sent)
    ensures var t := AppendEvent(s, e);
      && t.closed == s.closed && t.log.windows == s.log.windows && t.disabled == s.disabled
      && t.log.arrivals == s.log.arrivals + [e] && t.dropped >= s.dropped
  {
    AppendEventOk(s, e, sent);
  }

  lemma RecordGood(z: Sizes, y: Sys, at: int, sample: Sample, incs: seq<Increment>)
    requires Good(z, y)
    ensures Good(z, Next(z, y, Record(at, sample, incs)))
  {
    var s := y.r;
    if !s.disabled && !s.shut {
      var added, n := RollAged(z, s, at);
      var t := Roll(z, s, at);
      MergeOk(z, t, incs);
      var u := MergeCounters(t, incs);
      if y.flight.Some? {
        FlightAged(z, s, t, y.flight.value, added, n);
        FlightKept(z, t, u, y.flight.value);
      }
      RecordSample(z, u, y.flight, at, sample);
    }
  }

  lemma RecordSample(z: Sizes, s: Reporter, flight: Option<Flight>, at: int, sample: Sample)
    requires Good(z, Sys(s, flight)) && !s.disabled
    ensures match sample
      case Unsampled => true
      case Unusable => Good(z, Sys(CountDrops(s, 1), flight))
      case Sampled(o, b) => Good(z, Sys(AppendEvent(s, Event(|s.log.arrivals|, o, at, b)), flight))
  {
    match sample
    case Unsampled =>
    case Unusable =>
      if flight.Some? {
        FlightKept(z, s, CountDrops(s, 1), flight.value);
      }
    case Sampled(o, b) =>
      var e := Event(|s.log.arrivals|, o, at, b);
      AppendOk(z, s, e, if flight.Some? then flight.value.batch.events else []);
      if flight.Some? {
        FlightKept(z, s, AppendEvent(s, e), flight.value);
      }
  }

  // ---- Selecting ----

  lemma FlushGood(z: Sizes, y: Sys, at: int, hasKey: bool)
    requires Good(z, y)
    ensures Good(z, Next(z, y, Flush(at, hasKey)))
    ensures y.flight.None? && Next(z, y, Flush(at, hasKey)).flight.Some? ==> MayPost(y.r, at)
  {
    if y.flight.None? && MayPost(y.r, at) && hasKey {
      var added, n := SettledAged(z, y.r, at);
      SelectGood(z, y.r, at);
    }
  }

  lemma SelectGood(z: Sizes, s: Reporter, at: int)
    requires StateOk(z, s) && !s.disabled
    requires SameElse(s, Settled(z, s, at)) && WindowsOk(z, Settled(z, s, at))
    requires Capped(s) ==> Capped(Settled(z, s, at))
    ensures var (t, b) := SelectBatch(z, s, at);
      StateOk(z, t) && (b.Some? ==> FlightOk(z, t, Flight(b.value, t.closed, at)))
  {
    SelectFromGood(z, Settled(z, s, at), at);
  }

  lemma SelectFromGood(z: Sizes, t: Reporter, at: int)
    requires StateOk(z, t)
    ensures var (u, b) := SelectFrom(z, t, at);
      StateOk(z, u) && (b.Some? ==> FlightOk(z, u, Flight(b.value, u.closed, at)))
  {
    var (u, b) := SelectFrom(z, t, at);
    if b.Some? {
      var events, refs := FirstN(t.events, MAX_BATCH_EVENTS), FirstN(AllRefs(t.closed), MAX_BATCH_COUNTERS);
      var k := TrimFirstFit(z, t.sent, t.dropped, events, refs, at);
      PrefixAtFront(t.events, |b.value.events|);
      assert b.value.events == t.events[..|b.value.events|];
      assert t.closed + [] == t.closed;
      assert Retains(z, u, t.closed, [], 0);
      assert forall e | e in b.value.events :: e in t.events;
    }
  }

  // ---- Acknowledging ----

  /** A flight's refs are to windows that were well formed when selected. */
  lemma FlightRefsOk(z: Sizes, s: Reporter, f: Flight)
    requires FlightOk(z, s, f)
    ensures forall r | r in f.batch.refs :: WindowOk(z, r.window) && r.window.id < s.log.windows
  {
    var later, n :| Retains(z, s, f.base, later, n);
    AllRefsFrom(f.base);
    forall r | r in f.batch.refs
      ensures r.window in f.base + later
    {
      assert r in AllRefs(f.base);
    }
  }

  lemma RemoveOk(z: Sizes, s: Reporter, f: Flight)
    requires StateOk(z, s) && FlightOk(z, s, f)
    ensures StateOk(z, RemoveSelected(z, s, f.batch))
  {
    FlightRefsOk(z, s, f);
    RemoveEventsOk(z, s, f.batch);
    RemoveWindowsOk(z, s, f.batch);
  }

  lemma AcceptOk(z: Sizes, s: Reporter, policy: Policy, now: int, f: Flight)
    requires StateOk(z, s) && FlightOk(z, s, f)
    ensures StateOk(z, Accept(z, s, policy, now, f.batch))
  {
    RemoveOk(z, s, f);
    var t := RemoveSelected(z, s, f.batch);
    PolicySlower(t.pace.(backoff := BACKOFF_MIN, backoffUntil := 0), policy, now);
  }

  lemma RefuseOk(z: Sizes, s: Reporter, f: Flight)
    requires StateOk(z, s) && FlightOk(z, s, f)
    ensures StateOk(z, Refuse(z, s, f.batch))
  {
    RemoveOk(z, s, f);
  }

  lemma ReplyGood(z: Sizes, s: Reporter, reply: Reply, now: int, f: Flight)
    requires StateOk(z, s) && FlightOk(z, s, f)
    ensures StateOk(z, HandleReply(z, s, reply, now, f.batch))
  {
    var t := HandleReply(z, s, reply, now, f.batch);
    if reply.off || (reply.status != 202 && Fatal(reply.status)) {
      assert t == Disable(s);
      DisableOk(z, s);
    } else if reply.status == 202 {
      AcceptOk(z, s, reply.policy, now, f);
    } else if reply.status == 413 {
      RefuseOk(z, s, f);
    } else {
      BackoffOk(z, s, now, HonouredRetryAfter(reply.retryAfter));
      assert t == s.(pace := SetBackoff(s.pace, now, HonouredRetryAfter(reply.retryAfter)));
    }
  }

  lemma BackoffOk(z: Sizes, s: Reporter, now: int, retryAfter: Option<int>)
    requires StateOk(z, s)
    ensures StateOk(z, s.(pace := SetBackoff(s.pace, now, retryAfter)))
  {
  }

  lemma DisableOk(z: Sizes, s: Reporter)
    requires StateOk(z, s)
    ensures StateOk(z, Disable(s))
  {
    forall success: bool
      ensures SuffixOf(OfKind([], success), OfKind(s.log.arrivals, success))
    {
    }
  }

  // ---- Every step, every run ----

  lemma NextGood(z: Sizes, y: Sys, step: Step)
    requires Good(z, y)
    ensures Good(z, Next(z, y, step))
  {
    match step
    case Record(at, sample, incs) => RecordGood(z, y, at, sample, incs);
    case Flush(at, hasKey) => FlushGood(z, y, at, hasKey);
    case Answer(at, reply) =>
      if y.flight.Some? {
        ReplyGood(z, y.r, reply, at, y.flight.value);
      }
    case Fail(at) =>
    case Shut =>
      if y.flight.Some? {
        FlightKept(z, y.r, y.r.(shut := true), y.flight.value);
      }
  }

  lemma StartGood(z: Sizes, rate: real)
    ensures Good(z, Start(rate))
  {
  }

  /** Every reachable state satisfies the bookkeeping invariant, over any interleaving of steps. */
  lemma {:induction false} RunGood(z: Sizes, rate: real, steps: seq<Step>)
    ensures Good(z, Run(z, Start(rate), steps))
  {
    if steps == [] {
      StartGood(z, rate);
    } else {
      RunGood(z, rate, steps[..|steps| - 1]);
      NextGood(z, Run(z, Start(rate), steps[..|steps| - 1]), steps[|steps| - 1]);
    }
  }
}
