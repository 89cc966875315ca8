// What a reader of the reporter can rely on, stated over whole runs.
module ReporterTheorems {
  import opened Options
  import opened Counters
  import opened FoldLadder
  import opened ReporterState
  import opened ReporterBalance
  import opened ReporterEvents
  import opened ReporterWindows
  import opened ReporterBatches
  import opened ReporterPace
  import opened ReporterRuns

  /** The byte counts of a reachable state, against the history it carries. */
  lemma RunAccounts(z: Sizes, rate: real, steps: seq<Step>)
    ensures var s := Run(z, Start(rate), steps).r;
      && s.eventsSize == Bytes(s.events) && |s.events| <= MAX_EVENTS
      && s.retained + s.log.drift == SizeSum(s.closed)
      && (Shrinks(z) ==> s.log.drift >= 0 && s.retained <= RETENTION_BYTES)
      && (forall success: bool :: SuffixOf(OfKind(s.events, success), OfKind(s.log.arrivals, success)))
      && s.log.drops == s.log.reported + s.log.forgotten + s.dropped && s.dropped >= 0
      && (forall w | w in s.closed :: WellFormed(w.rows) && w.rows != [] && w.size == z.window(w.rows))
  {
    RunGood(z, rate, steps);
    var s := Run(z, Start(rate), steps).r;
    assert Latest(s.events, s.log.arrivals);
    assert forall w | w in s.closed :: WindowOk(z, w);
  }

  // ---- No in-flight prune ----

  /** Every selected window is still retained when its batch is taken out. */
  ghost predicate KeptInFlight(z: Sizes, rate: real, steps: seq<Step>) {
    forall n | 0 <= n < |steps| :: KeptAt(Run(z, Start(rate), steps[..n]), steps[n])
  }

  ghost predicate KeptAt(y: Sys, step: Step) {
    step.Answer? && y.flight.Some? && TakesOut(step.reply) ==>
      forall r | r in y.flight.value.batch.refs :: Live(y.r.closed, r.window.id)
  }

  /** The replies on which a batch leaves the buffers. */
  predicate TakesOut(reply: Reply) {
    !reply.off && (reply.status == 202 || reply.status == 413)
  }

  lemma AppendKeeps(s: Reporter, e: Event)
    ensures AppendEvent(s, e).pace == s.pace && AppendEvent(s, e).log.drift == s.log.drift
  {
  }

  lemma RecordKeeps(z: Sizes, s: Reporter, at: int, sample: Sample, incs: seq<Increment>)
    requires WindowsOk(z, s)
    ensures var t := OnRequest(z, s, at, sample, incs);
      t.pace == s.pace && t.log.drift == s.log.drift
  {
    var a, n := RollAged(z, s, at);
    var u := MergeCounters(Roll(z, s, at), incs);
    assert u.pace == s.pace && u.log.drift == s.log.drift;
    if sample.Sampled? {
      AppendKeeps(u, Event(|u.log.arrivals|, sample.finalOutcome, at, sample.bytes));
    }
  }

  lemma SelectKeeps(z: Sizes, s: Reporter, at: int, hasKey: bool)
    requires WindowsOk(z, s)
    ensures var t := BeginFlush(z, s, at, hasKey).0;
      t.pace == s.pace && t.log.drift == s.log.drift
  {
    var a, n := SettledAged(z, s, at);
    var t := Settled(z, s, at);
    assert BeginFlush(z, s, at, hasKey).0 in {s, t, t.(sent := t.sent + 1)};
  }

  /** Only a reply or a failure changes the pace, and only a reply the drift. */
  lemma NextKeeps(z: Sizes, y: Sys, step: Step)
    requires Good(z, y)
    ensures !step.Answer? ==> Next(z, y, step).r.log.drift == y.r.log.drift
    ensures !step.Answer? && !step.Fail? ==> Next(z, y, step).r.pace == y.r.pace
    ensures y.flight.None? && !step.Flush? ==> Next(z, y, step).flight.None?
    ensures y.flight.None? && (step.Answer? || step.Fail?) ==> Next(z, y, step) == y
  {
    match step
    case Record(at, sample, incs) => RecordKeeps(z, y.r, at, sample, incs);
    case Flush(at, hasKey) => SelectKeeps(z, y.r, at, hasKey);
    case Answer(at, reply) =>
    case Fail(at) =>
    case Shut =>
  }

  lemma AnswerDrift(z: Sizes, s: Reporter, reply: Reply, now: int, b: Batch)
    requires WindowsOk(z, s) && s.log.drift == 0
    ensures HandleReply(z, s, reply, now, b).log.drift
      == if TakesOut(reply) then RemoveSelected(z, s, b).log.drift else 0
    ensures (forall r | r in b.refs :: Live(s.closed, r.window.id)) ==> HandleReply(z, s, reply, now, b).log.drift == 0
  {
    RemoveWindowsOk(z, s, b);
    var t := HandleReply(z, s, reply, now, b);
    assert t == if reply.off then Disable(s) else if reply.status == 202 then Accept(z, s, reply.policy, now, b)
                else if Fatal(reply.status) then Disable(s) else if reply.status == 413 then Refuse(z, s, b) else t;
  }

  lemma KeptSplit(z: Sizes, rate: real, steps: seq<Step>)
    requires steps != [] && KeptInFlight(z, rate, steps)
    ensures KeptInFlight(z, rate, steps[..|steps| - 1])
    ensures KeptAt(Run(z, Start(rate), steps[..|steps| - 1]), steps[|steps| - 1])
  {
    var before := steps[..|steps| - 1];
    forall i | 0 <= i < |before|
      ensures KeptAt(Run(z, Start(rate), before[..i]), before[i])
    {
      assert before[..i] == steps[..i];
    }
  }

  lemma NextDrift(z: Sizes, y: Sys, step: Step)
    requires Good(z, y) && KeptAt(y, step) && y.r.log.drift == 0
    ensures Next(z, y, step).r.log.drift == 0
  {
    if step.Answer? && y.flight.Some? {
      AnswerDrift(z, y.r, step.reply, step.at, y.flight.value.batch);
    } else {
      NextKeeps(z, y, step);
    }
  }

  /** When no window is pruned while selected, the retained bytes are exactly those of the closed windows. */
  lemma {:induction false} RetainedExact(z: Sizes, rate: real, steps: seq<Step>)
    requires KeptInFlight(z, rate, steps)
    ensures var s := Run(z, Start(rate), steps).r;
      s.log.drift == 0 && s.retained == SizeSum(s.closed)
  {
    RunAccounts(z, rate, steps);
    if steps != [] {
      var before := steps[..|steps| - 1];
      KeptSplit(z, rate, steps);
      RetainedExact(z, rate, before);
      RunGood(z, rate, before);
      NextDrift(z, Run(z, Start(rate), before), steps[|steps| - 1]);
    }
  }

  // ---- Acknowledgement ----

  /** Rows of base's pruned windows, then rows of its retained ones. */
  lemma SplitSelected(base: seq<Window>, n: nat, p: nat) returns (g: nat)
    requires n <= |base| && p <= |AllRefs(base)|
    ensures g <= p && p - g <= |AllRefs(base[n..])|
    ensures AllRefs(base)[..p][g..] == AllRefs(base[n..])[..p - g]
    ensures forall r | r in AllRefs(base)[..p][..g] :: r.window in base[..n]
    ensures AllRefs(base)[..p] == AllRefs(base)[..p][..g] + AllRefs(base[n..])[..p - g]
  {
    assert base == base[..n] + base[n..];
    AllRefsConcat(base[..n], base[n..]);
    AllRefsFrom(base[..n]);
    var first := AllRefs(base[..n]);
    g := if p < |first| then p else |first|;
    assert AllRefs(base)[..p][..g] == first[..g];
    assert forall r | r in first[..g] :: r in first;
  }

  lemma AckSome(z: Sizes, base: seq<Window>, later: seq<Window>, n: nat, next: nat, refs: seq<Ref>) returns (g: nat)
    requires n <= |base| && ListOk(z, base + later, next)
    requires |refs| <= |AllRefs(base)| && refs == AllRefs(base)[..|refs|]
    ensures g <= |refs| && Apart(refs[..g], base[n..] + later)
    ensures Removed(base[n..] + later, refs) == RefRows(refs[g..])
    ensures forall r | r in refs[g..] :: Live(base[n..] + later, r.window.id)
  {
    g := SplitSelected(base, n, |refs|);
    ApartFrom(z, base, later, n, next, refs[..g]);
    TailListOk(z, base, later, n, next);
    RemovedSelected(base[n..], later, refs[..g], |refs| - g);
    LiveTail(base[n..], later, refs[g..]);
  }

  lemma TailListOk(z: Sizes, base: seq<Window>, later: seq<Window>, n: nat, next: nat)
    requires n <= |base| && ListOk(z, base + later, next)
    ensures InOrder(base[n..] + later) && forall w | w in base[n..] :: Distinct(w.rows)
  {
    assert base[n..] + later == (base + later)[n..];
    ListOkTail(z, base + later, next, n);
    assert forall w | w in base[n..] :: w in base[n..] + later && WindowOk(z, w);
  }

  lemma AckNone(z: Sizes, base: seq<Window>, later: seq<Window>, n: nat, next: nat, refs: seq<Ref>)
    requires |base| < n <= |base| + |later| && ListOk(z, base + later, next)
    requires |refs| <= |AllRefs(base)| && refs == AllRefs(base)[..|refs|]
    ensures Apart(refs, (base + later)[n..]) && Removed((base + later)[n..], refs) == []
  {
    AllRefsFrom(base);
    assert forall r | r in refs :: r in AllRefs(base) && r.window in base;
    PrunedApart(z, base, later, n, next, refs);
    RemovedNone((base + later)[n..], refs);
  }

  lemma LiveFrom(closed: seq<Window>, refs: seq<Ref>, g: nat)
    requires g <= |refs| && Apart(refs[..g], closed)
    requires forall r | r in refs[g..] :: Live(closed, r.window.id)
    ensures forall i | 0 <= i < |refs| :: Live(closed, refs[i].window.id) <==> g <= i
  {
    forall i | 0 <= i < |refs|
      ensures Live(closed, refs[i].window.id) <==> g <= i
    {
      if i < g {
        assert refs[i] in refs[..g];
      } else {
        assert refs[i] == refs[g..][i - g] && refs[i] in refs[g..];
      }
    }
  }

  /**
   * An acknowledgement takes out, in order, exactly the selected rows whose windows are still retained, with the
   * values that were selected; the others, a leading part of the batch, had already been given up.
   */
  lemma AcknowledgedRows(z: Sizes, y: Sys) returns (g: nat)
    requires Good(z, y) && y.flight.Some?
    ensures var refs := y.flight.value.batch.refs;
      && g <= |refs|
      && Removed(y.r.closed, refs) == RefRows(refs[g..])
      && (forall i | 0 <= i < |refs| :: Live(y.r.closed, refs[i].window.id) <==> g <= i)
  {
    var f := y.flight.value;
    var later, n: nat :| Retains(z, y.r, f.base, later, n);
    var base, refs, closed, next := f.base, f.batch.refs, y.r.closed, y.r.log.windows;
    assert closed == (base + later)[n..];
    if n <= |base| {
      assert closed == base[n..] + later;
      g := AckSome(z, base, later, n, next, refs);
    } else {
      AckNone(z, base, later, n, next, refs);
      g := |refs|;
      assert refs[..g] == refs && refs[g..] == [];
    }
    LiveFrom(closed, refs, g);
  }

  lemma ApartFrom(z: Sizes, base: seq<Window>, later: seq<Window>, n: nat, next: nat, gone: seq<Ref>)
    requires n <= |base| && ListOk(z, base + later, next)
    requires forall r | r in gone :: r.window in base[..n]
    ensures Apart(gone, base[n..] + later)
  {
    forall r, w | r in gone && w in base[n..] + later
      ensures r.window.id != w.id
    {
      var i :| 0 <= i < n && base[..n][i] == r.window;
      var j :| 0 <= j < |base[n..] + later| && (base[n..] + later)[j] == w;
      assert (base + later)[i] == r.window && (base + later)[n + j] == w;
    }
  }

  lemma PrunedApart(z: Sizes, base: seq<Window>, later: seq<Window>, n: nat, next: nat, refs: seq<Ref>)
    requires |base| < n <= |base| + |later| && ListOk(z, base + later, next)
    requires forall r | r in refs :: r.window in base
    ensures Apart(refs, (base + later)[n..])
  {
    forall r, w | r in refs && w in (base + later)[n..]
      ensures r.window.id != w.id
    {
      var i :| 0 <= i < |base| && base[i] == r.window;
      var j :| 0 <= j < |(base + later)[n..]| && (base + later)[n..][j] == w;
      assert (base + later)[i] == r.window && (base + later)[n + j] == w;
    }
  }

  lemma LiveTail(base: seq<Window>, later: seq<Window>, refs: seq<Ref>)
    requires refs <= AllRefs(base)
    ensures forall r | r in refs :: Live(base + later, r.window.id)
  {
    AllRefsFrom(base);
    forall r | r in refs
      ensures Live(base + later, r.window.id)
    {
      assert r in AllRefs(base) && r.window in base + later;
    }
  }

  /** A 202 with no in-flight prune delivers exactly the rows on the wire, value for value, if they fit its bounds. */
  lemma DeliveredIsWire(z: Sizes, y: Sys, policy: Policy, at: int)
    requires Good(z, y) && y.flight.Some?
    requires forall r | r in y.flight.value.batch.refs :: Live(y.r.closed, r.window.id)
    requires forall r | r in y.flight.value.batch.refs ::
      WireValue(ValueAt(r.window.rows, r.key)) == ValueAt(r.window.rows, r.key)
    ensures var b, t := y.flight.value.batch, Accept(z, y.r, policy, at, y.flight.value.batch);
      && t.log.delivered == y.r.log.delivered + RefRows(b.refs)
      && |b.wire.counters| == |b.refs|
      && (forall i | 0 <= i < |b.refs| ::
            RefRows(b.refs)[i] == Row(b.wire.counters[i].key, b.wire.counters[i].value))
      && (forall e :: e in t.events <==> e in y.r.events && e !in b.events)
      && t.dropped == y.r.dropped - b.dropped
  {
    var b, refs := y.flight.value.batch, y.flight.value.batch.refs;
    var g := AcknowledgedRows(z, y);
    assert refs != [] ==> refs[0] in refs;
    assert g == 0 || g == |refs| == 0;
    assert refs[0..] == refs;
    WireRowsExact(b, y.flight.value.at);
    AcceptEffect(z, y.r, policy, at, b);
  }

  lemma WireRowsExact(b: Batch, at: int)
    requires b == BatchOf(b.wire.seqNo, b.dropped, b.events, b.refs, at)
    requires forall r | r in b.refs :: WireValue(ValueAt(r.window.rows, r.key)) == ValueAt(r.window.rows, r.key)
    ensures |b.wire.counters| == |b.refs|
    ensures forall i | 0 <= i < |b.refs| :: RefRows(b.refs)[i] == Row(b.wire.counters[i].key, b.wire.counters[i].value)
  {
    forall i | 0 <= i < |b.refs|
      ensures RefRows(b.refs)[i] == Row(b.wire.counters[i].key, b.wire.counters[i].value)
    {
      assert b.refs[i] in b.refs;
      assert b.wire.counters[i] == WireRow(b.refs[i], at);
    }
  }

  lemma AcceptEffect(z: Sizes, s: Reporter, policy: Policy, at: int, b: Batch)
    requires EventsOk(s) && AtFront(s.events, b.events) && b.dropped <= s.dropped
    ensures var t := Accept(z, s, policy, at, b);
      && t.log.delivered == s.log.delivered + Removed(s.closed, b.refs)
      && (forall e :: e in t.events <==> e in s.events && e !in b.events)
      && t.dropped == s.dropped - b.dropped
  {
    RemoveEventsOk(z, s, b);
  }

  // ---- Backoff ----

  predicate Retryable(reply: Reply) {
    !reply.off && reply.status != 202 && !Fatal(reply.status) && reply.status != 413
  }

  /** Retryable failures since the last accepted batch. */
  function Failures(z: Sizes, rate: real, steps: seq<Step>): nat {
    if steps == [] then 0
    else
      var before, last := steps[..|steps| - 1], steps[|steps| - 1];
      var k := Failures(z, rate, before);
      if Run(z, Start(rate), before).flight.None? then k
      else if last.Fail? then k + 1
      else if last.Answer? && Retryable(last.reply) then k + 1
      else if last.Answer? && !last.reply.off && last.reply.status == 202 then 0
      else k
  }

  /** The backoff base after k failures in a row is the smaller of 60 * 2^k and 600 seconds. */
  lemma {:induction false} RunBackoff(z: Sizes, rate: real, steps: seq<Step>)
    ensures Run(z, Start(rate), steps).r.pace.backoff == BackoffBase(Failures(z, rate, steps))
  {
    if steps == [] {
      BackoffBaseBounds(0);
    } else {
      var before, last := steps[..|steps| - 1], steps[|steps| - 1];
      RunBackoff(z, rate, before);
      RunGood(z, rate, before);
      NextBackoff(z, Run(z, Start(rate), before), last, Failures(z, rate, before));
    }
  }

  lemma NextBackoff(z: Sizes, y: Sys, step: Step, k: nat)
    requires Good(z, y) && y.r.pace.backoff == BackoffBase(k)
    ensures Next(z, y, step).r.pace.backoff == BackoffBase(
      if y.flight.None? then k
      else if step.Fail? then k + 1
      else if step.Answer? && Retryable(step.reply) then k + 1
      else if step.Answer? && !step.reply.off && step.reply.status == 202 then 0
      else k)
  {
    BackoffBaseBounds(0);
    NextKeeps(z, y, step);
    if y.flight.Some? && step.Fail? {
      BackoffStep(y.r.pace, step.at, None, k);
    } else if y.flight.Some? && step.Answer? {
      ReplyBackoff(z, y.r, step.reply, step.at, y.flight.value.batch, k);
    }
  }

  lemma ReplyBackoff(z: Sizes, s: Reporter, reply: Reply, at: int, b: Batch, k: nat)
    requires s.pace.backoff == BackoffBase(k) && PaceOk(s.pace)
    ensures var p := HandleReply(z, s, reply, at, b).pace;
      && p.backoff == BackoffBase(if Retryable(reply) then k + 1 else if !reply.off && reply.status == 202 then 0 else k)
      && (Retryable(reply) ==> p == SetBackoff(s.pace, at, HonouredRetryAfter(reply.retryAfter)))
  {
    BackoffBaseBounds(0);
    var t := HandleReply(z, s, reply, at, b);
    if Retryable(reply) {
      BackoffStep(s.pace, at, HonouredRetryAfter(reply.retryAfter), k);
    } else if !reply.off && reply.status == 202 {
      assert t == Accept(z, s, reply.policy, at, b);
      PolicySlower(s.pace.(backoff := BACKOFF_MIN, backoffUntil := 0), reply.policy, at);
    } else {
      assert t == Disable(s) || t == Refuse(z, s, b);
    }
  }

  /** A failure at time t makes the reporter wait until t plus a delay of one to ten minutes, at least any bounded hint. */
  lemma FailureWaits(z: Sizes, y: Sys, step: Step)
    requires Good(z, y) && y.flight.Some?
    requires step.Fail? || (step.Answer? && Retryable(step.reply))
    ensures var p := Next(z, y, step).r.pace;
      && step.at + BACKOFF_MIN <= p.backoffUntil <= step.at + BACKOFF_MAX
      && (step.Answer? && HonouredRetryAfter(step.reply.retryAfter).Some? ==>
            p.backoffUntil >= step.at + HonouredRetryAfter(step.reply.retryAfter).value)
      && Next(z, y, step).flight.None?
  {
  }

  /** Until the later of the backoff and pause deadlines no interleaving starts a POST. */
  lemma {:induction false} NoPostBefore(z: Sizes, y: Sys, steps: seq<Step>)
    requires Good(z, y) && y.flight.None?
    requires forall i | 0 <= i < |steps| && steps[i].Flush? ::
      steps[i].at < Max(y.r.pace.backoffUntil, y.r.pace.pausedUntil)
    ensures var v := Run(z, y, steps);
      Good(z, v) && v.flight.None? && v.r.pace == y.r.pace
  {
    if steps != [] {
      var before, last := steps[..|steps| - 1], steps[|steps| - 1];
      assert forall i | 0 <= i < |before| :: before[i] == steps[i];
      NoPostBefore(z, y, before);
      var v := Run(z, y, before);
      NextGood(z, v, last);
      NextKeeps(z, v, last);
      if last.Flush? {
        assert !MayPost(v.r, last.at);
      }
    }
  }

  // ---- Policy ----

  lemma NextSlower(z: Sizes, y: Sys, step: Step)
    requires Good(z, y)
    ensures Slower(y.r.pace, Next(z, y, step).r.pace)
  {
    NextKeeps(z, y, step);
    if y.flight.Some? && step.Answer? {
      ReplySlower(z, y.r, step.reply, step.at, y.flight.value.batch);
    }
  }

  lemma ReplySlower(z: Sizes, s: Reporter, reply: Reply, at: int, b: Batch)
    requires PaceOk(s.pace)
    ensures Slower(s.pace, HandleReply(z, s, reply, at, b).pace)
  {
    var t := HandleReply(z, s, reply, at, b);
    if !reply.off && reply.status == 202 {
      assert t == Accept(z, s, reply.policy, at, b);
      PolicySlower(s.pace.(backoff := BACKOFF_MIN, backoffUntil := 0), reply.policy, at);
    } else {
      assert t == Disable(s) || t == Refuse(z, s, b) || t.pace == SetBackoff(s.pace, at, HonouredRetryAfter(reply.retryAfter));
    }
  }

  /** From any reachable state on, the sample rate never rises, the interval never shrinks, the pause never moves back. */
  lemma {:induction false} RunSlower(z: Sizes, y: Sys, steps: seq<Step>)
    requires Good(z, y)
    ensures Good(z, Run(z, y, steps))
    ensures Slower(y.r.pace, Run(z, y, steps).r.pace)
    ensures FLUSH_INTERVAL <= Run(z, y, steps).r.pace.flushInterval <= BACKOFF_MAX
  {
    if steps != [] {
      RunSlower(z, y, steps[..|steps| - 1]);
      NextSlower(z, Run(z, y, steps[..|steps| - 1]), steps[|steps| - 1]);
      NextGood(z, Run(z, y, steps[..|steps| - 1]), steps[|steps| - 1]);
    }
  }

  /** Once disabled, the reporter stays disabled with empty buffers and posts nothing. */
  lemma {:induction false} DisabledAbsorbs(z: Sizes, y: Sys, steps: seq<Step>)
    requires Good(z, y) && y.r.disabled
    ensures var v := Run(z, y, steps);
      Good(z, v) && v.r.disabled && Released(v.r) && v.flight.None?
  {
    if steps != [] {
      DisabledAbsorbs(z, y, steps[..|steps| - 1]);
      NextGood(z, Run(z, y, steps[..|steps| - 1]), steps[|steps| - 1]);
    }
  }

  // ---- A clock that does not go back ----

  /** Windows in order of their minutes, none later than the current minute, and that none later than the clock. */
  ghost predicate InTime(s: Reporter, clock: int) {
    && Sorted(s.closed)
    && (s.closed != [] ==> s.hasWindow)
    && (s.hasWindow ==> s.windowStart <= MinuteStart(clock))
    && (forall w | w in s.closed :: w.start <= s.windowStart)
  }

  function TimeOf(step: Step, clock: int): int {
    if step.Shut? then clock else step.at
  }

  /** The clock after a run. */
  function Clock(steps: seq<Step>, from: int): int {
    if steps == [] then from else TimeOf(steps[|steps| - 1], Clock(steps[..|steps| - 1], from))
  }

  ghost predicate Forward(steps: seq<Step>, from: int) {
    steps == []
    || (Forward(steps[..|steps| - 1], from) && Clock(steps, from) >= Clock(steps[..|steps| - 1], from))
  }

  lemma MinuteMonotone(a: int, b: int)
    requires a <= b
    ensures MinuteStart(a) <= MinuteStart(b)
  {
    var qa, qb := a / MINUTE, b / MINUTE;
    assert MinuteStart(a) == qa * MINUTE && MinuteStart(b) == qb * MINUTE;
    assert qa <= qb;
  }

  lemma SuffixInTime(s: Reporter, t: Reporter, n: nat, clock: int)
    requires InTime(s, clock) && n <= |s.closed| && t.closed == s.closed[n..]
    requires t.hasWindow == s.hasWindow && t.windowStart == s.windowStart
    ensures InTime(t, clock)
  {
    assert forall w | w in t.closed :: w in s.closed;
  }

  lemma CloseInTime(z: Sizes, s: Reporter, now: int)
    requires WindowsOk(z, s) && InTime(s, now)
    ensures InTime(CloseCurrent(z, s, now), now)
  {
    if s.current != [] && s.hasWindow {
      var t := Closing(z, s, now);
      ClosingAged(z, s, now);
      assert InTime(t, now) by {
        assert forall w | w in t.closed :: w in s.closed || w == NewWindow(z, s);
        assert forall i | 0 <= i < |s.closed| :: s.closed[i] in s.closed;
      }
      PruneGives(t, now);
      SuffixInTime(t, Prune(t, now), PruneCount(t.closed, t.retained, now), now);
      assert CloseCurrent(z, s, now) == Prune(t, now);
    }
  }

  lemma RollInTime(z: Sizes, s: Reporter, now: int)
    requires WindowsOk(z, s) && InTime(s, now)
    ensures InTime(Roll(z, s, now), now)
  {
    if s.hasWindow && MinuteStart(now) > s.windowStart {
      CloseInTime(z, s, now);
    }
  }

  lemma SettledInTime(z: Sizes, s: Reporter, now: int)
    requires WindowsOk(z, s) && InTime(s, now)
    ensures InTime(Settled(z, s, now), now)
  {
    RollInTime(z, s, now);
    var a, i := RollAged(z, s, now);
    var t := Roll(z, s, now);
    CloseInTime(z, t, now);
    var b, j := CloseAged(z, t, now);
    var u := CloseCurrent(z, t, now);
    PruneGives(u, now);
    SuffixInTime(u, Prune(u, now), PruneCount(u.closed, u.retained, now), now);
  }

  lemma RemoveInTime(z: Sizes, s: Reporter, b: Batch, clock: int)
    requires WindowsOk(z, s) && InTime(s, clock)
    ensures InTime(RemoveSelected(z, s, b), clock)
  {
    RemoveWindowsOk(z, s, b);
  }

  lemma InTimeAlike(s: Reporter, t: Reporter, clock: int)
    requires InTime(s, clock)
    requires t.closed == s.closed || t.closed == []
    requires t.hasWindow == s.hasWindow && t.windowStart == s.windowStart
    ensures InTime(t, clock)
  {
  }

  lemma ReplyInTime(z: Sizes, s: Reporter, reply: Reply, now: int, b: Batch, clock: int)
    requires WindowsOk(z, s) && InTime(s, clock)
    ensures InTime(HandleReply(z, s, reply, now, b), clock)
  {
    var t := HandleReply(z, s, reply, now, b);
    if !reply.off && (reply.status == 202 || reply.status == 413) {
      RemoveInTime(z, s, b, clock);
      assert t == Accept(z, s, reply.policy, now, b) || t == Refuse(z, s, b);
      InTimeAlike(RemoveSelected(z, s, b), t, clock);
    } else {
      InTimeAlike(s, t, clock);
    }
  }

  lemma RecordInTime(z: Sizes, s: Reporter, at: int, sample: Sample, incs: seq<Increment>)
    requires WindowsOk(z, s) && InTime(s, at)
    ensures InTime(OnRequest(z, s, at, sample, incs), at)
  {
    RollInTime(z, s, at);
    var t := Roll(z, s, at);
    var u := MergeCounters(t, incs);
    InTimeAlike(t, u, at);
    if sample.Sampled? {
      InTimeAlike(u, AppendEvent(u, Event(|u.log.arrivals|, sample.finalOutcome, at, sample.bytes)), at);
    }
  }

  lemma SelectInTime(z: Sizes, s: Reporter, at: int, hasKey: bool)
    requires WindowsOk(z, s) && InTime(s, at)
    ensures InTime(BeginFlush(z, s, at, hasKey).0, at)
  {
    SettledInTime(z, s, at);
    var t := Settled(z, s, at);
    assert BeginFlush(z, s, at, hasKey).0 in {s, t, t.(sent := t.sent + 1)};
  }

  lemma NextInTime(z: Sizes, y: Sys, step: Step, clock: int)
    requires Good(z, y) && InTime(y.r, clock) && TimeOf(step, clock) >= clock
    ensures InTime(Next(z, y, step).r, TimeOf(step, clock))
  {
    MinuteMonotone(clock, TimeOf(step, clock));
    match step
    case Record(at, sample, incs) => RecordInTime(z, y.r, at, sample, incs);
    case Flush(at, hasKey) => SelectInTime(z, y.r, at, hasKey);
    case Answer(at, reply) =>
      if y.flight.Some? {
        ReplyInTime(z, y.r, reply, at, y.flight.value.batch, at);
      }
    case Fail(at) =>
    case Shut =>
  }

  lemma {:induction false} RunInTime(z: Sizes, rate: real, steps: seq<Step>, clock: int)
    requires Forward(steps, clock)
    ensures InTime(Run(z, Start(rate), steps).r, Clock(steps, clock))
  {
    if steps != [] {
      var before := steps[..|steps| - 1];
      RunInTime(z, rate, before, clock);
      RunGood(z, rate, before);
      NextInTime(z, Run(z, Start(rate), before), steps[|steps| - 1], Clock(before, clock));
    }
  }
}
