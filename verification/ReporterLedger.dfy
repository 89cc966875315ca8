// The history the reporter carries for accounting is the history of the run: what
// was merged, buffered, dropped, delivered and given up, read off the steps.
module ReporterLedger {
  import opened Options
  import opened Counters
  import opened FoldLadder
  import opened ReporterState
  import opened ReporterBalance
  import opened ReporterEvents
  import opened ReporterWindows
  import opened ReporterRuns
  import opened ReporterTheorems
  import opened ReporterMinutes
  import opened ReporterPruning

  // ---- Who is listening ----

  /** The client was closed during the run. */
  ghost predicate EverShut(steps: seq<Step>) {
    exists i :: 0 <= i < |steps| && steps[i].Shut?
  }

  /** The answer to a POST turns the reporter off. */
  predicate TurnsOff(y: Sys, step: Step) {
    step.Answer? && y.flight.Some? && (step.reply.off || Fatal(step.reply.status))
  }

  ghost predicate EverOff(z: Sizes, rate: real, steps: seq<Step>) {
    exists i :: 0 <= i < |steps| && TurnsOff(Run(z, Start(rate), steps[..i]), steps[i])
  }

  /** A call recorded after these steps counts. */
  ghost predicate Listening(z: Sizes, rate: real, steps: seq<Step>) {
    !EverShut(steps) && !EverOff(z, rate, steps)
  }

  // ---- What the steps of a run amount to ----

  /** A recorded call that counts. */
  ghost predicate Counts(z: Sizes, rate: real, before: seq<Step>, step: Step) {
    step.Record? && Listening(z, rate, before)
  }

  /** A POST is answered with this status, and the reporter is not turned off. */
  predicate Answered(y: Sys, step: Step, status: int) {
    step.Answer? && y.flight.Some? && !step.reply.off && step.reply.status == status
  }

  /** The increments counted, under the keys they are counted by. */
  ghost function MergedIn(z: Sizes, rate: real, steps: seq<Step>): seq<Increment> {
    if steps == [] then []
    else
      var before, last := steps[..|steps| - 1], steps[|steps| - 1];
      MergedIn(z, rate, before) + if Counts(z, rate, before, last) then Accepted(last.incs) else []
  }

  /** The sampled events, numbered in order of arrival. */
  ghost function ArrivedIn(z: Sizes, rate: real, steps: seq<Step>): seq<Event> {
    if steps == [] then []
    else
      var before, last := steps[..|steps| - 1], steps[|steps| - 1];
      var earlier := ArrivedIn(z, rate, before);
      if Counts(z, rate, before, last) && last.sample.Sampled?
      then earlier + [Event(|earlier|, last.sample.finalOutcome, last.at, last.sample.bytes)]
      else earlier
  }

  /** What one recorded call drops: increments outside the enums, an unusable sample, an event evicted for its own. */
  function DroppedByCall(s: Reporter, sample: Sample, incs: seq<Increment>): nat {
    |incs| - |Accepted(incs)|
    + (if sample.Unusable? then 1 else 0)
    + (if sample.Sampled? && |s.events| >= MAX_EVENTS then 1 else 0)
  }

  /** Drops other than pruned rows: those of recorded calls, and every item of a batch refused as too large. */
  ghost function DroppedIn(z: Sizes, rate: real, steps: seq<Step>): nat {
    if steps == [] then 0
    else
      var before, last := steps[..|steps| - 1], steps[|steps| - 1];
      var y := Run(z, Start(rate), before);
      DroppedIn(z, rate, before)
      + (if Counts(z, rate, before, last) then DroppedByCall(y.r, last.sample, last.incs) else 0)
      + (if Answered(y, last, 413) then |y.flight.value.batch.events| + |y.flight.value.batch.refs| else 0)
  }

  /** The rows taken out by answers of one status: 202 delivers them, 413 refuses them. */
  ghost function TakenIn(z: Sizes, rate: real, steps: seq<Step>, status: int): Table {
    if steps == [] then []
    else
      var before, last := steps[..|steps| - 1], steps[|steps| - 1];
      var y := Run(z, Start(rate), before);
      TakenIn(z, rate, before, status)
      + if Answered(y, last, status) then Removed(y.r.closed, y.flight.value.batch.refs) else []
  }

  /** The rows released by turning off. */
  ghost function ReleasedIn(z: Sizes, rate: real, steps: seq<Step>): Table {
    if steps == [] then []
    else
      var before, last := steps[..|steps| - 1], steps[|steps| - 1];
      var y := Run(z, Start(rate), before);
      ReleasedIn(z, rate, before) + if TurnsOff(y, last) then RowsOfWindows(y.r.closed) + y.r.current else []
  }

  /** The rows the fold ladder re-keyed, with the values they had. */
  ghost function MovedIn(z: Sizes, rate: real, steps: seq<Step>): Table {
    if steps == [] then []
    else
      var before, last := steps[..|steps| - 1], steps[|steps| - 1];
      var y := Run(z, Start(rate), before);
      MovedIn(z, rate, before)
      + if Counts(z, rate, before, last) then MovedAll(Roll(z, y.r, last.at).current, Accepted(last.incs)) else []
  }

  /** The windows retention gave up, in order. */
  ghost function PrunedIn(z: Sizes, rate: real, steps: seq<Step>): seq<Window> {
    if steps == [] then []
    else
      var before, last := steps[..|steps| - 1], steps[|steps| - 1];
      var y := Run(z, Start(rate), before);
      PrunedIn(z, rate, before) + PrunedBy(z, y, last)
  }

  /** What a step leaves off the front of the windows there were and the one it closed. */
  ghost function PrunedBy(z: Sizes, y: Sys, step: Step): seq<Window> {
    var all, kept := y.r.closed + AddedBy(z, y, step), Next(z, y, step).r.closed;
    if step.Answer? || |kept| > |all| then [] else all[..|all| - |kept|]
  }

  /** Drops told to the far side by batches it accepted. */
  ghost function ReportedIn(z: Sizes, rate: real, steps: seq<Step>): int {
    if steps == [] then 0
    else
      var before, last := steps[..|steps| - 1], steps[|steps| - 1];
      var y := Run(z, Start(rate), before);
      ReportedIn(z, rate, before) + if Answered(y, last, 202) then y.flight.value.batch.dropped else 0
  }

  /** Drops still pending when the reporter was turned off. */
  ghost function ForgottenIn(z: Sizes, rate: real, steps: seq<Step>): int {
    if steps == [] then 0
    else
      var before, last := steps[..|steps| - 1], steps[|steps| - 1];
      var y := Run(z, Start(rate), before);
      ForgottenIn(z, rate, before) + if TurnsOff(y, last) then y.r.dropped else 0
  }

  // ---- Flags ----

  lemma CallFlags(z: Sizes, s: Reporter, at: int, sample: Sample, incs: seq<Increment>)
    ensures var t := OnRequest(z, s, at, sample, incs);
      t.shut == s.shut && t.disabled == s.disabled
  {
    RollTurned(z, s, at);
  }

  lemma FlushFlags(z: Sizes, s: Reporter, at: int, hasKey: bool)
    ensures var t := BeginFlush(z, s, at, hasKey).0;
      t.shut == s.shut && t.disabled == s.disabled
  {
    SettleTurned(z, s, at);
  }

  lemma ReplyFlags(z: Sizes, s: Reporter, reply: Reply, at: int, b: Batch)
    ensures var t := HandleReply(z, s, reply, at, b);
      t.shut == s.shut && t.disabled == (s.disabled || reply.off || Fatal(reply.status))
  {
  }

  lemma NextFlags(z: Sizes, y: Sys, step: Step)
    ensures Next(z, y, step).r.shut == (y.r.shut || step.Shut?)
    ensures Next(z, y, step).r.disabled == (y.r.disabled || TurnsOff(y, step))
  {
    match step
    case Record(at, sample, incs) => CallFlags(z, y.r, at, sample, incs);
    case Flush(at, hasKey) => FlushFlags(z, y.r, at, hasKey);
    case Answer(at, reply) =>
      if y.flight.Some? {
        ReplyFlags(z, y.r, reply, at, y.flight.value.batch);
      }
    case Fail(at) =>
    case Shut =>
  }

  lemma EverSnoc(z: Sizes, rate: real, before: seq<Step>, last: Step)
    ensures EverShut(before + [last]) == (EverShut(before) || last.Shut?)
    ensures EverOff(z, rate, before + [last]) == (EverOff(z, rate, before) || TurnsOff(Run(z, Start(rate), before), last))
  {
    var steps := before + [last];
    assert steps[|before|] == last && steps[..|before|] == before;
    forall i | 0 <= i < |before|
      ensures steps[i] == before[i] && steps[..i] == before[..i]
    {
    }
    if EverShut(before) {
      var i :| 0 <= i < |before| && before[i].Shut?;
      assert steps[i].Shut?;
    }
    if EverOff(z, rate, before) {
      var i :| 0 <= i < |before| && TurnsOff(Run(z, Start(rate), before[..i]), before[i]);
      assert TurnsOff(Run(z, Start(rate), steps[..i]), steps[i]);
    }
  }

  /** The reporter listens exactly until the client is closed or an answer turns the reporter off. */
  lemma {:induction false} ListensUntil(z: Sizes, rate: real, steps: seq<Step>)
    ensures Run(z, Start(rate), steps).r.shut == EverShut(steps)
    ensures Run(z, Start(rate), steps).r.disabled == EverOff(z, rate, steps)
    ensures Hears(Run(z, Start(rate), steps).r) == Listening(z, rate, steps)
  {
    if steps != [] {
      var before, last := steps[..|steps| - 1], steps[|steps| - 1];
      ListensUntil(z, rate, before);
      NextFlags(z, Run(z, Start(rate), before), last);
      assert steps == before + [last];
      EverSnoc(z, rate, before, last);
    }
  }

  // ---- One step of each kind ----

  /** What a step writes into the history besides pruned windows. */
  ghost predicate Writes(s: Log, t: Log, merged: seq<Increment>, arrived: seq<Event>, moved: Table,
                         delivered: Table, rejected: Table, discarded: Table, reported: int, forgotten: int) {
    && t.merged == s.merged + merged && t.arrivals == s.arrivals + arrived && t.moved == s.moved + moved
    && t.delivered == s.delivered + delivered && t.rejected == s.rejected + rejected
    && t.discarded == s.discarded + discarded
    && t.reported == s.reported + reported && t.forgotten == s.forgotten + forgotten
  }

  lemma WritesNothing(s: Log, t: Log)
    requires t == s.(windows := t.windows, pruned := t.pruned, drops := t.drops, drift := t.drift)
    ensures Writes(s, t, [], [], [], [], [], [], 0, 0)
  {
    assert s.merged + [] == s.merged && s.arrivals + [] == s.arrivals && s.moved + [] == s.moved;
    assert s.delivered + [] == s.delivered && s.rejected + [] == s.rejected && s.discarded + [] == s.discarded;
  }

  ghost function ArrivalOf(s: Reporter, at: int, sample: Sample): seq<Event> {
    if sample.Sampled? then [Event(|s.log.arrivals|, sample.finalOutcome, at, sample.bytes)] else []
  }

  lemma MergeWrites(s: Reporter, incs: seq<Increment>)
    ensures var t := MergeCounters(s, incs);
      && Writes(s.log, t.log, Accepted(incs), [], MovedAll(s.current, Accepted(incs)), [], [], [], 0, 0)
      && t.log.drops == s.log.drops + |incs| - |Accepted(incs)| && t.events == s.events && t.log.pruned == s.log.pruned
  {
  }

  lemma SampleWrites(s: Reporter, at: int, sample: Sample)
    ensures var t := AddSample(s, at, sample);
      && Writes(s.log, t.log, [], ArrivalOf(s, at, sample), [], [], [], [], 0, 0)
      && t.log.drops == s.log.drops + DroppedByCall(s, sample, []) && t.log.pruned == s.log.pruned
  {
    WritesNothing(s.log, s.log);
  }

  lemma WritesBoth(r: Log, s: Log, t: Log, merged: seq<Increment>, arrived: seq<Event>, moved: Table)
    requires Writes(r, s, merged, [], moved, [], [], [], 0, 0) && Writes(s, t, [], arrived, [], [], [], [], 0, 0)
    ensures Writes(r, t, merged, arrived, moved, [], [], [], 0, 0)
  {
  }

  lemma WritesAfter(r: Log, s: Log, t: Log, merged: seq<Increment>, arrived: seq<Event>, moved: Table)
    requires s == r.(windows := s.windows, pruned := s.pruned, drops := s.drops)
    requires Writes(s, t, merged, arrived, moved, [], [], [], 0, 0)
    ensures Writes(r, t, merged, arrived, moved, [], [], [], 0, 0)
  {
  }

  /** A recorded call that is heard. */
  lemma CallWrites(z: Sizes, s: Reporter, at: int, sample: Sample, incs: seq<Increment>)
    requires Hears(s)
    ensures var t := OnRequest(z, s, at, sample, incs);
      && Writes(s.log, t.log, Accepted(incs), ArrivalOf(s, at, sample),
                MovedAll(Roll(z, s, at).current, Accepted(incs)), [], [], [], 0, 0)
      && t.log.drops - RowCount(t.log.pruned) == s.log.drops - RowCount(s.log.pruned) + DroppedByCall(s, sample, incs)
  {
    var t := Roll(z, s, at);
    var u := MergeCounters(t, incs);
    var v := AddSample(u, at, sample);
    RollTurned(z, s, at);
    RowCountConcat(s.log.pruned, (s.closed + RollAdded(z, s, at))[..RollCount(z, s, at)]);
    MergeWrites(t, incs);
    SampleWrites(u, at, sample);
    WritesBoth(t.log, u.log, v.log, Accepted(incs), ArrivalOf(s, at, sample), MovedAll(t.current, Accepted(incs)));
    WritesAfter(s.log, t.log, v.log, Accepted(incs), ArrivalOf(s, at, sample), MovedAll(t.current, Accepted(incs)));
  }

  lemma FlushWrites(z: Sizes, s: Reporter, at: int, hasKey: bool)
    ensures var t := BeginFlush(z, s, at, hasKey).0;
      && Writes(s.log, t.log, [], [], [], [], [], [], 0, 0)
      && t.log.drops - RowCount(t.log.pruned) == s.log.drops - RowCount(s.log.pruned)
  {
    var t := BeginFlush(z, s, at, hasKey).0;
    if MayPost(s, at) && hasKey {
      SettleTurned(z, s, at);
      RowCountConcat(s.log.pruned, (s.closed + SettleAdded(z, s, at))[..SettleCount(z, s, at)]);
    }
    WritesNothing(s.log, t.log);
  }

  ghost function If<T>(c: bool, xs: seq<T>): seq<T> {
    if c then xs else []
  }

  lemma ReplyWrites(z: Sizes, s: Reporter, reply: Reply, at: int, b: Batch)
    ensures var t, off := HandleReply(z, s, reply, at, b), reply.off || Fatal(reply.status);
      var rows := Removed(s.closed, b.refs);
      && Writes(s.log, t.log, [], [], [], If(!reply.off && reply.status == 202, rows),
                If(!reply.off && reply.status == 413, rows), If(off, RowsOfWindows(s.closed) + s.current),
                if !reply.off && reply.status == 202 then b.dropped else 0, if off then s.dropped else 0)
      && t.log.drops == s.log.drops + (if !reply.off && reply.status == 413 then |b.events| + |b.refs| else 0)
      && t.log.pruned == s.log.pruned
  {
    WritesNothing(s.log, s.log);
    assert s.log.discarded + (RowsOfWindows(s.closed) + s.current) == s.log.discarded + RowsOfWindows(s.closed) + s.current;
  }

  // ---- Any step ----

  ghost function MergedBy(y: Sys, step: Step): seq<Increment> {
    if step.Record? && Hears(y.r) then Accepted(step.incs) else []
  }

  ghost function ArrivedBy(y: Sys, step: Step): seq<Event> {
    if step.Record? && Hears(y.r) then ArrivalOf(y.r, step.at, step.sample) else []
  }

  ghost function MovedBy(z: Sizes, y: Sys, step: Step): Table {
    if step.Record? && Hears(y.r) then MovedAll(Roll(z, y.r, step.at).current, Accepted(step.incs)) else []
  }

  ghost function TakenBy(y: Sys, step: Step, status: int): Table {
    if Answered(y, step, status) then Removed(y.r.closed, y.flight.value.batch.refs) else []
  }

  ghost function ReleasedBy(y: Sys, step: Step): Table {
    if TurnsOff(y, step) then RowsOfWindows(y.r.closed) + y.r.current else []
  }

  ghost function ReportedBy(y: Sys, step: Step): int {
    if Answered(y, step, 202) then y.flight.value.batch.dropped else 0
  }

  ghost function ForgottenBy(y: Sys, step: Step): int {
    if TurnsOff(y, step) then y.r.dropped else 0
  }

  ghost function DroppedBy(y: Sys, step: Step): nat {
    (if step.Record? && Hears(y.r) then DroppedByCall(y.r, step.sample, step.incs) else 0)
    + (if Answered(y, step, 413) then |y.flight.value.batch.events| + |y.flight.value.batch.refs| else 0)
  }

  lemma StepWrites(z: Sizes, y: Sys, step: Step)
    ensures Writes(y.r.log, Next(z, y, step).r.log, MergedBy(y, step), ArrivedBy(y, step), MovedBy(z, y, step),
                   TakenBy(y, step, 202), TakenBy(y, step, 413), ReleasedBy(y, step), ReportedBy(y, step),
                   ForgottenBy(y, step))
    ensures var s, t := y.r.log, Next(z, y, step).r.log;
      t.drops - RowCount(t.pruned) == s.drops - RowCount(s.pruned) + DroppedBy(y, step)
  {
    WritesNothing(y.r.log, y.r.log);
    match step
    case Record(at, sample, incs) =>
      if Hears(y.r) {
        CallWrites(z, y.r, at, sample, incs);
      }
    case Flush(at, hasKey) => FlushWrites(z, y.r, at, hasKey);
    case Answer(at, reply) =>
      if y.flight.Some? {
        ReplyWrites(z, y.r, reply, at, y.flight.value.batch);
      }
    case Fail(at) =>
    case Shut =>
  }

  lemma StepPrunes(z: Sizes, y: Sys, step: Step)
    ensures Next(z, y, step).r.log.pruned == y.r.log.pruned + PrunedBy(z, y, step)
  {
    if step.Answer? {
      AnswerKeepsPruned(z, y, step);
      assert y.r.log.pruned + [] == y.r.log.pruned;
    } else {
      StepLeaves(z, y, step);
    }
  }

  // ---- Any run ----

  /** The history says what the run did. */
  ghost predicate Tells(log: Log, z: Sizes, rate: real, steps: seq<Step>) {
    && log.merged == MergedIn(z, rate, steps) && log.arrivals == ArrivedIn(z, rate, steps)
    && log.moved == MovedIn(z, rate, steps) && log.pruned == PrunedIn(z, rate, steps)
    && log.delivered == TakenIn(z, rate, steps, 202) && log.rejected == TakenIn(z, rate, steps, 413)
    && log.discarded == ReleasedIn(z, rate, steps)
    && log.reported == ReportedIn(z, rate, steps) && log.forgotten == ForgottenIn(z, rate, steps)
    && log.drops == DroppedIn(z, rate, steps) + RowCount(PrunedIn(z, rate, steps))
  }

  /** In every run the history kept for accounting is what the steps of the run amount to. */
  lemma {:induction false} LedgerIsRun(z: Sizes, rate: real, steps: seq<Step>)
    ensures Tells(Run(z, Start(rate), steps).r.log, z, rate, steps)
  {
    if steps != [] {
      var before, last := steps[..|steps| - 1], steps[|steps| - 1];
      var y := Run(z, Start(rate), before);
      LedgerIsRun(z, rate, before);
      ListensUntil(z, rate, before);
      StepWrites(z, y, last);
      StepPrunes(z, y, last);
    }
  }

  /**
   * After any run, the increments of the calls that counted equal, in every measure, what the buffers hold plus what
   * was delivered, refused as too large, given up by retention, released on turning off, and clipped by a re-key.
   */
  lemma RunBalanced(z: Sizes, rate: real, steps: seq<Step>, m: Measure)
    ensures var s := Run(z, Start(rate), steps).r;
      CountedTotal(MergedIn(z, rate, steps), Whole, ALL, m) ==
        Grand(s.current, m) + WindowsGrand(s.closed, m)
        + Grand(TakenIn(z, rate, steps, 202), m) + Grand(TakenIn(z, rate, steps, 413), m)
        + WindowsGrand(PrunedIn(z, rate, steps), m) + Grand(ReleasedIn(z, rate, steps), m)
        + ClippedTotal(MovedIn(z, rate, steps), Whole, ALL, m)
  {
    RunKeepsBalance(z, rate, steps, m);
    LedgerIsRun(z, rate, steps);
  }

  /**
   * In every reachable state the byte counts are those of what is held: of the buffered events exactly, and of the
   * closed windows up to the bytes of windows that were pruned while selected (drift). Of each kind of event the
   * buffer holds the latest that arrived, and every drop of the run is pending, reported, or forgotten by turning off.
   */
  lemma Bookkeeping(z: Sizes, rate: real, steps: seq<Step>)
    ensures var s := Run(z, Start(rate), steps).r;
      && s.eventsSize == Bytes(s.events) && |s.events| <= MAX_EVENTS
      && s.retained + s.log.drift == SizeSum(s.closed)
      && (Shrinks(z) ==> s.log.drift >= 0 && s.retained <= RETENTION_BYTES)
      && (forall success: bool :: SuffixOf(OfKind(s.events, success), OfKind(ArrivedIn(z, rate, steps), success)))
      && s.dropped + ReportedIn(z, rate, steps) + ForgottenIn(z, rate, steps)
           == DroppedIn(z, rate, steps) + RowCount(PrunedIn(z, rate, steps))
      && s.dropped >= 0
      && (forall w | w in s.closed :: WellFormed(w.rows) && w.rows != [] && w.size == z.window(w.rows))
  {
    RunAccounts(z, rate, steps);
    LedgerIsRun(z, rate, steps);
  }

  // ---- Where events go ----

  /** Events that leave the buffer at a step: one evicted by a call, those of a batch answered, or all on turning off. */
  ghost function LeftBy(y: Sys, step: Step): int {
    if step.Record? && Hears(y.r) && step.sample.Sampled? && |y.r.events| >= MAX_EVENTS then 1
    else if Answered(y, step, 202) || Answered(y, step, 413)
    then |y.r.events| - |KeepEvents(y.r.events, y.flight.value.batch.events)|
    else if TurnsOff(y, step) then |y.r.events|
    else 0
  }

  ghost function LeftIn(z: Sizes, rate: real, steps: seq<Step>): int {
    if steps == [] then 0
    else
      var before, last := steps[..|steps| - 1], steps[|steps| - 1];
      LeftIn(z, rate, before) + LeftBy(Run(z, Start(rate), before), last)
  }

  lemma CallEvents(z: Sizes, s: Reporter, at: int, sample: Sample, incs: seq<Increment>)
    requires Hears(s)
    ensures |OnRequest(z, s, at, sample, incs).events|
      == |s.events| + (if sample.Sampled? then 1 else 0) - (if sample.Sampled? && |s.events| >= MAX_EVENTS then 1 else 0)
  {
    RollTurned(z, s, at);
  }

  lemma FlushEvents(z: Sizes, s: Reporter, at: int, hasKey: bool)
    ensures BeginFlush(z, s, at, hasKey).0.events == s.events
  {
    SettleTurned(z, s, at);
  }

  lemma ReplyEvents(z: Sizes, s: Reporter, reply: Reply, at: int, b: Batch)
    ensures var t := HandleReply(z, s, reply, at, b);
      t.events == if reply.off || Fatal(reply.status) then []
                  else if reply.status == 202 || reply.status == 413 then KeepEvents(s.events, b.events) else s.events
  {
  }

  lemma StepEvents(z: Sizes, y: Sys, step: Step)
    ensures |Next(z, y, step).r.events| == |y.r.events| + |ArrivedBy(y, step)| - LeftBy(y, step)
  {
    match step
    case Record(at, sample, incs) =>
      if Hears(y.r) {
        CallEvents(z, y.r, at, sample, incs);
      }
    case Flush(at, hasKey) => FlushEvents(z, y.r, at, hasKey);
    case Answer(at, reply) =>
      if y.flight.Some? {
        ReplyEvents(z, y.r, reply, at, y.flight.value.batch);
      }
    case Fail(at) =>
    case Shut =>
  }

  /** Every event that arrived is buffered, or left by one of the ways there are: none just disappears. */
  lemma {:induction false} EventsAccounted(z: Sizes, rate: real, steps: seq<Step>)
    ensures |ArrivedIn(z, rate, steps)| == |Run(z, Start(rate), steps).r.events| + LeftIn(z, rate, steps)
  {
    if steps != [] {
      var before, last := steps[..|steps| - 1], steps[|steps| - 1];
      EventsAccounted(z, rate, before);
      ListensUntil(z, rate, before);
      StepEvents(z, Run(z, Start(rate), before), last);
    }
  }
}
