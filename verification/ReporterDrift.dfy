// Runs on which the byte accounting drifts: the oldest minute is given up to the
// byte limit in the few seconds its rows are in flight, and the acknowledgement
// gives its bytes back a second time.
module ReporterDrift {
  import opened Options
  import opened Counters
  import opened FoldLadder
  import opened ReporterState
  import opened ReporterBalance
  import opened ReporterWindows
  import opened ReporterBatches
  import opened ReporterMinutes
  import opened ReporterRuns
  import opened ReporterTheorems
  import opened ReporterExactness

  /** A POST that takes longer is abandoned. */
  const POST_TIMEOUT := 5 * SECOND

  /** The rows one minute of these increments leaves. */
  function MinuteRows(incs: seq<Increment>): Table {
    AbsorbAll([], Accepted(incs))
  }

  /** The same calls in each of the first n minutes. */
  function Minutes(incs: seq<Increment>, n: nat): (r: seq<Step>)
    ensures |r| == n
  {
    if n == 0 then [] else Minutes(incs, n - 1) + [Record((n - 1) * MINUTE, Unsampled, incs)]
  }

  function FlushAt(n: nat): int {
    n * MINUTE - 3 * SECOND
  }

  /** A flush three seconds before a minute ends, a call in what is left of it, one in the next minute, and then a 202. */
  function Crossing(incs: seq<Increment>, n: nat): seq<Step> {
    var accepted := Reply(202, false, None, Policy(None, None, None));
    [Flush(FlushAt(n), true), Record(FlushAt(n) + SECOND, Unsampled, incs),
     Record(FlushAt(n) + 4 * SECOND, Unsampled, incs), Answer(FlushAt(n) + 4 * SECOND + SECOND / 2, accepted)]
  }

  function DriftingRun(incs: seq<Increment>, n: nat): seq<Step> {
    Minutes(incs, n) + Crossing(incs, n)
  }

  /** The bytes of n windows of one size. */
  function Worth(n: nat, size: nat): nat {
    if n == 0 then 0 else Worth(n - 1, size) + size
  }

  lemma {:induction false} WorthIs(n: nat, size: nat)
    ensures Worth(n, size) == n * size
  {
    if n > 0 {
      WorthIs(n - 1, size);
      assert n * size == (n - 1) * size + size;
    }
  }

  /** n closed minutes with the same rows. */
  function Past(t: Table, size: nat, n: nat): (r: seq<Window>)
    ensures |r| == n
    ensures forall i | 0 <= i < n :: r[i] == Window(i, i * MINUTE, t, size)
  {
    seq(n, i requires 0 <= i < n => Window(i, i * MINUTE, t, size))
  }

  /** The state when n minutes are closed, the last of them still current or not. */
  ghost predicate Stands(s: Reporter, t: Table, size: nat, n: nat, start: int, current: Table) {
    && s.closed == Past(t, size, n) && s.retained == Worth(n, size) && s.log.windows == n
    && s.hasWindow && s.windowStart == start && s.current == current
    && s.events == [] && s.dropped == 0 && s.log.drift == 0
    && s.pace.pausedUntil == 0 && s.pace.backoffUntil == 0 && !s.disabled && !s.shut
  }

  // ---- Time and retention ----

  lemma StartOf(n: int, into: int)
    requires 0 <= into < MINUTE
    ensures MinuteStart(n * MINUTE + into) == n * MINUTE
  {
    assert (n * MINUTE + into) % MINUTE == into;
  }

  lemma NothingToPrune(t: Reporter, now: int)
    requires t.closed != [] ==> now - t.closed[0].start <= RETENTION
    requires t.retained <= RETENTION_BYTES
    ensures Prune(t, now) == t && PruneCount(t.closed, t.retained, now) == 0
  {
    assert t.closed[0..] == t.closed;
    assert t.closed[..0] == [];
  }

  lemma OneToPrune(closed: seq<Window>, retained: int, now: int)
    requires closed != [] && now - closed[0].start <= RETENTION
    requires retained - closed[0].size <= RETENTION_BYTES < retained
    ensures PruneCount(closed, retained, now) == 1
  {
    var k, i := PruneCountParts(closed, retained, now);
    assert k == 0 && closed[0..] == closed && closed[..0] == [];
    assert OverCount(closed[1..], retained - closed[0].size) == 0;
    assert OverCount(closed, retained) == 1;
  }

  lemma {:induction false} AllAccepted(incs: seq<Increment>)
    requires forall i | 0 <= i < |incs| :: Countable(incs[i].key)
    ensures |Accepted(incs)| == |incs|
  {
    if incs != [] {
      AllAccepted(incs[..|incs| - 1]);
    }
  }

  lemma PastSnoc(t: Table, size: nat, n: nat)
    ensures Past(t, size, n + 1) == Past(t, size, n) + [Window(n, n * MINUTE, t, size)]
  {
  }

  // ---- Calls ----

  /** The first call of a minute, with nothing counted yet. */
  lemma CountsFresh(s: Reporter, incs: seq<Increment>, t: Table, size: nat, n: nat, start: int)
    requires Stands(s, t, size, n, start, []) && t == MinuteRows(incs)
    requires forall i | 0 <= i < |incs| :: Countable(incs[i].key)
    ensures Stands(MergeCounters(s, incs), t, size, n, start, t)
  {
    AllAccepted(incs);
  }

  /** Closing a minute with room to spare. */
  lemma ClosesWithin(z: Sizes, s: Reporter, t: Table, size: nat, n: nat, now: int)
    requires Stands(s, t, size, n, n * MINUTE, t) && t != [] && size == z.window(t)
    requires now <= RETENTION && Worth(n + 1, size) <= RETENTION_BYTES
    ensures CloseCurrent(z, s, now) == Closing(z, s, now)
    ensures Stands(Closing(z, s, now), t, size, n + 1, MinuteStart(now), [])
  {
    PastSnoc(t, size, n);
    assert NewWindow(z, s) == Window(n, n * MINUTE, t, size);
    NothingToPrune(Closing(z, s, now), now);
  }

  lemma RollCloses(z: Sizes, s: Reporter, t: Table, size: nat, n: nat, into: int)
    requires Stands(s, t, size, n, n * MINUTE, t) && t != [] && size == z.window(t)
    requires 0 <= into < MINUTE && (n + 1) * MINUTE + into <= RETENTION && Worth(n + 1, size) <= RETENTION_BYTES
    ensures Stands(Roll(z, s, (n + 1) * MINUTE + into), t, size, n + 1, (n + 1) * MINUTE, [])
  {
    var now := (n + 1) * MINUTE + into;
    StartOf(n + 1, into);
    ClosesWithin(z, s, t, size, n, now);
  }

  /** A call in a later minute closes the current one. */
  lemma CallCloses(z: Sizes, s: Reporter, incs: seq<Increment>, t: Table, size: nat, n: nat, into: int)
    requires Stands(s, t, size, n, n * MINUTE, t) && t != [] && t == MinuteRows(incs) && size == z.window(t)
    requires forall i | 0 <= i < |incs| :: Countable(incs[i].key)
    requires 0 <= into < MINUTE && (n + 1) * MINUTE + into <= RETENTION && Worth(n + 1, size) <= RETENTION_BYTES
    ensures Stands(OnRequest(z, s, (n + 1) * MINUTE + into, Unsampled, incs), t, size, n + 1, (n + 1) * MINUTE, t)
  {
    var now := (n + 1) * MINUTE + into;
    RollCloses(z, s, t, size, n, into);
    CountsFresh(Roll(z, s, now), incs, t, size, n + 1, (n + 1) * MINUTE);
  }

  lemma FirstMinute(z: Sizes, rate: real, incs: seq<Increment>, t: Table, size: nat)
    requires t == MinuteRows(incs) && forall i | 0 <= i < |incs| :: Countable(incs[i].key)
    ensures Stands(OnRequest(z, Fresh(rate), 0, Unsampled, incs), t, size, 0, 0, t)
  {
    StartOf(0, 0);
    var s := Fresh(rate).(hasWindow := true, windowStart := 0);
    assert Past(t, size, 0) == [];
    CountsFresh(s, incs, t, size, 0, 0);
  }

  lemma MinutesCons(z: Sizes, rate: real, incs: seq<Increment>, n: nat)
    requires n > 0
    ensures var y := Run(z, Start(rate), Minutes(incs, n - 1));
      Run(z, Start(rate), Minutes(incs, n)) == y.(r := OnRequest(z, y.r, (n - 1) * MINUTE, Unsampled, incs))
  {
    assert Minutes(incs, n)[..n - 1] == Minutes(incs, n - 1);
  }

  /** m minutes are closed and one more is current, all with the same rows, and nothing is in flight. */
  ghost predicate Counted(y: Sys, t: Table, size: nat, m: nat) {
    Stands(y.r, t, size, m, m * MINUTE, t) && y.flight.None?
  }

  lemma NextMinute(z: Sizes, s: Reporter, u: Reporter, incs: seq<Increment>, t: Table, size: nat, m: nat, now: int)
    requires Stands(s, t, size, m, m * MINUTE, t) && t != [] && t == MinuteRows(incs) && size == z.window(t)
    requires forall i | 0 <= i < |incs| :: Countable(incs[i].key)
    requires now == (m + 1) * MINUTE <= RETENTION && Worth(m + 1, size) <= RETENTION_BYTES
    requires u == OnRequest(z, s, now, Unsampled, incs)
    ensures Stands(u, t, size, m + 1, (m + 1) * MINUTE, t)
  {
    CallCloses(z, s, incs, t, size, m, 0);
  }

  lemma MinutesUp(k: nat, m: nat)
    requires k <= m
    ensures k * MINUTE <= m * MINUTE
  {
  }

  lemma {:induction false} WorthUp(k: nat, m: nat, size: nat)
    requires k <= m
    ensures Worth(k, size) <= Worth(m, size)
  {
    if k < m {
      WorthUp(k, m - 1, size);
    }
  }

  /** The state after the calls of k + 1 minutes. */
  function StateAt(z: Sizes, rate: real, incs: seq<Increment>, k: nat): Sys {
    Run(z, Start(rate), Minutes(incs, k + 1))
  }

  lemma StateNext(z: Sizes, rate: real, incs: seq<Increment>, k: nat)
    ensures StateAt(z, rate, incs, k + 1)
      == StateAt(z, rate, incs, k).(r := OnRequest(z, StateAt(z, rate, incs, k).r, (k + 1) * MINUTE, Unsampled, incs))
  {
    MinutesCons(z, rate, incs, k + 2);
  }

  lemma StateFirst(z: Sizes, rate: real, incs: seq<Increment>, t: Table, size: nat)
    requires t == MinuteRows(incs) && forall i | 0 <= i < |incs| :: Countable(incs[i].key)
    ensures Counted(StateAt(z, rate, incs, 0), t, size, 0)
  {
    MinutesCons(z, rate, incs, 1);
    FirstMinute(z, rate, incs, t, size);
  }

  lemma StateAdvances(z: Sizes, rate: real, incs: seq<Increment>, t: Table, size: nat, k: nat)
    requires t == MinuteRows(incs) && t != [] && size == z.window(t)
    requires forall i | 0 <= i < |incs| :: Countable(incs[i].key)
    requires (k + 1) * MINUTE <= RETENTION && Worth(k + 1, size) <= RETENTION_BYTES
    requires Counted(StateAt(z, rate, incs, k), t, size, k)
    ensures Counted(StateAt(z, rate, incs, k + 1), t, size, k + 1)
  {
    StateNext(z, rate, incs, k);
    NextMinute(z, StateAt(z, rate, incs, k).r, StateAt(z, rate, incs, k + 1).r, incs, t, size, k, (k + 1) * MINUTE);
  }

  lemma MinutesStand(z: Sizes, rate: real, incs: seq<Increment>, t: Table, size: nat, m: nat)
    requires t == MinuteRows(incs) && t != [] && size == z.window(t)
    requires forall i | 0 <= i < |incs| :: Countable(incs[i].key)
    requires m * MINUTE <= RETENTION && Worth(m, size) <= RETENTION_BYTES
    ensures Counted(StateAt(z, rate, incs, m), t, size, m)
  {
    StateFirst(z, rate, incs, t, size);
    for k := 0 to m
      invariant Counted(StateAt(z, rate, incs, k), t, size, k)
    {
      MinutesUp(k + 1, m);
      WorthUp(k + 1, m, size);
      StateAdvances(z, rate, incs, t, size, k);
    }
  }

  // ---- The flush ----

  /** The flush closes the last minute, which still fits, and selects from the oldest. */
  lemma FlushStands(z: Sizes, s: Reporter, t: Table, size: nat, n: nat)
    requires n > 0 && Stands(s, t, size, n - 1, (n - 1) * MINUTE, t) && t != [] && size == z.window(t)
    requires n * MINUTE <= RETENTION && Worth(n, size) <= RETENTION_BYTES
    ensures Settled(z, s, FlushAt(n)) == Closing(z, s, FlushAt(n))
    ensures Stands(Settled(z, s, FlushAt(n)), t, size, n, (n - 1) * MINUTE, [])
  {
    var now := FlushAt(n);
    StartOf(n - 1, MINUTE - 3 * SECOND);
    assert (n - 1) * MINUTE + (MINUTE - 3 * SECOND) == now;
    assert Roll(z, s, now) == s;
    ClosesWithin(z, s, t, size, n - 1, now);
    NothingToPrune(Closing(z, s, now), now);
  }

  /** The batch that is selected starts with the oldest minute's first row, if one row fits a batch. */
  lemma SelectsOldest(z: Sizes, s: Reporter, t: Table, size: nat, n: nat) returns (b: Batch)
    requires n > 0 && Stands(s, t, size, n, (n - 1) * MINUTE, []) && t != []
    requires FitsWire(z, BatchOf(s.sent, 0, [], [Ref(Window(0, 0, t, size), t[0].key)], FlushAt(n)))
    ensures SelectFrom(z, s, FlushAt(n)) == (s.(sent := s.sent + 1), Some(b))
    ensures b.refs != [] && b.refs[0].window == Window(0, 0, t, size)
  {
    var now := FlushAt(n);
    var all := AllRefs(s.closed);
    var first := Ref(Window(0, 0, t, size), t[0].key);
    assert s.closed[0] == first.window && all[0] == RefsOf(s.closed[0])[0] == first;
    var refs := FirstN(all, MAX_BATCH_COUNTERS);
    assert refs[0] == first && refs[..1] == [first];
    var k := TrimFirstFit(z, s.sent, 0, [], refs, now);
    var last := |refs| - 1;
    assert Candidate(s.sent, 0, [], refs, now, last) == BatchOf(s.sent, 0, [], refs[..1], now);
    b := Candidate(s.sent, 0, [], refs, now, k);
    assert b.refs == refs[..|refs| - k] && b.refs[0] == refs[0];
  }

  // ---- The minute that no longer fits ----

  lemma CallOverflows(z: Sizes, s: Reporter, incs: seq<Increment>, t: Table, size: nat, n: nat)
    requires n > 0 && Stands(s, t, size, n, (n - 1) * MINUTE, t) && t != [] && t == MinuteRows(incs) && size == z.window(t)
    requires n * MINUTE + SECOND <= RETENTION && Worth(n, size) <= RETENTION_BYTES < Worth(n + 1, size)
    ensures var u := OnRequest(z, s, FlushAt(n) + 4 * SECOND, Unsampled, incs);
      !Live(u.closed, 0) && u.log.drift == 0
  {
    var now := FlushAt(n) + 4 * SECOND;
    StartOf(n, SECOND);
    assert now == n * MINUTE + SECOND;
    var added := Window(n, (n - 1) * MINUTE, t, size);
    var c := Closing(z, s, now);
    assert NewWindow(z, s) == added && c.closed == s.closed + [added] && c.closed[0] == s.closed[0];
    assert c.retained == Worth(n + 1, size) && c.retained - size == Worth(n, size);
    OneToPrune(c.closed, c.retained, now);
    RollTurned(z, s, now);
    var u := Roll(z, s, now);
    assert u.closed == (s.closed + [added])[1..];
    forall w | w in u.closed
      ensures w.id != 0
    {
      var i :| 0 <= i < |u.closed| && u.closed[i] == w;
      assert w == (s.closed + [added])[i + 1];
    }
  }

  // ---- The drift ----

  /** After the flush the oldest minute is in flight, and the minute goes on. */
  lemma FlightStands(z: Sizes, y: Sys, t: Table, size: nat, n: nat)
    requires n > 0 && Counted(y, t, size, n - 1)
    requires t != [] && size == z.window(t) && n * MINUTE <= RETENTION && Worth(n, size) <= RETENTION_BYTES
    requires FitsWire(z, BatchOf(y.r.sent, 0, [], [Ref(Window(0, 0, t, size), t[0].key)], FlushAt(n)))
    ensures var v := Next(z, y, Flush(FlushAt(n), true));
      && Stands(v.r, t, size, n, (n - 1) * MINUTE, [])
      && v.flight.Some? && v.flight.value.batch.refs != [] && v.flight.value.batch.refs[0].window == Window(0, 0, t, size)
  {
    FlushStands(z, y.r, t, size, n);
    var s := Settled(z, y.r, FlushAt(n));
    assert s.sent == y.r.sent;
    var b := SelectsOldest(z, s, t, size, n);
  }

  lemma StaysInMinute(z: Sizes, s: Reporter, t: Table, size: nat, n: nat)
    requires n > 0 && Stands(s, t, size, n, (n - 1) * MINUTE, [])
    ensures Roll(z, s, FlushAt(n) + SECOND) == s
  {
    StartOf(n - 1, MINUTE - 2 * SECOND);
    assert FlushAt(n) + SECOND == (n - 1) * MINUTE + (MINUTE - 2 * SECOND);
  }

  lemma CallStays(z: Sizes, s: Reporter, incs: seq<Increment>, t: Table, size: nat, n: nat)
    requires n > 0 && Stands(s, t, size, n, (n - 1) * MINUTE, []) && t == MinuteRows(incs)
    requires forall i | 0 <= i < |incs| :: Countable(incs[i].key)
    ensures Stands(OnRequest(z, s, FlushAt(n) + SECOND, Unsampled, incs), t, size, n, (n - 1) * MINUTE, t)
  {
    StaysInMinute(z, s, t, size, n);
    CountsFresh(s, incs, t, size, n, (n - 1) * MINUTE);
  }

  /** Two calls later the oldest minute is given up, with its rows in flight. */
  lemma CallsCross(z: Sizes, y: Sys, incs: seq<Increment>, t: Table, size: nat, n: nat)
    requires n > 0 && Stands(y.r, t, size, n, (n - 1) * MINUTE, [])
    requires t == MinuteRows(incs) && t != [] && size == z.window(t)
    requires forall i | 0 <= i < |incs| :: Countable(incs[i].key)
    requires n * MINUTE + SECOND <= RETENTION && Worth(n, size) <= RETENTION_BYTES < Worth(n + 1, size)
    ensures var v := Next(z, Next(z, y, Crossing(incs, n)[1]), Crossing(incs, n)[2]);
      v.r.log.drift == 0 && !Live(v.r.closed, 0) && v.flight == y.flight
  {
    CallStays(z, y.r, incs, t, size, n);
    var s := OnRequest(z, y.r, FlushAt(n) + SECOND, Unsampled, incs);
    CallOverflows(z, s, incs, t, size, n);
    SampleSame(MergeCounters(Roll(z, s, FlushAt(n) + 4 * SECOND), incs), FlushAt(n) + 4 * SECOND, Unsampled);
  }

  lemma NotKept(y: Sys, step: Step)
    requires step.Answer? && TakesOut(step.reply) && y.flight.Some? && y.flight.value.batch.refs != []
    requires !Live(y.r.closed, y.flight.value.batch.refs[0].window.id)
    ensures !KeptAt(y, step)
  {
    assert y.flight.value.batch.refs[0] in y.flight.value.batch.refs;
  }

  /** The state before the answer: the oldest minute is in flight and no longer retained, and nothing has drifted yet. */
  lemma BeforeAnswer(z: Sizes, y: Sys, incs: seq<Increment>, t: Table, size: nat, n: nat)
    requires n > 0 && Counted(y, t, size, n - 1)
    requires t == MinuteRows(incs) && t != [] && size == z.window(t)
    requires forall i | 0 <= i < |incs| :: Countable(incs[i].key)
    requires n * MINUTE + SECOND <= RETENTION && Worth(n, size) <= RETENTION_BYTES < Worth(n + 1, size)
    requires FitsWire(z, BatchOf(y.r.sent, 0, [], [Ref(Window(0, 0, t, size), t[0].key)], FlushAt(n)))
    ensures var c := Crossing(incs, n);
      var v := Next(z, Next(z, Next(z, y, c[0]), c[1]), c[2]);
      v.r.log.drift == 0 && !KeptAt(v, c[3])
  {
    var c := Crossing(incs, n);
    FlightStands(z, y, t, size, n);
    var v := Next(z, y, c[0]);
    CallsCross(z, v, incs, t, size, n);
    NotKept(Next(z, Next(z, v, c[1]), c[2]), c[3]);
  }

  lemma RunFour(z: Sizes, y: Sys, before: seq<Step>, a: Step, b: Step, c: Step, d: Step)
    ensures before + [a, b, c, d] == before + [a] + [b] + [c] + [d]
    ensures Run(z, y, before + [a] + [b] + [c]) == Next(z, Next(z, Next(z, Run(z, y, before), a), b), c)
  {
    RunOne(z, y, before, a);
    RunOne(z, y, before + [a], b);
    RunOne(z, y, before + [a] + [b], c);
  }

  lemma RunOne(z: Sizes, y: Sys, before: seq<Step>, step: Step)
    ensures Run(z, y, before + [step]) == Next(z, Run(z, y, before), step)
  {
    assert (before + [step])[..|before|] == before;
  }

  /**
   * For every encoding that gets shorter when a row leaves: if n minutes of some calls fit the byte limit and one more
   * does not, and a batch can carry one row, then n such minutes, a flush that is answered by a 202 within the time a
   * POST is given, and a minute that closes in between, leave the reporter counting fewer bytes than it retains.
   */
  lemma Drifts(z: Sizes, rate: real, incs: seq<Increment>, n: nat)
    requires Strict(z) && MinuteRows(incs) != [] && forall i | 0 <= i < |incs| :: Countable(incs[i].key)
    requires 0 < n && n * MINUTE + SECOND <= RETENTION
    requires n * z.window(MinuteRows(incs)) <= RETENTION_BYTES < (n + 1) * z.window(MinuteRows(incs))
    requires var t := MinuteRows(incs);
      FitsWire(z, BatchOf(0, 0, [], [Ref(Window(0, 0, t, z.window(t)), t[0].key)], FlushAt(n)))
    ensures var c := Crossing(incs, n);
      && c[0].Flush? && c[3].Answer? && c[3].reply.status == 202 && c[0].at < c[3].at < c[0].at + POST_TIMEOUT
      && Forward(DriftingRun(incs, n), 0)
    ensures var s := Run(z, Start(rate), DriftingRun(incs, n)).r;
      s.retained < SizeSum(s.closed)
  {
    var t := MinuteRows(incs);
    var before, c := Minutes(incs, n), Crossing(incs, n);
    WorthIs(n, z.window(t));
    WorthIs(n + 1, z.window(t));
    var y := Run(z, Start(rate), before);
    MinutesUnsent(z, rate, incs, n);
    MinutesBefore(z, rate, incs, t, z.window(t), y, n);
    BeforeAnswer(z, y, incs, t, z.window(t), n);
    DriftingForward(incs, n);
    CrossingDrifts(z, rate, before, c[0], c[1], c[2], c[3]);
  }

  lemma MinutesBefore(z: Sizes, rate: real, incs: seq<Increment>, t: Table, size: nat, y: Sys, n: nat)
    requires n > 0 && t == MinuteRows(incs) && t != [] && size == z.window(t)
    requires forall i | 0 <= i < |incs| :: Countable(incs[i].key)
    requires n * MINUTE <= RETENTION && Worth(n, size) <= RETENTION_BYTES
    requires y == StateAt(z, rate, incs, n - 1)
    ensures Counted(y, t, size, n - 1)
  {
    WorthUp(n - 1, n, size);
    MinutesStand(z, rate, incs, t, size, n - 1);
  }

  lemma CrossingDrifts(z: Sizes, rate: real, before: seq<Step>, a: Step, b: Step, c: Step, d: Step)
    requires Strict(z)
    requires var v := Next(z, Next(z, Next(z, Run(z, Start(rate), before), a), b), c);
      v.r.log.drift == 0 && !KeptAt(v, d)
    ensures var s := Run(z, Start(rate), before + [a, b, c, d]).r;
      s.retained < SizeSum(s.closed)
  {
    RunFour(z, Start(rate), before, a, b, c, d);
    AnswerDrifts(z, rate, before + [a] + [b] + [c], d);
  }

  lemma {:induction false} MinutesUnsent(z: Sizes, rate: real, incs: seq<Increment>, n: nat)
    ensures Run(z, Start(rate), Minutes(incs, n)).r.sent == 0
  {
    if n > 0 {
      assert Minutes(incs, n)[..n - 1] == Minutes(incs, n - 1);
      MinutesUnsent(z, rate, incs, n - 1);
      RollTurned(z, Run(z, Start(rate), Minutes(incs, n - 1)).r, (n - 1) * MINUTE);
    }
  }

  /** Taking out a batch one of whose windows is gone leaves too little counted. */
  lemma AnswerDrifts(z: Sizes, rate: real, before: seq<Step>, step: Step)
    requires Strict(z)
    requires var y := Run(z, Start(rate), before);
      y.r.log.drift == 0 && !KeptAt(y, step)
    ensures var s := Run(z, Start(rate), before + [step]).r;
      s.retained < SizeSum(s.closed)
  {
    var y := Run(z, Start(rate), before);
    RunGood(z, rate, before);
    RunOne(z, Start(rate), before, step);
    NextExactIff(z, y, step);
    RunAccounts(z, rate, before + [step]);
  }

  lemma ForwardOne(steps: seq<Step>, step: Step, from: int)
    requires Forward(steps, from) && TimeOf(step, Clock(steps, from)) >= Clock(steps, from)
    ensures Forward(steps + [step], from) && Clock(steps + [step], from) == TimeOf(step, Clock(steps, from))
  {
    assert (steps + [step])[..|steps|] == steps;
  }

  lemma {:induction false} MinutesForward(incs: seq<Increment>, n: nat)
    ensures Forward(Minutes(incs, n), 0) && Clock(Minutes(incs, n), 0) == if n == 0 then 0 else (n - 1) * MINUTE
  {
    if n > 0 {
      MinutesForward(incs, n - 1);
      ForwardOne(Minutes(incs, n - 1), Record((n - 1) * MINUTE, Unsampled, incs), 0);
    }
  }

  lemma DriftingForward(incs: seq<Increment>, n: nat)
    requires n > 0
    ensures Forward(DriftingRun(incs, n), 0)
  {
    var a, c := Minutes(incs, n), Crossing(incs, n);
    MinutesForward(incs, n);
    ForwardOne(a, c[0], 0);
    ForwardOne(a + [c[0]], c[1], 0);
    ForwardOne(a + [c[0]] + [c[1]], c[2], 0);
    ForwardOne(a + [c[0]] + [c[1]] + [c[2]], c[3], 0);
    assert a + [c[0]] + [c[1]] + [c[2]] + [c[3]] == a + c;
  }

  // ---- One such encoding ----

  function RowBytes(t: Table): nat {
    512 * |t|
  }

  function BatchBytes(w: Wire): nat {
    512 * (|w.events| + |w.counters|)
  }

  lemma OneRow(inc: Increment)
    requires Countable(inc.key)
    ensures |MinuteRows([inc])| == 1
  {
    assert [inc][..0] == [];
    assert Accepted([inc]) == [Normal(inc)];
    assert [Normal(inc)][..0] == [];
    assert AbsorbAll([], [Normal(inc)]) == Absorb([], Normal(inc));
  }

  /** With rows of half a kilobyte, one row a minute for seventeen hours is enough. */
  lemma DriftsFor(z: Sizes, rate: real, inc: Increment, n: nat)
    requires z == Sizes(RowBytes, BatchBytes) && Countable(inc.key) && n == 1024
    ensures var s := Run(z, Start(rate), DriftingRun([inc], n)).r;
      s.retained < SizeSum(s.closed)
  {
    OneRow(inc);
    Drifts(z, rate, [inc], n);
  }
}
