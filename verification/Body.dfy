// The body of a returned response: the call is over only once the caller is done with it.
module Body {
  import opened Options
  import opened Counters
  import opened CallRecorder
  import opened RecorderProofs
  import opened RecorderTheorems
  import opened Engine
  import opened EngineCoupling

  datatype BodyState = BodyState(bodyStarted: bool, sawEOF: bool, done: bool)

  /** What the caller, or the stream decoder on its behalf, does with the body. */
  datatype BodyEvent =
    | ReadError(eof: bool, callerEnded: bool, error: ErrorFacts, elapsedMS: int, totalMS: int)
    | FirstItem(ms: int)
    | StoppedEarly(elapsedMS: int)
    | CloseBody(callerEnded: bool, elapsedMS: int, totalMS: int)

  /** The wrapper's next state, and what it tells the recorder. */
  function BodyStep(b: BodyState, e: BodyEvent): (BodyState, seq<Op>) {
    match e
    case ReadError(eof, ended, error, ms, total) =>
      if eof then (b.(sawEOF := true), [])
      else if b.done then (b, [])
      else (b.(done := true),
            [if ended then Aborted(ms) else TransportError(error, false, true, b.bodyStarted, ms), Finish(total)])
    case FirstItem(ms) => (b.(bodyStarted := true), [FirstEvent(ms)])
    case StoppedEarly(ms) => if b.done then (b, []) else (b.(done := true), [Aborted(ms)])
    case CloseBody(ended, ms, total) =>
      (b.(done := true), (if !b.done && ended && !b.sawEOF then [Aborted(ms)] else []) + [Finish(total)])
  }

  const UNREAD := BodyState(false, false, false)

  function BodyAfter(events: seq<BodyEvent>): BodyState {
    if events == [] then UNREAD else BodyStep(BodyAfter(events[..|events| - 1]), events[|events| - 1]).0
  }

  function BodyOps(events: seq<BodyEvent>): seq<Op> {
    if events == [] then []
    else BodyOps(events[..|events| - 1]) + BodyStep(BodyAfter(events[..|events| - 1]), events[|events| - 1]).1
  }

  /** Callbacks that come after the headers. */
  predicate Late(op: Op) {
    op.Aborted? || op.TransportError? || op.FirstEvent? || op.Finish?
  }

  lemma {:induction false} BodyOpsLate(events: seq<BodyEvent>)
    ensures forall op | op in BodyOps(events) :: Late(op)
    ensures (exists e :: e in events && e.CloseBody?) ==> exists op :: op in BodyOps(events) && op.Finish?
  {
    if events != [] {
      var n := |events| - 1;
      var before, last := events[..n], events[n];
      BodyOpsLate(before);
      var more := BodyStep(BodyAfter(before), last).1;
      if last.CloseBody? {
        assert more[|more| - 1].Finish? && more[|more| - 1] in BodyOps(events);
      } else if e :| e in events && e.CloseBody? {
        assert e in before;
        var op :| op in BodyOps(before) && op.Finish?;
        assert op in BodyOps(events);
      }
    }
  }

  /** A call that has recorded something goes on having recorded something. */
  lemma LateKeeps(r: Recorder, op: Op)
    requires Late(op)
    ensures var t := Do(r, op);
      && t.facts == r.facts && t.begun == r.begun
      && (r.last.Some? ==> t.last.Some?) && (!r.begun ==> t.last == r.last)
  {
  }

  /** The number of times the sink has been called, once finishing is possible. */
  function Due(r: Recorder): nat {
    if r.facts.Recordable() && r.facts.hasSink && r.begun && r.last.Some? then 1 else 0
  }

  lemma {:induction false} LatePlay(r: Recorder, ops: seq<Op>)
    requires !r.finished && r.sunk == [] && r.begun && r.last.Some?
    requires forall op | op in ops :: Late(op)
    ensures var t := Play(r, ops);
      && t.facts == r.facts && t.begun && t.last.Some?
      && t.finished == (exists op :: op in ops && op.Finish?)
      && |t.sunk| == if t.finished then Due(r) else 0
  {
    if ops != [] {
      var n := |ops| - 1;
      var before, last := ops[..n], ops[n];
      assert forall op | op in before :: op in ops;
      assert last in ops;
      LatePlay(r, before);
      var t := Play(r, before);
      LateKeeps(t, last);
      DoSunk(t, last);
      assert forall op | op in ops :: op in before || op == last;
    }
  }

  /**
   * However the body of a returned response is read, stopped and closed, in whatever order and however often, once it
   * has been closed the sink has heard of the call exactly once if the call is recordable, and never otherwise.
   */
  lemma CallReportedOnce(c: Config, env: nat -> Turn, facts: Facts, events: seq<BodyEvent>)
    requires c.candidates != [] && Run(c, env, 0, 0).final.Returned?
    requires exists e :: e in events && e.CloseBody?
    ensures var r := Play(NewRecorder(facts), Run(c, env, 0, 0).ops + BodyOps(events));
      r.finished && |r.sunk| == if facts.Recordable() && facts.hasSink then 1 else 0
  {
    var run := Run(c, env, 0, 0);
    var r0 := NewRecorder(facts);
    var r := Play(r0, run.ops);
    EngineMatchesRecorder(c, env, facts);
    ReturnedSends(c, env, 0, 0);
    PlayInv(facts, run.ops);
    PlayBegun(c, env, facts);
    BodyOpsLate(events);
    PlayConcat(r0, run.ops, BodyOps(events));
    LatePlay(r, BodyOps(events));
  }

  /** However the body is used, the sink hears of the call at most once. */
  lemma CallReportedAtMostOnce(c: Config, env: nat -> Turn, facts: Facts, events: seq<BodyEvent>)
    requires c.candidates != []
    ensures |Play(NewRecorder(facts), Run(c, env, 0, 0).ops + BodyOps(events)).sunk| <= 1
  {
    SinkAtMostOnce(facts, Run(c, env, 0, 0).ops + BodyOps(events));
  }

  /** A returned response was sent for. */
  lemma {:induction false} ReturnedSends(c: Config, env: nat -> Turn, attempt: nat, base: nat)
    requires base < |c.candidates| && Run(c, env, attempt, base).final.Returned?
    ensures Run(c, env, attempt, base).sends != []
  {
  }

  lemma PlayBegun(c: Config, env: nat -> Turn, facts: Facts)
    requires c.candidates != [] && Run(c, env, 0, 0).sends != []
    ensures var r := Play(NewRecorder(facts), Run(c, env, 0, 0).ops);
      r.begun && r.last.Some? && r.facts == facts
  {
    var r0 := NewRecorder(facts);
    assert Synced(r0, 0, 0);
    RunTold(c, env, r0, 0, 0);
  }
}
