// The engine and the recorder agree: what a run sends is what the recorder has
// recorded of it, and the sink hears of each call at most once.
module EngineCoupling {
  import opened Options
  import opened Counters
  import opened CallRecorder
  import opened RecorderProofs
  import opened RecorderTheorems
  import opened RetryPolicy
  import opened Engine

  function HostsOf(history: seq<Attempt>): (r: seq<string>)
    ensures |r| == |history| && forall i | 0 <= i < |r| :: r[i] == history[i].host
  {
    seq(|history|, i requires 0 <= i < |history| => history[i].host)
  }

  function SendHosts(sends: seq<Send>): (r: seq<string>)
    ensures |r| == |sends| && forall i | 0 <= i < |r| :: r[i] == sends[i].candidate.host
  {
    seq(|sends|, i requires 0 <= i < |sends| => sends[i].candidate.host)
  }

  function Moves(history: seq<Attempt>): nat {
    |MovedOnly(history)|
  }

  lemma {:induction false} MovesSnoc(history: seq<Attempt>, a: Attempt)
    ensures Moves(history + [a]) == Moves(history) + if a.moved then 1 else 0
  {
    if history == [] {
      assert history + [a] == [a] && [a][1..] == [];
    } else {
      assert (history + [a])[1..] == history[1..] + [a];
      MovesSnoc(history[1..], a);
    }
  }

  lemma MovesReplaceLast(history: seq<Attempt>, a: Attempt)
    requires history != []
    ensures var n := |history| - 1;
      Moves(history[n := a]) == Moves(history) + (if a.moved then 1 else 0) - (if history[n].moved then 1 else 0)
  {
    var n := |history| - 1;
    assert history == history[..n] + [history[n]];
    assert history[n := a] == history[..n] + [a];
    MovesSnoc(history[..n], history[n]);
    MovesSnoc(history[..n], a);
  }

  /** The recorder after `attempt` sends, of which the last went to candidate `base`. */
  ghost predicate Synced(r: Recorder, attempt: nat, base: nat) {
    && Shape(r) && !r.finished
    && |r.history| == attempt == r.nextIndex
    && (forall i | 0 <= i < attempt :: r.history[i].index == i)
    && (attempt > 0 ==> r.begun && r.currentIndex == attempt - 1 && r.currentHost == r.history[attempt - 1].host)
    && Moves(r.history) == base
    && (r.failoverUsed <==> base > 0)
  }

  /** What stays as it was. */
  ghost predicate Alike(r: Recorder, t: Recorder) {
    t.facts == r.facts && t.finished == r.finished && t.sunk == r.sunk && t.failoverUsed == r.failoverUsed
  }

  lemma Two(r: Recorder, a: Op, b: Op)
    ensures Play(r, [a, b]) == Do(Do(r, a), b) && Play(r, [a]) == Do(r, a) && Play(r, []) == r
  {
    assert [a, b][..1] == [a] && [a][..0] == [];
    assert Play(r, []) == r;
    assert Play(r, [a]) == Do(r, a);
    assert Play(r, [a, b]) == Do(Play(r, [a]), b);
  }

  /** An attempt has begun on a host, and nothing is recorded of it yet. */
  ghost predicate Starting(r: Recorder, u: Recorder, host: string, attempt: nat) {
    && Shape(u) && Alike(r, u) && u.history == r.history
    && u.begun && u.currentIndex == attempt && u.nextIndex == attempt + 1 && u.currentHost == host
  }

  lemma BeginEffect(r: Recorder, host: string, ms: int, attempt: nat, base: nat)
    requires Synced(r, attempt, base)
    ensures Starting(r, Do(r, Begin(host, ms, false)), host, attempt)
    ensures CurrentRecord(Do(r, Begin(host, ms, false))) == None
  {
    BeginIsFold(r, host, ms, false);
    assert forall a | a in r.history :: a.index < attempt + 1;
  }

  /** Storing the first record of the attempt in flight appends it. */
  lemma StoreEffect(r: Recorder, u: Recorder, a: Attempt, attempt: nat, base: nat)
    requires Synced(r, attempt, base) && Starting(r, u, a.host, attempt)
    requires a.index == attempt && !a.moved
    ensures var t := Store(u, a);
      && Synced(t, attempt + 1, base) && Alike(r, t)
      && HostsOf(t.history) == HostsOf(r.history) + [a.host] && !t.history[attempt].moved
  {
    IndexesBelow(r.history, attempt);
    StoreNewShape(u, a);
    MovesSnoc(r.history, Normalise(a));
    HostsSnoc(r.history, Normalise(a));
  }

  lemma IndexesBelow(history: seq<Attempt>, attempt: nat)
    requires |history| == attempt && forall i | 0 <= i < attempt :: history[i].index == i
    ensures forall x | x in history :: x.index < attempt
  {
    forall x | x in history
      ensures x.index < attempt
    {
      var i :| 0 <= i < attempt && history[i] == x;
    }
  }

  lemma HostsSnoc(history: seq<Attempt>, a: Attempt)
    ensures HostsOf(history + [a]) == HostsOf(history) + [a.host]
  {
  }

  /** The record an attempt's answer makes. */
  function AnswerRecord(u: Recorder, t: Turn): Attempt {
    match t.answer
    case NoResponse(error, timedOut, ended) =>
      if ended then AbortRecord(u, t.elapsedMS) else TransportRecord(u, error, timedOut, false, false, t.elapsedMS)
    case Answered(status, _, _, id) =>
      ResponseRecord(u, status, ResponseOp(t).shouldRetry, ResponseOp(t).retryAfterMS, id, t.elapsedMS)
  }

  function AnswerOp(t: Turn): Op {
    match t.answer
    case NoResponse(error, timedOut, ended) =>
      if ended then Aborted(t.elapsedMS) else TransportError(error, timedOut, false, false, t.elapsedMS)
    case Answered(_, _, _, _) => ResponseOp(t)
  }

  lemma AnswerStored(u: Recorder, t: Turn)
    requires u.begun && CurrentRecord(u) == None
    ensures Do(u, AnswerOp(t)) == Store(u, AnswerRecord(u, t))
    ensures var a := AnswerRecord(u, t);
      a.index == u.currentIndex && a.host == u.currentHost && !a.moved
  {
  }

  /** Sending an attempt and hearing of it records it, under the candidate's name. */
  lemma SentEffect(c: Config, t: Turn, r: Recorder, attempt: nat, base: nat)
    requires Synced(r, attempt, base) && base < |c.candidates|
    ensures var s := Play(r, SentOps(c, t, base));
      && Synced(s, attempt + 1, base) && Alike(r, s)
      && HostsOf(s.history) == HostsOf(r.history) + [c.candidates[base].host]
      && !s.history[attempt].moved
  {
    var host, begin := c.candidates[base].host, Begin(c.candidates[base].host, t.sinceFirstMS, false);
    var u := Do(r, begin);
    BeginEffect(r, host, t.sinceFirstMS, attempt, base);
    AnswerStored(u, t);
    assert SentOps(c, t, base) == [begin, AnswerOp(t)];
    Two(r, begin, AnswerOp(t));
    StoreEffect(r, u, AnswerRecord(u, t), attempt, base);
  }

  /** Moving on marks the last record, and only it. */
  lemma MovedEffect(r: Recorder, attempt: nat, base: nat)
    requires Synced(r, attempt, base) && attempt > 0 && !r.history[attempt - 1].moved
    ensures var s := Do(r, Moved);
      && Synced(s, attempt, base + 1) && HostsOf(s.history) == HostsOf(r.history)
      && s.facts == r.facts && s.sunk == r.sunk && s.finished == r.finished
  {
    var last := r.history[attempt - 1];
    var s := Do(r, Moved);
    assert s.history == r.history[attempt - 1 := last.(moved := true)];
    MovesReplaceLast(r.history, last.(moved := true));
    MovedShape(r);
  }

  /** Abandoning the call rewrites the last record's outcome and keeps its place. */
  lemma AbortEffect(r: Recorder, ms: int, attempt: nat, base: nat)
    requires Synced(r, attempt, base)
    ensures var s := Do(r, Aborted(ms));
      Synced(s, attempt, base) && Alike(r, s) && HostsOf(s.history) == HostsOf(r.history)
  {
    if r.begun {
      var a := AbortRecord(r, ms);
      if attempt > 0 {
        StoreAgainShape(r, a);
        var b := Normalise(a);
        assert Store(r, a).history == r.history[attempt - 1 := b];
        MovesReplaceLast(r.history, b);
      }
    }
  }

  /** What a call comes to, as far as the recorder is concerned. */
  ghost predicate Told(r: Recorder, t: Recorder, sends: seq<Send>, base: nat, over: bool) {
    && Shape(t) && t.facts == r.facts
    && HostsOf(t.history) == HostsOf(r.history) + SendHosts(sends)
    && Moves(t.history) == base && (t.failoverUsed <==> base > 0)
    && (t.history != [] ==> t.begun)
    && t.finished == over
    && |t.sunk| == if over && t.facts.Recordable() && t.facts.hasSink && t.history != [] then 1 else 0
  }

  /** Everything but the finish. */
  ghost predicate Ready(r: Recorder, t: Recorder, sends: seq<Send>, base: nat) {
    Told(r, t, sends, base, false)
  }

  lemma SyncedReady(r: Recorder, t: Recorder, sends: seq<Send>, attempt: nat, base: nat)
    requires Synced(t, attempt, base) && t.facts == r.facts && t.sunk == []
    requires HostsOf(t.history) == HostsOf(r.history) + SendHosts(sends)
    ensures Ready(r, t, sends, base)
  {
  }

  lemma FinishTold(r: Recorder, t: Recorder, sends: seq<Send>, base: nat, totalMS: int)
    requires Ready(r, t, sends, base)
    ensures Told(r, DoFinish(t, totalMS), sends, base, true)
  {
    FinishHistory(t, totalMS);
  }

  lemma FinishHistory(t: Recorder, totalMS: int)
    ensures var u := DoFinish(t, totalMS);
      && u.history == t.history && u.failoverUsed == t.failoverUsed && u.begun == t.begun && u.facts == t.facts
      && (Shape(t) ==> Shape(u))
      && (!t.finished ==> u.finished && |u.sunk| == |t.sunk| + if Emits(t) then 1 else 0)
  {
  }

  lemma ExhaustedEffect(r: Recorder, value: bool, attempt: nat, base: nat)
    requires Synced(r, attempt, base)
    ensures var s := Do(r, Exhausted(value));
      Synced(s, attempt, base) && Alike(r, s) && s.history == r.history
  {
  }

  // ---- Runs ----

  /** A call that ends before this attempt is sent. */
  lemma EndUnsent(c: Config, t: Turn, r: Recorder, attempt: nat, base: nat)
    requires Synced(r, attempt, base) && r.sunk == [] && base < |c.candidates|
    ensures Told(r, Play(r, [Aborted(t.elapsedMS), Finish(t.totalMS)]), [], base, true)
    ensures Told(r, Play(r, [Begin(c.candidates[base].host, t.sinceFirstMS, false), Finish(t.totalMS)]), [], base, true)
  {
    EndAborted(t, r, attempt, base);
    EndUnbuilt(c, t, r, attempt, base);
  }

  lemma EndAborted(t: Turn, r: Recorder, attempt: nat, base: nat)
    requires Synced(r, attempt, base) && r.sunk == []
    ensures Told(r, Play(r, [Aborted(t.elapsedMS), Finish(t.totalMS)]), [], base, true)
  {
    assert HostsOf(r.history) + SendHosts([]) == HostsOf(r.history);
    Two(r, Aborted(t.elapsedMS), Finish(t.totalMS));
    AbortEffect(r, t.elapsedMS, attempt, base);
    var a := Do(r, Aborted(t.elapsedMS));
    SyncedReady(r, a, [], attempt, base);
    FinishTold(r, a, [], base, t.totalMS);
  }

  lemma EndUnbuilt(c: Config, t: Turn, r: Recorder, attempt: nat, base: nat)
    requires Synced(r, attempt, base) && r.sunk == [] && base < |c.candidates|
    ensures Told(r, Play(r, [Begin(c.candidates[base].host, t.sinceFirstMS, false), Finish(t.totalMS)]), [], base, true)
  {
    var host := c.candidates[base].host;
    var begin := Begin(host, t.sinceFirstMS, false);
    Two(r, begin, Finish(t.totalMS));
    BeginEffect(r, host, t.sinceFirstMS, attempt, base);
    var u := Do(r, begin);
    assert HostsOf(r.history) + SendHosts([]) == HostsOf(r.history);
    assert Ready(r, u, [], base);
    FinishTold(r, u, [], base, t.totalMS);
  }

  lemma EndExhausted(r: Recorder, s: Recorder, value: bool, sends: seq<Send>, attempt: nat, base: nat, totalMS: int)
    requires Synced(s, attempt, base) && s.facts == r.facts && s.sunk == []
    requires HostsOf(s.history) == HostsOf(r.history) + SendHosts(sends)
    ensures Told(r, Play(s, [Exhausted(value)]), sends, base, false)
    ensures Told(r, Play(s, [Exhausted(value), Finish(totalMS)]), sends, base, true)
  {
    Two(s, Exhausted(value), Finish(totalMS));
    ExhaustedEffect(s, value, attempt, base);
    var u := Do(s, Exhausted(value));
    SyncedReady(r, u, sends, attempt, base);
    FinishTold(r, u, sends, base, totalMS);
  }

  lemma EndFinished(r: Recorder, s: Recorder, sends: seq<Send>, attempt: nat, base: nat, totalMS: int)
    requires Synced(s, attempt, base) && s.facts == r.facts && s.sunk == []
    requires HostsOf(s.history) == HostsOf(r.history) + SendHosts(sends)
    ensures Told(r, Play(s, [Finish(totalMS)]), sends, base, true)
  {
    Two(s, Finish(totalMS), Finish(totalMS));
    SyncedReady(r, s, sends, attempt, base);
    FinishTold(r, s, sends, base, totalMS);
  }

  /** A call that ends with this attempt. */
  lemma EndSent(c: Config, t: Turn, r: Recorder, s: Recorder, sends: seq<Send>, attempt: nat, base: nat)
    requires Synced(s, attempt + 1, base) && s.facts == r.facts && s.sunk == []
    requires HostsOf(s.history) == HostsOf(r.history) + SendHosts(sends)
    ensures Told(r, Play(s, LastOps(c, t, attempt)), sends, base, !LastFinal(t).Returned?)
  {
    var ops, over := LastOps(c, t, attempt), !LastFinal(t).Returned?;
    if ops == [Finish(t.totalMS)] {
      EndFinished(r, s, sends, attempt + 1, base, t.totalMS);
      assert over;
    } else {
      var value := ops[0].value;
      EndExhausted(r, s, value, sends, attempt + 1, base, t.totalMS);
      assert ops == if over then [Exhausted(value), Finish(t.totalMS)] else [Exhausted(value)];
    }
  }

  /** The recorder when the engine has decided to repeat. */
  lemma RepeatEffect(c: Config, t: Turn, r: Recorder, attempt: nat, base: nat)
    requires Synced(r, attempt, base) && r.sunk == [] && base < |c.candidates|
    ensures var s := Play(r, SentOps(c, t, base) + RepeatOps(c, t, base));
      && Synced(s, attempt + 1, NextBase(c, t.answer, base)) && s.facts == r.facts && s.sunk == []
      && HostsOf(s.history) == HostsOf(r.history) + [c.candidates[base].host]
  {
    SentEffect(c, t, r, attempt, base);
    var s := Play(r, SentOps(c, t, base));
    PlayConcat(r, SentOps(c, t, base), RepeatOps(c, t, base));
    Two(s, Moved, Moved);
    if NextBase(c, t.answer, base) != base {
      MovedEffect(s, attempt + 1, base);
    }
  }

  lemma EndInterrupted(t: Turn, r: Recorder, s: Recorder, sends: seq<Send>, attempt: nat, base: nat)
    requires Synced(s, attempt, base) && s.facts == r.facts && s.sunk == []
    requires HostsOf(s.history) == HostsOf(r.history) + SendHosts(sends)
    ensures Told(r, Play(s, [Aborted(t.elapsedMS), Finish(t.totalMS)]), sends, base, true)
  {
    Two(s, Aborted(t.elapsedMS), Finish(t.totalMS));
    AbortEffect(s, t.elapsedMS, attempt, base);
    var u := Do(s, Aborted(t.elapsedMS));
    SyncedReady(r, u, sends, attempt, base);
    FinishTold(r, u, sends, base, t.totalMS);
  }

  lemma ToldMore(r: Recorder, s: Recorder, t: Recorder, send: Send, sends: seq<Send>, base: nat, over: bool)
    requires s.facts == r.facts && HostsOf(s.history) == HostsOf(r.history) + [send.candidate.host]
    requires Told(s, t, sends, base, over)
    ensures Told(r, t, [send] + sends, base, over)
  {
    assert SendHosts([send] + sends) == [send.candidate.host] + SendHosts(sends);
  }

  lemma {:induction false} RunTold(c: Config, env: nat -> Turn, r: Recorder, attempt: nat, base: nat)
    requires Synced(r, attempt, base) && r.sunk == [] && base < |c.candidates|
    ensures var run := Run(c, env, attempt, base);
      Told(r, Play(r, run.ops), run.sends, run.base, !run.final.Returned?)
    decreases c.maxRetries + 1 - attempt
  {
    var t := env(attempt);
    if t.callerEnded || t.buildFails {
      EndUnsent(c, t, r, attempt, base);
    } else {
      var send := Send(attempt, base, c.candidates[base], c.idempotencyKey);
      assert SendHosts([send]) == [send.candidate.host];
      if attempt >= c.maxRetries || !CanRepeat(c, t.answer) {
        SentEffect(c, t, r, attempt, base);
        PlayConcat(r, SentOps(c, t, base), LastOps(c, t, attempt));
        EndSent(c, t, r, Play(r, SentOps(c, t, base)), [send], attempt, base);
      } else {
        RunOn(c, env, r, attempt, base, send);
      }
    }
  }

  /** A turn that asks for a repeat, as it goes on. */
  lemma RunRepeats(c: Config, env: nat -> Turn, attempt: nat, base: nat, send: Send, ops: seq<Op>)
    requires base < |c.candidates| && send == Send(attempt, base, c.candidates[base], c.idempotencyKey)
    requires !env(attempt).callerEnded && !env(attempt).buildFails
    requires attempt < c.maxRetries && CanRepeat(c, env(attempt).answer)
    requires ops == SentOps(c, env(attempt), base) + RepeatOps(c, env(attempt), base)
    ensures var t := env(attempt);
      var next, run := NextBase(c, t.answer, base), Run(c, env, attempt, base);
      && next < |c.candidates|
      && (t.interrupted ==>
            run.sends == [send] && run.ops == ops + [Aborted(t.elapsedMS), Finish(t.totalMS)]
            && run.base == next && run.final == CallerEnded)
      && (!t.interrupted ==>
            var rest := Run(c, env, attempt + 1, next);
            run.sends == [send] + rest.sends && run.ops == ops + rest.ops && run.base == rest.base && run.final == rest.final)
  {
  }

  lemma {:induction false} RunOn(c: Config, env: nat -> Turn, r: Recorder, attempt: nat, base: nat, send: Send)
    requires Synced(r, attempt, base) && r.sunk == [] && base < |c.candidates|
    requires send == Send(attempt, base, c.candidates[base], c.idempotencyKey)
    requires !env(attempt).callerEnded && !env(attempt).buildFails
    requires attempt < c.maxRetries && CanRepeat(c, env(attempt).answer)
    ensures var run := Run(c, env, attempt, base);
      Told(r, Play(r, run.ops), run.sends, run.base, !run.final.Returned?)
    decreases c.maxRetries + 1 - attempt, 0
  {
    var t := env(attempt);
    var next, ops := NextBase(c, t.answer, base), SentOps(c, t, base) + RepeatOps(c, t, base);
    var run, s := Run(c, env, attempt, base), Play(r, ops);
    RunRepeats(c, env, attempt, base, send, ops);
    RepeatEffect(c, t, r, attempt, base);
    assert SendHosts([send]) == [send.candidate.host];
    if t.interrupted {
      PlayConcat(r, ops, [Aborted(t.elapsedMS), Finish(t.totalMS)]);
      EndInterrupted(t, r, s, [send], attempt + 1, next);
    } else {
      var rest := Run(c, env, attempt + 1, next);
      RunTold(c, env, s, attempt + 1, next);
      PlayConcat(r, ops, rest.ops);
      ToldMore(r, s, Play(s, rest.ops), send, rest.sends, rest.base, !rest.final.Returned?);
    }
  }

  /**
   * In every run of a call, the recorder has recorded exactly the attempts sent, each under the name of the candidate
   * it went to; as many of them moved as the final candidate's index; and unless a response was returned the call is
   * finished, and the sink has heard of it once if it is recordable and anything was sent.
   */
  lemma EngineMatchesRecorder(c: Config, env: nat -> Turn, facts: Facts)
    requires c.candidates != []
    ensures var run := Run(c, env, 0, 0);
      var r := Play(NewRecorder(facts), run.ops);
      && |r.history| == |run.sends| == r.recorded
      && (forall j | 0 <= j < |run.sends| :: r.history[j].host == run.sends[j].candidate.host)
      && |MovedOnly(r.history)| == run.base && (r.failoverUsed <==> run.base > 0)
      && r.finished == !run.final.Returned?
      && |r.sunk| == if !run.final.Returned? && facts.Recordable() && facts.hasSink && run.sends != [] then 1 else 0
  {
    var r0 := NewRecorder(facts);
    StartSynced(facts);
    RunTold(c, env, r0, 0, 0);
    var run := Run(c, env, 0, 0);
    ToldFrom(r0, Play(r0, run.ops), run.sends, run.base, !run.final.Returned?);
  }

  lemma StartSynced(facts: Facts)
    ensures Synced(NewRecorder(facts), 0, 0) && NewRecorder(facts).sunk == [] && NewRecorder(facts).history == []
  {
  }

  lemma ToldFrom(r: Recorder, t: Recorder, sends: seq<Send>, base: nat, over: bool)
    requires Told(r, t, sends, base, over) && r.history == []
    ensures |t.history| == |sends| == t.recorded
    ensures forall j | 0 <= j < |sends| :: t.history[j].host == sends[j].candidate.host
    ensures |MovedOnly(t.history)| == base
    ensures |t.sunk| == if over && r.facts.Recordable() && r.facts.hasSink && sends != [] then 1 else 0
  {
    assert HostsOf(t.history) == SendHosts(sends);
    forall j | 0 <= j < |sends|
      ensures t.history[j].host == sends[j].candidate.host
    {
      assert HostsOf(t.history)[j] == SendHosts(sends)[j];
    }
  }
}
