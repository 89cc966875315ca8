// What a whole run of a recorder guarantees, whatever callbacks come in whatever
// order and whichever of them are lost.
module RecorderTheorems {
  import opened Options
  import opened Counters
  import opened CallRecorder
  import opened RecorderProofs

  lemma {:induction false} PlayInv(facts: Facts, ops: seq<Op>)
    ensures Inv(Play(NewRecorder(facts), ops)) && Play(NewRecorder(facts), ops).facts == facts
  {
    if ops != [] {
      PlayInv(facts, ops[..|ops| - 1]);
      DoSunk(Play(NewRecorder(facts), ops[..|ops| - 1]), ops[|ops| - 1]);
      DoInv(Play(NewRecorder(facts), ops[..|ops| - 1]), ops[|ops| - 1]);
    }
  }

  // ---- Refinement: the bounded recorder emits what an unbounded one would ----

  lemma FullPrefix(facts: Facts, history: seq<Attempt>, g: Grain, p: CounterKey, m: Measure)
    requires |history| > MAX_EVENT_ATTEMPTS
    ensures RawTotal(AttemptIncrements(facts, history), g, p, m)
      == RawTotal(AttemptIncrements(facts, history[..MAX_EVENT_ATTEMPTS]), g, p, m)
         + RawTotal(AttemptIncrements(facts, history[MAX_EVENT_ATTEMPTS..]), g, p, m)
  {
    assert AttemptIncrements(facts, history)
      == AttemptIncrements(facts, history[..MAX_EVENT_ATTEMPTS]) + AttemptIncrements(facts, history[MAX_EVENT_ATTEMPTS..]);
    RawConcat(AttemptIncrements(facts, history[..MAX_EVENT_ATTEMPTS]),
              AttemptIncrements(facts, history[MAX_EVENT_ATTEMPTS..]), g, p, m);
  }

  /** What finishing hands over: the event, the request row, and the attempt rows kept and folded. */
  lemma FinishParts(r: Recorder, t: Recorder, totalMS: int)
    requires Inv(r) && Emits(r) && t == FoldOverflow(r.(finished := true))
    ensures Shape(t) && OverflowOk(t) && t == r.(finished := true, foldedIndex := t.foldedIndex, overflow := t.overflow)
    ensures |t.history| > MAX_EVENT_ATTEMPTS ==> Settled(t) == |t.history|
    ensures DoFinish(r, totalMS).sunk == [EmissionOf(t, totalMS)]
  {
    FoldSettles(r.(finished := true));
    assert r.sunk == [];
  }

  /** The emitted attempt rows total, for every class of key and every measure, what one row per attempt would. */
  lemma EmittedTotals(r: Recorder, totalMS: int, g: Grain, p: CounterKey, m: Measure)
    requires Inv(r) && Emits(r)
    ensures |DoFinish(r, totalMS).sunk| == 1
    ensures var e := DoFinish(r, totalMS).sunk[0];
      && e.event.attempts == r.history[..Min(MAX_EVENT_ATTEMPTS, |r.history|)]
      && e.counters[0] == RequestIncrement(r, totalMS) && e.counters[0].counts.attempts == |r.history|
      && RawTotal(e.counters[1..], g, p, m) == RawTotal(AttemptIncrements(r.facts, r.history), g, p, m)
  {
    var t := FoldOverflow(r.(finished := true));
    FinishParts(r, t, totalMS);
    EmissionAlike(r, t, totalMS);
    RawConcat(AttemptIncrements(r.facts, r.attempts), OverflowIncrements(t.overflow), g, p, m);
    SettledTotals(t, g, p, m);
  }

  lemma OverflowTotals(t: Recorder, g: Grain, p: CounterKey, m: Measure)
    requires OverflowOk(t) && |t.history| > MAX_EVENT_ATTEMPTS && Settled(t) == |t.history|
    ensures RawTotal(OverflowIncrements(t.overflow), g, p, m)
      == RawTotal(AttemptIncrements(t.facts, t.history[MAX_EVENT_ATTEMPTS..]), g, p, m)
  {
    SettledTotal(t, g, p, m);
    assert t.history[MAX_EVENT_ATTEMPTS..|t.history|] == t.history[MAX_EVENT_ATTEMPTS..];
  }

  /** Once the last record is settled, the kept attempts and the overflow together total the history. */
  lemma SettledTotals(t: Recorder, g: Grain, p: CounterKey, m: Measure)
    requires Shape(t) && OverflowOk(t)
    requires |t.history| > MAX_EVENT_ATTEMPTS ==> Settled(t) == |t.history|
    ensures RawTotal(AttemptIncrements(t.facts, t.attempts), g, p, m) + RawTotal(OverflowIncrements(t.overflow), g, p, m)
      == RawTotal(AttemptIncrements(t.facts, t.history), g, p, m)
  {
    if |t.history| > MAX_EVENT_ATTEMPTS {
      FullPrefix(t.facts, t.history, g, p, m);
      OverflowTotals(t, g, p, m);
    } else {
      assert OverflowIncrements([]) == [];
      assert t.attempts == t.history;
    }
  }

  /** Folding changes nothing the event and the request row are made of. */
  lemma EmissionAlike(r: Recorder, t: Recorder, totalMS: int)
    requires r.last.Some?
    requires t == r.(finished := true, foldedIndex := t.foldedIndex, overflow := t.overflow)
    ensures EmissionOf(t, totalMS).event == EventOf(r, totalMS)
    ensures EmissionOf(t, totalMS).counters[0] == RequestIncrement(r, totalMS)
    ensures EmissionOf(t, totalMS).counters[1..] == AttemptIncrements(r.facts, r.attempts) + OverflowIncrements(t.overflow)
  {
    assert RequestIncrement(t, totalMS) == RequestIncrement(r, totalMS);
  }

  function KeysOf(facts: Facts, attempts: seq<Attempt>): (r: seq<CounterKey>)
    ensures |r| == |attempts|
    ensures forall i | 0 <= i < |attempts| :: r[i] == AttemptKey(facts, attempts[i])
  {
    seq(|attempts|, i requires 0 <= i < |attempts| => AttemptKey(facts, attempts[i]))
  }

  function MovedOnly(attempts: seq<Attempt>): seq<Attempt> {
    if attempts == [] then [] else (if attempts[0].moved then [attempts[0]] else []) + MovedOnly(attempts[1..])
  }

  lemma RawCons(facts: Facts, attempts: seq<Attempt>, key: CounterKey, m: Measure)
    requires attempts != []
    ensures RawTotal(AttemptIncrements(facts, attempts), Exact, key, m)
      == (if AttemptKey(facts, attempts[0]) == key then Amount(AttemptIncrement(facts, attempts[0]).counts, m) else 0)
         + RawTotal(AttemptIncrements(facts, attempts[1..]), Exact, key, m)
  {
    assert AttemptIncrements(facts, attempts)[1..] == AttemptIncrements(facts, attempts[1..]);
  }

  lemma KeysCons(facts: Facts, a: Attempt, rest: seq<Attempt>, key: CounterKey)
    ensures multiset(KeysOf(facts, [a] + rest))[key]
      == multiset(KeysOf(facts, rest))[key] + if AttemptKey(facts, a) == key then 1 else 0
  {
    assert KeysOf(facts, [a] + rest) == [AttemptKey(facts, a)] + KeysOf(facts, rest);
  }

  lemma {:induction false} KeyCounts(facts: Facts, attempts: seq<Attempt>, key: CounterKey)
    ensures RawTotal(AttemptIncrements(facts, attempts), Exact, key, Attempts) == multiset(KeysOf(facts, attempts))[key]
    ensures RawTotal(AttemptIncrements(facts, attempts), Exact, key, Requests) == multiset(KeysOf(facts, attempts))[key]
  {
    if attempts != [] {
      var a, rest := attempts[0], attempts[1..];
      KeyCounts(facts, rest, key);
      RawCons(facts, attempts, key, Attempts);
      RawCons(facts, attempts, key, Requests);
      KeysCons(facts, a, rest, key);
      assert attempts == [a] + rest;
    }
  }

  lemma MovedCons(facts: Facts, attempts: seq<Attempt>, key: CounterKey)
    requires attempts != []
    ensures multiset(KeysOf(facts, MovedOnly(attempts)))[key]
      == multiset(KeysOf(facts, MovedOnly(attempts[1..])))[key]
         + if attempts[0].moved && AttemptKey(facts, attempts[0]) == key then 1 else 0
  {
    var a, rest := attempts[0], MovedOnly(attempts[1..]);
    if a.moved {
      KeysCons(facts, a, rest, key);
    } else {
      assert [] + rest == rest;
    }
  }

  lemma {:induction false} MovedCounts(facts: Facts, attempts: seq<Attempt>, key: CounterKey)
    ensures RawTotal(AttemptIncrements(facts, attempts), Exact, key, FailoverUsed)
      == multiset(KeysOf(facts, MovedOnly(attempts)))[key]
  {
    if attempts != [] {
      MovedCounts(facts, attempts[1..], key);
      RawCons(facts, attempts, key, FailoverUsed);
      MovedCons(facts, attempts, key);
    }
  }

  /**
   * At the first finish of any run, for every key, the attempt rows handed to the sink count exactly the attempts
   * whose latest record has that key, and exactly those of them after which the call moved.
   */
  lemma RunCounts(facts: Facts, ops: seq<Op>, totalMS: int, key: CounterKey)
    requires Emits(Play(NewRecorder(facts), ops))
    ensures var r := Play(NewRecorder(facts), ops);
      var sunk := DoFinish(r, totalMS).sunk;
      && |sunk| == 1
      && |sunk[0].event.attempts| <= MAX_EVENT_ATTEMPTS
      && sunk[0].counters[0].counts.attempts == |r.history|
      && RawTotal(sunk[0].counters[1..], Exact, key, Attempts) == multiset(KeysOf(facts, r.history))[key]
      && RawTotal(sunk[0].counters[1..], Exact, key, Requests) == multiset(KeysOf(facts, r.history))[key]
      && RawTotal(sunk[0].counters[1..], Exact, key, FailoverUsed) == multiset(KeysOf(facts, MovedOnly(r.history)))[key]
  {
    PlayInv(facts, ops);
    var r := Play(NewRecorder(facts), ops);
    EmittedTotals(r, totalMS, Exact, key, Attempts);
    EmittedTotals(r, totalMS, Exact, key, Requests);
    EmittedTotals(r, totalMS, Exact, key, FailoverUsed);
    KeyCounts(facts, r.history, key);
    MovedCounts(facts, r.history, key);
  }

  // ---- The sink is called at most once ----

  lemma {:induction false} SinkAtMostOnce(facts: Facts, ops: seq<Op>)
    ensures var r := Play(NewRecorder(facts), ops);
      |r.sunk| <= if r.finished then 1 else 0
  {
    if ops != [] {
      var before := ops[..|ops| - 1];
      SinkAtMostOnce(facts, before);
      var r := Play(NewRecorder(facts), before);
      DoSunk(r, ops[|ops| - 1]);
    }
  }

  /** Only the first finish gives the sink anything. */
  lemma DoSunk(r: Recorder, op: Op)
    ensures var t := Do(r, op);
      && (r.finished || !op.Finish? ==> t.sunk == r.sunk && t.finished == r.finished)
      && (op.Finish? ==> t.finished && |t.sunk| == |r.sunk| + if Emits(r) then 1 else 0)
      && t.facts == r.facts
  {
    match op
    case Begin(host, ms, fault) => BeginIsFold(r, host, ms, fault);
    case _ =>
  }

  // ---- Headers ----

  /** The number of attempts a run has begun. */
  function Begins(ops: seq<Op>): nat {
    if ops == [] then 0 else Begins(ops[..|ops| - 1]) + if ops[|ops| - 1].Begin? then 1 else 0
  }

  lemma {:induction false} PlayIndex(facts: Facts, ops: seq<Op>)
    ensures Play(NewRecorder(facts), ops).nextIndex == Begins(ops)
    ensures Begins(ops) > 0 ==> Play(NewRecorder(facts), ops).currentIndex == Begins(ops) - 1
  {
    if ops != [] {
      var before, last := ops[..|ops| - 1], ops[|ops| - 1];
      PlayIndex(facts, before);
      DoIndex(Play(NewRecorder(facts), before), last);
    }
  }

  lemma DoIndex(r: Recorder, op: Op)
    ensures var t := Do(r, op);
      if op.Begin? then t.currentIndex == r.nextIndex && t.nextIndex == r.nextIndex + 1
      else t.currentIndex == r.currentIndex && t.nextIndex == r.nextIndex
  {
    match op
    case Begin(host, ms, fault) => BeginIsFold(r, host, ms, fault);
    case _ =>
  }

  /** Records of attempts no longer in flight. */
  ghost predicate Final(r: Recorder, t: Recorder) {
    forall i | 0 <= i < |r.history| && r.history[i].index < r.currentIndex ::
      i < |t.history| && t.history[i] == r.history[i]
  }

  lemma StoreFinal(r: Recorder, a: Attempt)
    requires a.index == r.currentIndex
    ensures Final(r, Store(r, a)) && |Store(r, a).history| >= |r.history|
  {
  }

  lemma MovedFinal(r: Recorder)
    requires Inv(r)
    ensures Final(r, DoMoved(r))
  {
  }

  lemma BeginFinal(r: Recorder, host: string, ms: int, fault: bool)
    requires Inv(r)
    ensures Final(r, DoBegin(r, host, ms, fault))
  {
    BeginIsFold(r, host, ms, fault);
  }

  lemma StoreBegunFinal(r: Recorder, a: Attempt)
    requires a.index == r.currentIndex
    ensures Final(r, StoreBegun(r, a))
  {
    StoreFinal(r, a);
  }

  lemma DoFinal(r: Recorder, op: Op)
    requires Inv(r)
    ensures Final(r, Do(r, op))
  {
    match op
    case Begin(host, ms, fault) => BeginFinal(r, host, ms, fault);
    case Response(status, retry, after, id, ms) => StoreBegunFinal(r, ResponseRecord(r, status, retry, after, id, ms));
    case TransportError(e, timedOut, headers, body, ms) =>
      StoreBegunFinal(r, TransportRecord(r, e, timedOut, headers, body, ms));
    case Moved => MovedFinal(r);
    case Aborted(ms) => StoreBegunFinal(r, AbortRecord(r, ms));
    case _ => OthersFinal(r, op);
  }

  lemma OthersFinal(r: Recorder, op: Op)
    requires op.FirstEvent? || op.Exhausted? || op.Finish? || op.Lost?
    ensures Do(r, op).history == r.history && Final(r, Do(r, op))
  {
  }

  lemma FinalTrans(r: Recorder, t: Recorder, u: Recorder)
    requires Final(r, t) && Final(t, u) && t.currentIndex >= r.currentIndex
    ensures Final(r, u)
  {
  }

  lemma IndexGrows(r: Recorder, op: Op)
    requires Inv(r)
    ensures Do(r, op).currentIndex >= r.currentIndex
  {
    DoIndex(r, op);
  }

  lemma {:induction false} PlayFinal(r: Recorder, ops: seq<Op>)
    requires Inv(r)
    ensures Inv(Play(r, ops)) && Final(r, Play(r, ops)) && Play(r, ops).currentIndex >= r.currentIndex
  {
    if ops != [] {
      var before, last := ops[..|ops| - 1], ops[|ops| - 1];
      PlayFinal(r, before);
      var t := Play(r, before);
      DoInv(t, last);
      DoFinal(t, last);
      IndexGrows(t, last);
      FinalTrans(r, t, Do(t, last));
    }
  }

  lemma {:induction false} PlayConcat(r: Recorder, a: seq<Op>, b: seq<Op>)
    ensures Play(r, a + b) == Play(Play(r, a), b)
  {
    if b == [] {
      assert a + b == a;
    } else {
      assert (a + b)[..|a + b| - 1] == a + b[..|b| - 1];
      PlayConcat(r, a, b[..|b| - 1]);
    }
  }

  /** A header is about the record of the attempt just before it, and no other. */
  lemma HeaderTrue(r: Recorder)
    requires Inv(r) && HeaderValue(r).Some?
    ensures var h := HeaderValue(r).value;
      && h.attempt == r.currentIndex <= 99
      && (h.previous.Some? <==> h.attempt > 0)
      && (h.previous.Some? ==>
            && r.history != [] && r.history[|r.history| - 1].index == h.attempt - 1
            && h.previous.value == Describe(r.history[|r.history| - 1], r.sinceFirstMS)
            && h.failoverUsed == r.failoverUsed)
  {
  }

  /**
   * In any run, the header an attempt carries is numbered by the attempts begun before it, so numbers strictly
   * increase; and if it reports a previous attempt, it reports what the run's final history says of exactly that one.
   */
  lemma HeadersHonest(facts: Facts, first: seq<Op>, rest: seq<Op>)
    requires first != [] && first[|first| - 1].Begin?
    requires HeaderValue(Play(NewRecorder(facts), first)).Some?
    ensures var r := Play(NewRecorder(facts), first);
      var h, history := HeaderValue(r).value, Play(NewRecorder(facts), first + rest).history;
      && h.attempt == Begins(first[..|first| - 1])
      && HeaderIn(h, r.sinceFirstMS, history)
  {
    PlayInv(facts, first);
    PlayIndex(facts, first);
    PlayConcat(NewRecorder(facts), first, rest);
    HeaderLasts(Play(NewRecorder(facts), first), rest);
  }

  /** What a header says stays in the history whatever comes later. */
  lemma HeaderLasts(r: Recorder, ops: seq<Op>)
    requires Inv(r) && HeaderValue(r).Some?
    ensures HeaderValue(r).value.attempt == r.currentIndex
    ensures HeaderIn(HeaderValue(r).value, r.sinceFirstMS, Play(r, ops).history)
  {
    PlayFinal(r, ops);
    HeaderStays(r, Play(r, ops));
  }

  /** What the header says of the attempt before it, the history says of that attempt. */
  ghost predicate HeaderIn(h: Header, sinceFirstMS: int, history: seq<Attempt>) {
    h.attempt > 0 ==> exists j :: 0 <= j < |history| && history[j].index == h.attempt - 1
                                   && h.previous == Some(Describe(history[j], sinceFirstMS))
  }

  lemma HeaderStays(r: Recorder, t: Recorder)
    requires Inv(r) && HeaderValue(r).Some? && Final(r, t)
    ensures HeaderIn(HeaderValue(r).value, r.sinceFirstMS, t.history)
  {
    HeaderTrue(r);
    if HeaderValue(r).value.attempt > 0 {
      var j := |r.history| - 1;
      assert t.history[j] == r.history[j];
    }
  }
}
