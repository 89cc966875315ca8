// The bounded recorder counts what an unbounded one would, and its headers are
// true of the attempts they describe.
module RecorderProofs {
  import opened Options
  import opened Counters
  import opened CallRecorder

  // ---- Totals of increments as they stand ----

  /** The total of measure m over the increments whose key coarsens to p. */
  function RawTotal(incs: seq<Increment>, g: Grain, p: CounterKey, m: Measure): int {
    if incs == [] then 0
    else (if Coarsen(g, incs[0].key) == p then Amount(incs[0].counts, m) else 0) + RawTotal(incs[1..], g, p, m)
  }

  lemma {:induction false} RawConcat(a: seq<Increment>, b: seq<Increment>, g: Grain, p: CounterKey, m: Measure)
    ensures RawTotal(a + b, g, p, m) == RawTotal(a, g, p, m) + RawTotal(b, g, p, m)
  {
    if a == [] {
      assert a + b == b;
    } else {
      assert (a + b)[1..] == a[1..] + b;
      RawConcat(a[1..], b, g, p, m);
    }
  }

  lemma RawOne(inc: Increment, g: Grain, p: CounterKey, m: Measure)
    ensures RawTotal([inc], g, p, m) == if Coarsen(g, inc.key) == p then Amount(inc.counts, m) else 0
  {
    assert [inc][1..] == [];
  }

  lemma RawReplace(incs: seq<Increment>, i: nat, inc: Increment, g: Grain, p: CounterKey, m: Measure)
    requires i < |incs| && inc.key == incs[i].key
    ensures RawTotal(incs[i := inc], g, p, m)
      == RawTotal(incs, g, p, m)
         + if Coarsen(g, inc.key) == p then Amount(inc.counts, m) - Amount(incs[i].counts, m) else 0
  {
    assert incs == incs[..i] + ([incs[i]] + incs[i + 1..]);
    assert incs[i := inc] == incs[..i] + ([inc] + incs[i + 1..]);
    RawConcat(incs[..i], [incs[i]] + incs[i + 1..], g, p, m);
    RawConcat(incs[..i], [inc] + incs[i + 1..], g, p, m);
    RawConcat([incs[i]], incs[i + 1..], g, p, m);
    RawConcat([inc], incs[i + 1..], g, p, m);
    RawOne(incs[i], g, p, m);
    RawOne(inc, g, p, m);
  }

  /** Folding one attempt adds exactly its own increment. */
  lemma FoldAdds(facts: Facts, overflow: seq<OverflowEntry>, a: Attempt, g: Grain, p: CounterKey, m: Measure)
    ensures RawTotal(OverflowIncrements(FoldInto(overflow, AttemptKey(facts, a), a.moved)), g, p, m)
      == RawTotal(OverflowIncrements(overflow), g, p, m) + RawTotal([AttemptIncrement(facts, a)], g, p, m)
  {
    var key, incs := AttemptKey(facts, a), OverflowIncrements(overflow);
    var folded := FoldInto(overflow, key, a.moved);
    var i := FindEntry(overflow, key);
    RawOne(AttemptIncrement(facts, a), g, p, m);
    if i < |overflow| {
      var inc := Increment(key, Counts(folded[i].attempts, folded[i].moved));
      assert OverflowIncrements(folded) == incs[i := inc];
      RawReplace(incs, i, inc, g, p, m);
    } else {
      assert OverflowIncrements(folded) == incs + [AttemptIncrement(facts, a)];
      RawConcat(incs, [AttemptIncrement(facts, a)], g, p, m);
    }
  }

  // ---- The invariant that ties the bounded recorder to the history ----

  ghost predicate Ordered(history: seq<Attempt>) {
    forall i, j | 0 <= i < j < |history| :: history[i].index < history[j].index
  }

  /** How many records of the history are accounted for outside the last one: kept in full, or folded. */
  function Settled(r: Recorder): nat {
    if r.history == [] then 0
    else if r.last.Some? && r.last.value.index == r.foldedIndex then |r.history| else |r.history| - 1
  }

  /** Past the cap, the overflow counts are those of the settled records. */
  ghost predicate OverflowOk(r: Recorder) {
    if Settled(r) <= MAX_EVENT_ATTEMPTS then r.overflow == []
    else forall g: Grain, p: CounterKey, m: Measure ::
      RawTotal(OverflowIncrements(r.overflow), g, p, m)
      == RawTotal(AttemptIncrements(r.facts, r.history[MAX_EVENT_ATTEMPTS..Settled(r)]), g, p, m)
  }

  ghost predicate Shape(r: Recorder) {
    && Ordered(r.history)
    && r.recorded == |r.history|
    && r.attempts == r.history[..Min(MAX_EVENT_ATTEMPTS, |r.history|)]
    && r.last == (if r.history == [] then None else Some(r.history[|r.history| - 1]))
    && (forall a | a in r.history :: a.index < r.nextIndex)
    && (r.begun ==> r.nextIndex == r.currentIndex + 1)
    && (!r.begun ==> r.nextIndex == 0 && r.currentIndex == 0)
  }

  /** The last record is folded exactly when it is past the cap and its attempt no longer in flight. */
  ghost predicate FoldOk(r: Recorder) {
    && (if r.begun then r.foldedIndex < r.currentIndex else r.foldedIndex == -1)
    && (r.last.Some? ==>
          (r.last.value.index == r.foldedIndex <==>
             (|r.history| > MAX_EVENT_ATTEMPTS && r.last.value.index < r.currentIndex)))
  }

  ghost predicate Inv(r: Recorder) {
    Shape(r) && (!r.finished ==> OverflowOk(r) && FoldOk(r) && r.sunk == [])
  }

  lemma HoldsIff(r: Recorder)
    requires Shape(r) && r.history != []
    ensures Holds(r.attempts, r.last.value.index) <==> |r.history| <= MAX_EVENT_ATTEMPTS
  {
    var n := |r.history|;
    if n <= MAX_EVENT_ATTEMPTS {
      assert r.attempts == r.history && r.history[n - 1] in r.history;
    } else {
      forall i | 0 <= i < |r.attempts|
        ensures r.attempts[i].index != r.last.value.index
      {
        assert r.attempts[i] == r.history[i] && r.history[i].index < r.history[n - 1].index;
      }
    }
  }

  lemma IncrementsSnoc(facts: Facts, xs: seq<Attempt>, a: Attempt)
    ensures AttemptIncrements(facts, xs + [a]) == AttemptIncrements(facts, xs) + [AttemptIncrement(facts, a)]
  {
  }

  /** Once the last record is closed, folding it settles the whole history. */
  lemma FoldSettles(r: Recorder)
    requires Shape(r) && OverflowOk(r)
    requires r.last.Some? && |r.history| > MAX_EVENT_ATTEMPTS ==>
      (r.last.value.index == r.foldedIndex ==> Settled(r) == |r.history|)
    requires r.last.Some? && r.last.value.index == r.foldedIndex ==> |r.history| > MAX_EVENT_ATTEMPTS
    ensures var t := FoldOverflow(r);
      && Shape(t) && OverflowOk(t)
      && t == r.(foldedIndex := t.foldedIndex, overflow := t.overflow)
      && (if |r.history| > MAX_EVENT_ATTEMPTS then t.foldedIndex == r.last.value.index && Settled(t) == |r.history|
          else t == r)
  {
    if r.history != [] {
      HoldsIff(r);
      var n := |r.history|;
      if n > MAX_EVENT_ATTEMPTS && r.last.value.index != r.foldedIndex {
        var t := FoldOverflow(r);
        forall g: Grain, p: CounterKey, m: Measure
          ensures RawTotal(OverflowIncrements(t.overflow), g, p, m)
            == RawTotal(AttemptIncrements(t.facts, t.history[MAX_EVENT_ATTEMPTS..n]), g, p, m)
        {
          FoldTotal(r, g, p, m);
          assert r.history[MAX_EVENT_ATTEMPTS..n] == r.history[MAX_EVENT_ATTEMPTS..];
        }
      }
    }
  }

  lemma FoldTotal(r: Recorder, g: Grain, p: CounterKey, m: Measure)
    requires OverflowOk(r) && |r.history| > MAX_EVENT_ATTEMPTS && Settled(r) == |r.history| - 1
    ensures var last := r.history[|r.history| - 1];
      RawTotal(OverflowIncrements(FoldInto(r.overflow, AttemptKey(r.facts, last), last.moved)), g, p, m)
      == RawTotal(AttemptIncrements(r.facts, r.history[MAX_EVENT_ATTEMPTS..]), g, p, m)
  {
    var n := |r.history|;
    var before, last := r.history[MAX_EVENT_ATTEMPTS..n - 1], r.history[n - 1];
    assert r.history[MAX_EVENT_ATTEMPTS..] == before + [last];
    IncrementsSnoc(r.facts, before, last);
    FoldAdds(r.facts, r.overflow, last, g, p, m);
    RawConcat(AttemptIncrements(r.facts, before), [AttemptIncrement(r.facts, last)], g, p, m);
    SettledTotal(r, g, p, m);
  }

  lemma SettledTotal(r: Recorder, g: Grain, p: CounterKey, m: Measure)
    requires OverflowOk(r) && MAX_EVENT_ATTEMPTS <= Settled(r) <= |r.history|
    ensures RawTotal(OverflowIncrements(r.overflow), g, p, m)
      == RawTotal(AttemptIncrements(r.facts, r.history[MAX_EVENT_ATTEMPTS..Settled(r)]), g, p, m)
  {
  }

  // ---- Every operation keeps the invariant ----

  /** The state of a call as an attempt begins, before the last record is folded. */
  function Begun(r: Recorder, host: string, sinceFirstMS: int, hostFault: bool): Recorder {
    r.(currentIndex := r.nextIndex, nextIndex := r.nextIndex + 1, begun := true,
       sinceFirstMS := if r.begun then sinceFirstMS else 0, currentHost := if hostFault then CUSTOM else host)
  }

  lemma BegunShape(r: Recorder, host: string, sinceFirstMS: int, hostFault: bool)
    requires Inv(r)
    ensures var t := Begun(r, host, sinceFirstMS, hostFault);
      && Shape(t) && (!r.finished ==> OverflowOk(t) && t.foldedIndex < t.currentIndex)
      && (r.last.Some? ==> r.last.value.index < t.currentIndex)
      && (!r.finished && r.last.Some? && r.last.value.index == r.foldedIndex ==> |r.history| > MAX_EVENT_ATTEMPTS)
  {
    if r.history != [] {
      assert r.history[|r.history| - 1] in r.history;
    }
    var t := Begun(r, host, sinceFirstMS, hostFault);
    assert Settled(t) == Settled(r);
  }

  lemma BeginIsFold(r: Recorder, host: string, sinceFirstMS: int, hostFault: bool)
    ensures DoBegin(r, host, sinceFirstMS, hostFault) == FoldOverflow(Begun(r, host, sinceFirstMS, hostFault))
  {
  }

  lemma BeginInv(r: Recorder, host: string, sinceFirstMS: int, hostFault: bool)
    requires Inv(r)
    ensures Inv(DoBegin(r, host, sinceFirstMS, hostFault))
    ensures DoBegin(r, host, sinceFirstMS, hostFault).history == r.history
  {
    BegunShape(r, host, sinceFirstMS, hostFault);
    BeginIsFold(r, host, sinceFirstMS, hostFault);
    if !r.finished {
      FoldSettles(Begun(r, host, sinceFirstMS, hostFault));
    }
  }

  lemma ReplaceLast(history: seq<Attempt>, a: Attempt)
    requires history != [] && Ordered(history) && history[|history| - 1].index == a.index
    ensures Replace(history, a) == history[|history| - 1 := a]
    ensures forall n: nat | n < |history| :: Replace(history[..n], a) == history[..n]
    ensures StoreIn(history, a) == history[|history| - 1 := a] && Ordered(StoreIn(history, a))
  {
    assert forall i | 0 <= i < |history| - 1 :: history[i].index < a.index;
  }

  lemma StoreAgainShape(r: Recorder, a: Attempt)
    requires Shape(r) && r.begun && a.index == r.currentIndex
    requires r.last.Some? && r.last.value.index == a.index
    ensures Shape(Store(r, a))
    ensures Store(r, a).history == r.history[|r.history| - 1 := Normalise(a)]
  {
    var t, n, b := Store(r, a), |r.history|, Normalise(a);
    ReplaceLast(r.history, b);
    HoldsIff(r);
    assert n <= MAX_EVENT_ATTEMPTS ==> r.attempts == r.history;
    if n > MAX_EVENT_ATTEMPTS {
      assert t.attempts == r.attempts == r.history[..MAX_EVENT_ATTEMPTS] == t.history[..MAX_EVENT_ATTEMPTS];
    }
    assert forall x | x in t.history :: x in r.history || x == b;
  }

  lemma StoreAgain(r: Recorder, a: Attempt)
    requires Inv(r) && r.begun && a.index == r.currentIndex
    requires r.last.Some? && r.last.value.index == a.index
    ensures Inv(Store(r, a))
  {
    var t, n := Store(r, a), |r.history|;
    StoreAgainShape(r, a);
    if n > MAX_EVENT_ATTEMPTS {
      assert t.history[MAX_EVENT_ATTEMPTS..n - 1] == r.history[MAX_EVENT_ATTEMPTS..n - 1];
    }
  }

  lemma OlderThan(history: seq<Attempt>, index: nat)
    requires Ordered(history)
    requires history != [] ==> history[|history| - 1].index < index
    ensures forall x | x in history :: x.index < index
  {
    forall x | x in history
      ensures x.index < index
    {
      var i :| 0 <= i < |history| && history[i] == x;
      assert i < |history| - 1 ==> history[i].index < history[|history| - 1].index;
    }
  }

  lemma StoreNewShape(r: Recorder, a: Attempt)
    requires Shape(r) && r.begun && a.index == r.currentIndex
    requires forall x | x in r.history :: x.index < a.index
    ensures Shape(Store(r, a)) && Store(r, a).history == r.history + [Normalise(a)]
  {
    var t, n, b := Store(r, a), |r.history|, Normalise(a);
    assert forall x | x in r.attempts :: x in r.history;
    assert !Holds(r.attempts, a.index);
    assert forall i | 0 <= i < n :: r.history[i] in r.history;
    assert t.history == r.history + [b];
    assert forall x | x in t.history :: x in r.history || x == b;
  }

  lemma StoreNew(r: Recorder, a: Attempt)
    requires Inv(r) && r.begun && a.index == r.currentIndex
    requires r.last.None? || r.last.value.index != a.index
    ensures Inv(Store(r, a))
  {
    var t, n := Store(r, a), |r.history|;
    if n > 0 {
      assert r.history[n - 1] in r.history;
    }
    OlderThan(r.history, a.index);
    StoreNewShape(r, a);
    if !r.finished {
      assert t.foldedIndex == r.foldedIndex < t.currentIndex;
      assert Settled(t) == n;
      if n > MAX_EVENT_ATTEMPTS {
        assert Settled(r) == n;
        assert t.history[MAX_EVENT_ATTEMPTS..n] == r.history[MAX_EVENT_ATTEMPTS..n];
      }
    }
  }

  lemma StoreInv(r: Recorder, a: Attempt)
    requires Inv(r) && r.begun && a.index == r.currentIndex
    ensures Inv(Store(r, a))
  {
    if r.last.Some? && r.last.value.index == a.index {
      StoreAgain(r, a);
    } else {
      StoreNew(r, a);
    }
  }

  lemma MovedShape(r: Recorder)
    requires Shape(r)
    ensures Shape(DoMoved(r))
    ensures CurrentRecord(r).Some? ==>
      DoMoved(r).history == r.history[|r.history| - 1 := r.history[|r.history| - 1].(moved := true)]
  {
    var p := CurrentRecord(r);
    if p.Some? {
      var n, t := |r.history|, DoMoved(r);
      assert forall i | 0 <= i < n - 1 :: r.history[i].index < p.value.index;
      assert t.history == r.history[n - 1 := p.value.(moved := true)];
      assert r.history[n - 1] in r.history;
      assert forall x | x in t.history :: x in r.history || x == p.value.(moved := true);
      if n > MAX_EVENT_ATTEMPTS {
        assert t.attempts == t.history[..MAX_EVENT_ATTEMPTS];
      } else {
        assert t.attempts == t.history;
      }
    }
  }

  lemma MovedInv(r: Recorder)
    requires Inv(r)
    ensures Inv(DoMoved(r))
  {
    MovedShape(r);
    var n, t := |r.history|, DoMoved(r);
    if CurrentRecord(r).Some? && n > MAX_EVENT_ATTEMPTS {
      assert t.history[MAX_EVENT_ATTEMPTS..n - 1] == r.history[MAX_EVENT_ATTEMPTS..n - 1];
    }
  }

  lemma FinishInv(r: Recorder, totalMS: int)
    requires Inv(r)
    ensures Inv(DoFinish(r, totalMS)) && DoFinish(r, totalMS).finished
    ensures |DoFinish(r, totalMS).sunk| <= |r.sunk| + 1
  {
    if !r.finished && Emits(r) {
      var done := r.(finished := true);
      FoldSettles(done);
      var t := FoldOverflow(done);
      SunkShape(t, t.sunk + [EmissionOf(t, totalMS)]);
    }
  }

  lemma SunkShape(t: Recorder, sunk: seq<Emission>)
    requires Shape(t) && t.finished
    ensures Inv(t.(sunk := sunk))
  {
  }

  lemma FirstEventInv(r: Recorder, ms: int)
    requires Inv(r)
    ensures Inv(DoFirstEvent(r, ms))
  {
  }

  lemma ExhaustedInv(r: Recorder, value: bool)
    requires Inv(r)
    ensures Inv(r.(exhausted := value))
  {
  }

  lemma DoInv(r: Recorder, op: Op)
    requires Inv(r)
    ensures Inv(Do(r, op))
  {
    match op
    case Begin(host, ms, fault) => BeginInv(r, host, ms, fault);
    case Response(status, retry, after, id, ms) => StoreBegunInv(r, ResponseRecord(r, status, retry, after, id, ms));
    case TransportError(e, timedOut, headers, body, ms) =>
      StoreBegunInv(r, TransportRecord(r, e, timedOut, headers, body, ms));
    case Moved => MovedInv(r);
    case FirstEvent(ms) => FirstEventInv(r, ms);
    case Aborted(ms) => StoreBegunInv(r, AbortRecord(r, ms));
    case Exhausted(value) => ExhaustedInv(r, value);
    case Finish(ms) => FinishInv(r, ms);
    case Lost =>
  }

  lemma StoreBegunInv(r: Recorder, a: Attempt)
    requires Inv(r) && a.index == r.currentIndex
    ensures Inv(StoreBegun(r, a))
  {
    if r.begun {
      StoreInv(r, a);
    }
  }
}
