// Runs of increments of one request each that show where counts go astray: one row
// grows past the wire bound and is clipped when it is re-keyed, and a full table
// takes a request of another class into its first row.
module LosingRun {
  import opened Counters
  import opened FoldLadder

  function SampleHost(d: nat): (r: string)
    ensures |r| == if d == 0 then 4 else if d == 1 then 8 else if d == 2 then 11 else 12
    ensures InSlice(HOSTS, r)
  {
    InSliceAt(HOSTS, 1);
    InSliceAt(HOSTS, 3);
    InSliceAt(HOSTS, 4);
    InSliceAt(HOSTS, 5);
    if d == 0 then HOSTS[1] else if d == 1 then HOSTS[4] else if d == 2 then HOSTS[3] else HOSTS[5]
  }

  function SampleOutcome(d: nat): (r: string)
    ensures |r| == if d == 0 then 2 else if d == 1 then 7 else if d == 2 then 10 else 13
    ensures InSlice(OUTCOMES, r)
  {
    InSliceAt(OUTCOMES, 0);
    InSliceAt(OUTCOMES, 1);
    InSliceAt(OUTCOMES, 3);
    InSliceAt(OUTCOMES, 4);
    if d == 0 then OUTCOMES[0] else if d == 1 then OUTCOMES[3] else if d == 2 then OUTCOMES[1] else OUTCOMES[4]
  }

  function SamplePhase(d: nat): (r: string)
    ensures |r| == if d == 0 then 4 else if d == 1 then 5 else if d == 2 then 7 else 10
    ensures InSlice(TIMEOUT_PHASES, r)
  {
    InSliceAt(TIMEOUT_PHASES, 0);
    InSliceAt(TIMEOUT_PHASES, 1);
    InSliceAt(TIMEOUT_PHASES, 2);
    InSliceAt(TIMEOUT_PHASES, 4);
    if d == 0 then TIMEOUT_PHASES[0] else if d == 1 then TIMEOUT_PHASES[4]
    else if d == 2 then TIMEOUT_PHASES[1] else TIMEOUT_PHASES[2]
  }

  /** 256 request keys that differ from each other in more than endpoint and error class. */
  function SampleKey(i: nat): CounterKey {
    CounterKey("request", "messages", i % 2 == 0, SampleHost((i / 4) % 4), SampleOutcome((i / 16) % 4), "reset", "none",
               SamplePhase((i / 64) % 4), (i / 2) % 2 == 0, false)
  }

  /** One increment for each of the first n sample keys. */
  function Fill(n: nat, one: CounterValue): (r: seq<Increment>)
    ensures |r| == n
    ensures forall i | 0 <= i < n :: r[i] == Increment(SampleKey(i), one)
  {
    seq(n, i requires 0 <= i < n => Increment(SampleKey(i), one))
  }

  /** The mixed-radix digits a sample key spells out. */
  lemma Digits(i: nat)
    requires i < MAX_WINDOW_KEYS
    ensures i == i % 2 + 2 * ((i / 2) % 2) + 4 * ((i / 4) % 4) + 16 * ((i / 16) % 4) + 64 * ((i / 64) % 4)
  {
    var b, c, d, e := i / 2, i / 4, i / 16, i / 64;
    assert i == 2 * b + i % 2;
    assert c == b / 2 && b == 2 * c + b % 2;
    assert d == c / 4 && c == 4 * d + c % 4;
    assert e == d / 4 && d == 4 * e + d % 4;
  }

  lemma SampleKeysDiffer(i: nat, j: nat)
    requires i < j < MAX_WINDOW_KEYS
    ensures SampleKey(i) != SampleKey(j)
  {
    Digits(i);
    Digits(j);
    var a, b := SampleKey(i), SampleKey(j);
    assert |a.host| == |b.host| ==> (i / 4) % 4 == (j / 4) % 4;
    assert |a.outcome| == |b.outcome| ==> (i / 16) % 4 == (j / 16) % 4;
    assert |a.timeoutPhase| == |b.timeoutPhase| ==> (i / 64) % 4 == (j / 64) % 4;
  }

  predicate FilledRow(row: Row, i: nat) {
    row.key == SampleKey(i) && row.value.requests == 1
  }

  ghost predicate Filled(t: Table, n: nat) {
    WellFormed(t) && |t| == n && forall i | 0 <= i < n :: FilledRow(t[i], i)
  }

  lemma {:induction false} FillRows(start: Table, n: nat, one: CounterValue)
    requires start == [] && n <= MAX_WINDOW_KEYS && one.requests == 1
    ensures Filled(AbsorbAll(start, Fill(n, one)), n)
  {
    var incs := Fill(n, one);
    if n == 0 {
      assert AbsorbAll(start, incs) == start;
    } else {
      FillRows(start, n - 1, one);
      assert incs[..n - 1] == Fill(n - 1, one);
      AppendNew(AbsorbAll(start, Fill(n - 1, one)), n - 1, incs[n - 1]);
      assert AbsorbAll(start, incs) == Absorb(AbsorbAll(start, Fill(n - 1, one)), incs[n - 1]);
    }
  }

  lemma AbsorbNew(t: Table, inc: Increment)
    requires WellFormed(t) && |t| < MAX_WINDOW_KEYS && forall i | 0 <= i < |t| :: t[i].key != inc.key
    ensures Absorb(t, inc) == t + [Row(inc.key, MergeCounts(NO_COUNTS, inc.counts))]
  {
    AbsentFind(t, inc.key);
  }

  lemma FilledSnoc(t: Table, row: Row, n: nat)
    requires Filled(t, n) && WellFormed(t + [row]) && FilledRow(row, n)
    ensures Filled(t + [row], n + 1)
  {
    assert forall i | 0 <= i < n :: FilledRow(t[i], i);
  }

  lemma AppendNew(t: Table, n: nat, inc: Increment)
    requires n < MAX_WINDOW_KEYS && Filled(t, n) && inc.key == SampleKey(n) && inc.counts.requests == 1
    ensures Filled(Absorb(t, inc), n + 1)
  {
    forall i | 0 <= i < |t|
      ensures t[i].key != inc.key
    {
      SampleKeysDiffer(i, n);
      assert FilledRow(t[i], i);
    }
    AbsorbWellFormed(t, inc);
    AbsorbNew(t, inc);
    FilledSnoc(t, Row(inc.key, MergeCounts(NO_COUNTS, inc.counts)), n);
  }

  /** The same increment n times. */
  function Repeat(n: nat, inc: Increment): (r: seq<Increment>)
    ensures |r| == n && forall i | 0 <= i < n :: r[i] == inc
  {
    seq(n, i => inc)
  }

  /** Every sample key once, and the very first n times more. */
  function Overfull(n: nat, one: CounterValue): seq<Increment> {
    Fill(MAX_WINDOW_KEYS, one) + Repeat(n, Increment(SampleKey(0), one))
  }

  /** And then the first key under another error class. */
  function Losing(n: nat, one: CounterValue): seq<Increment> {
    Overfull(n, one) + [Increment(OtherError(SampleKey(0)), one)]
  }

  function OtherError(k: CounterKey): CounterKey {
    k.(errorClass := "dns")
  }

  /** Full, every row under one error class, and the first one with n requests more than at first. */
  ghost predicate Brimming(u: Table, n: nat) {
    WellFormed(u) && |u| == MAX_WINDOW_KEYS
    && u[0].key == SampleKey(0) && u[0].value.requests == 1 + n
    && forall i | 0 <= i < |u| :: u[i].key.errorClass == "reset"
  }

  lemma FilledBrims(t: Table)
    requires Filled(t, MAX_WINDOW_KEYS)
    ensures Brimming(t, 0)
  {
    assert forall i | 0 <= i < |t| :: FilledRow(t[i], i);
  }

  lemma AbsorbSnoc(t: Table, incs: seq<Increment>, inc: Increment)
    ensures AbsorbAll(t, incs + [inc]) == Absorb(AbsorbAll(t, incs), inc)
  {
    assert (incs + [inc])[..|incs|] == incs;
  }

  lemma CountAgain(t: Table, n: nat, inc: Increment)
    requires Brimming(t, n) && inc.key == SampleKey(0) && inc.counts.requests == 1
    ensures Brimming(Absorb(t, inc), n + 1)
  {
    FindUnique(t, 0);
    AbsorbWellFormed(t, inc);
    assert Climb(t, inc.key) == Landing(t, inc.key, Direct);
    assert Absorb(t, inc) == t[0 := Row(SampleKey(0), MergeCounts(t[0].value, inc.counts))];
  }

  lemma {:induction false} OverfullTable(start: Table, n: nat, one: CounterValue)
    requires start == [] && one.requests == 1
    ensures Brimming(AbsorbAll(start, Overfull(n, one)), n)
  {
    var all, inc := Fill(MAX_WINDOW_KEYS, one), Increment(SampleKey(0), one);
    if n == 0 {
      FillRows(start, MAX_WINDOW_KEYS, one);
      FilledBrims(AbsorbAll(start, all));
      assert Overfull(n, one) == all;
    } else {
      OverfullTable(start, n - 1, one);
      CountAgain(AbsorbAll(start, Overfull(n - 1, one)), n - 1, inc);
      AbsorbSnoc(start, Overfull(n - 1, one), inc);
      assert Overfull(n, one) == Overfull(n - 1, one) + [inc];
    }
  }

  lemma RekeysFirst(u: Table, k: CounterKey)
    requires WellFormed(u) && |u| == MAX_WINDOW_KEYS
    requires forall i | 0 <= i < |u| :: u[i].key.errorClass == "reset"
    requires k == OtherError(u[0].key)
    ensures Moved(u, k) == [u[0]]
  {
    assert "reset"[0] == 'r' && "dns"[0] == 'd' && "unknown"[0] == 'u';
    AbsentFind(u, k);
    AbsentFind(u, Folded(k, false));
    assert Coarsen(NoErrorClass, u[0].key) == Coarsen(NoErrorClass, k);
  }

  lemma MovedLast(start: Table, before: seq<Increment>, last: Increment)
    ensures MovedAll(start, before + [last]) == MovedAll(start, before) + Moved(AbsorbAll(start, before), last.key)
  {
    assert (before + [last])[..|before|] == before;
  }

  lemma ShortFall(start: Table, run: seq<Increment>, i: nat, m: Measure)
    requires WellFormed(start) && Sane(start)
    requires i < |MovedAll(start, run)| && Amount(MovedAll(start, run)[i].value, m) > MAX_COUNT
    ensures Grand(AbsorbAll(start, run), m) < Grand(start, m) + CountedTotal(run, Whole, Coarsen(Whole, ANY_KEY), m)
  {
    RunTotal(start, run, Whole, Coarsen(Whole, ANY_KEY), m);
    MovedSane(start, run);
    ClippedZeroIff(MovedAll(start, run), m);
  }

  lemma LosingAccepted(n: nat, one: CounterValue)
    ensures forall i | 0 <= i < |Losing(n, one)| ::
      && Countable(Losing(n, one)[i].key) && Normal(Losing(n, one)[i]) == Losing(n, one)[i]
      && Losing(n, one)[i].counts == one
  {
    forall i | 0 <= i < |Losing(n, one)|
      ensures Countable(Losing(n, one)[i].key) && Normal(Losing(n, one)[i]) == Losing(n, one)[i]
      ensures Losing(n, one)[i].counts == one
    {
      SampleCountable(if i < MAX_WINDOW_KEYS then i else 0);
    }
  }

  /**
   * Grand totals can fall short: once more than ten million calls, of one request each, have one key, this run of
   * increments, all accepted as they are, is counted too low.
   */
  lemma LosingLoses(start: Table, n: nat, one: CounterValue)
    requires start == [] && n >= MAX_COUNT && one.requests == 1
    ensures forall i | 0 <= i < |Losing(n, one)| ::
      && Countable(Losing(n, one)[i].key) && Normal(Losing(n, one)[i]) == Losing(n, one)[i]
      && Losing(n, one)[i].counts == one
    ensures Grand(AbsorbAll(start, Losing(n, one)), Requests)
      < Grand(start, Requests) + CountedTotal(Losing(n, one), Whole, Coarsen(Whole, ANY_KEY), Requests)
  {
    LosingAccepted(n, one);
    OverfullTable(start, n, one);
    RekeyLoses(start, Overfull(n, one), Increment(OtherError(SampleKey(0)), one), n);
  }

  lemma RekeyLoses(start: Table, run: seq<Increment>, last: Increment, n: nat)
    requires start == [] && n >= MAX_COUNT && Brimming(AbsorbAll(start, run), n) && last.key == OtherError(SampleKey(0))
    ensures Grand(AbsorbAll(start, run + [last]), Requests)
      < Grand(start, Requests) + CountedTotal(run + [last], Whole, Coarsen(Whole, ANY_KEY), Requests)
  {
    var u, before := AbsorbAll(start, run), MovedAll(start, run);
    RekeysFirst(u, last.key);
    MovedLast(start, run, last);
    assert MovedAll(start, run + [last]) == before + [u[0]];
    ShortFall(start, run + [last], |before|, Requests);
  }

  // ---- The last rung ----

  lemma OtherClass(t: Table, k: CounterKey)
    requires Filled(t, MAX_WINDOW_KEYS) && k.level == "attempt"
    ensures forall i | 0 <= i < |t| :: Coarsen(NoEndpoint, t[i].key) != Coarsen(NoEndpoint, k)
  {
    assert "request"[0] == 'r' && "attempt"[0] == 'a';
    forall i | 0 <= i < |t|
      ensures Coarsen(NoEndpoint, t[i].key).level == "request"
    {
      assert FilledRow(t[i], i);
    }
  }

  lemma {:induction false} NoneOfClass(t: Table, p: CounterKey, m: Measure)
    requires forall i | 0 <= i < |t| :: Coarsen(NoEndpoint, t[i].key) != p
    ensures Total(t, NoEndpoint, p, m) == 0
  {
    if t != [] {
      NoneOfClass(t[1..], p, m);
    }
  }

  /** The last rung is reached: after 256 calls under keys of their own, an attempt is counted, but not as an attempt. */
  lemma LastRungReached(start: Table, k: CounterKey, one: CounterValue)
    requires start == [] && k.level == "attempt" && one.requests == 1
    ensures var t := AbsorbAll(start, Fill(MAX_WINDOW_KEYS, one));
      var u, own, first := Absorb(t, Increment(k, one)), Coarsen(NoEndpoint, k), Coarsen(NoEndpoint, SampleKey(0));
      && Climb(t, k).rung == FirstRow
      && Total(u, NoEndpoint, own, Requests) == 0
      && Total(u, NoEndpoint, first, Requests) == Total(t, NoEndpoint, first, Requests) + 1
  {
    var t := AbsorbAll(start, Fill(MAX_WINDOW_KEYS, one));
    FillRows(start, MAX_WINDOW_KEYS, one);
    OtherClass(t, k);
    LastRungIff(t, k);
    LastRungMisplaces(t, Increment(k, one), Requests);
    NoneOfClass(t, Coarsen(NoEndpoint, k), Requests);
    assert FilledRow(t[0], 0);
  }

  lemma SampleCountable(i: nat)
    ensures var k := SampleKey(i);
      Countable(k) && Normalised(k) == k && Countable(OtherError(k)) && Normalised(OtherError(k)) == OtherError(k)
  {
    InSliceAt(ENDPOINTS, 1);
    InSliceAt(STATUS_CLASSES, 0);
    InSliceAt(ERROR_CLASSES, 0);
    InSliceAt(ERROR_CLASSES, 9);
  }
}
