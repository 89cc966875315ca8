// The fold ladder: where an increment lands once a minute's table is full, and
// what that does to the totals.
module FoldLadder {
  import opened Counters

  /** How an increment found its row, from the finest landing to the last resort. */
  datatype Rung = Direct | ErrorRow | ErrorRekey | EndpointRow | EndpointRekey | FirstRow

  /** The table after the ladder has re-keyed what it needs, and the key the increment goes to. */
  datatype Landing = Landing(table: Table, target: CounterKey, rung: Rung)

  function Folded(k: CounterKey, endpoint: bool): CounterKey {
    if endpoint then k.(errorClass := "unknown", endpoint := "inference_other") else k.(errorClass := "unknown")
  }

  /** The first row whose key agrees with k at grain g, or |t|. */
  function FirstMatch(t: Table, g: Grain, k: CounterKey): (r: nat)
    ensures r <= |t|
    ensures r < |t| ==> Coarsen(g, t[r].key) == Coarsen(g, k)
    ensures forall i | 0 <= i < r :: Coarsen(g, t[i].key) != Coarsen(g, k)
  {
    if t == [] then 0 else if Coarsen(g, t[0].key) == Coarsen(g, k) then 0 else 1 + FirstMatch(t[1..], g, k)
  }

  /** Take row i out and put its counts, merged into an empty row, under the key target. */
  function Rekey(t: Table, i: nat, target: CounterKey): Table
    requires i < |t|
  {
    Put(Remove(t, t[i].key), target, MergeCounts(NO_COUNTS, t[i].value))
  }

  function Climb(t: Table, k: CounterKey): Landing {
    if Has(t, k) || |t| < MAX_WINDOW_KEYS then Landing(t, k, Direct)
    else
      var unknown := Folded(k, false);
      if Has(t, unknown) then Landing(t, unknown, ErrorRow)
      else
        var i := FirstMatch(t, NoErrorClass, k);
        if i < |t| then Landing(Rekey(t, i, Folded(t[i].key, false)), Folded(t[i].key, false), ErrorRekey)
        else
          var other := Folded(k, true);
          if Has(t, other) then Landing(t, other, EndpointRow)
          else
            var j := FirstMatch(t, NoEndpoint, k);
            if j < |t| then Landing(Rekey(t, j, Folded(t[j].key, true)), Folded(t[j].key, true), EndpointRekey)
            else Landing(t, t[0].key, FirstRow)
  }

  function ValueAt(t: Table, k: CounterKey): CounterValue {
    if Has(t, k) then Lookup(t, k) else NO_COUNTS
  }

  /** Merge one increment into the table. */
  function Absorb(t: Table, inc: Increment): Table {
    var l := Climb(t, inc.key);
    Put(l.table, l.target, MergeCounts(ValueAt(l.table, l.target), inc.counts))
  }

  /** The row the ladder re-keys on the way to a landing for k, if any. */
  function Moved(t: Table, k: CounterKey): Table {
    match Climb(t, k).rung
    case ErrorRekey => [t[FirstMatch(t, NoErrorClass, k)]]
    case EndpointRekey => [t[FirstMatch(t, NoEndpoint, k)]]
    case _ => []
  }

  ghost predicate WellFormed(t: Table) {
    Distinct(t) && |t| <= MAX_WINDOW_KEYS
  }

  /** The landings that keep totals at grain g apart. */
  predicate Keeps(rung: Rung, g: Grain) {
    match g
    case Exact => rung == Direct
    case NoErrorClass => rung in {Direct, ErrorRow, ErrorRekey}
    case NoEndpoint => rung != FirstRow
    case Whole => true
  }

  /** What re-keying a row loses to the bound on each merged count. */
  function Clipped(v: CounterValue, m: Measure): int {
    Amount(v, m) - Counted(v, m)
  }

  function ClippedTotal(rows: Table, g: Grain, p: CounterKey, m: Measure): int {
    if rows == [] then 0
    else (if Coarsen(g, rows[0].key) == p then Clipped(rows[0].value, m) else 0) + ClippedTotal(rows[1..], g, p, m)
  }

  // ---- Facts about single table operations ----

  lemma {:induction false} FindUnique(t: Table, i: nat)
    requires Distinct(t) && i < |t|
    ensures Find(t, t[i].key) == i
  {
    var r := Find(t, t[i].key);
    assert r <= i;
  }

  lemma AbsentFind(t: Table, k: CounterKey)
    requires forall i | 0 <= i < |t| :: t[i].key != k
    ensures !Has(t, k)
  {
  }

  lemma PutDistinct(t: Table, k: CounterKey, v: CounterValue)
    requires Distinct(t)
    ensures Distinct(Put(t, k, v))
    ensures |Put(t, k, v)| == if Has(t, k) then |t| else |t| + 1
  {
  }

  lemma PutTotal(t: Table, k: CounterKey, added: CounterValue, g: Grain, p: CounterKey, m: Measure)
    requires Distinct(t)
    ensures Total(Put(t, k, MergeCounts(ValueAt(t, k), added)), g, p, m)
      == Total(t, g, p, m) + if Coarsen(g, k) == p then Counted(added, m) else 0
  {
    var merged := MergeCounts(ValueAt(t, k), added);
    MergeAdds(ValueAt(t, k), added, m);
    if Has(t, k) {
      TotalReplace(t, Find(t, k), Row(k, merged), g, p, m);
    } else {
      TotalAppend(t, Row(k, merged), g, p, m);
      assert Amount(NO_COUNTS, m) == 0;
    }
  }

  /** Re-keying to an absent key that agrees at grain g changes totals at g only by what is clipped. */
  lemma RekeyTotal(t: Table, i: nat, target: CounterKey, g: Grain, p: CounterKey, m: Measure)
    requires Distinct(t) && i < |t|
    requires !Has(t, target)
    requires Coarsen(g, target) == Coarsen(g, t[i].key)
    ensures !Has(Remove(t, t[i].key), target)
    ensures Distinct(Rekey(t, i, target)) && |Rekey(t, i, target)| == |t| && Has(Rekey(t, i, target), target)
    ensures Total(Rekey(t, i, target), g, p, m)
      == Total(t, g, p, m) - if Coarsen(g, t[i].key) == p then Clipped(t[i].value, m) else 0
  {
    FindUnique(t, i);
    var rest := Remove(t, t[i].key);
    assert rest == t[..i] + t[i + 1..];
    assert forall j | 0 <= j < |rest| :: rest[j] == t[if j < i then j else j + 1];
    AbsentFind(rest, target);
    TotalDrop(t, i, g, p, m);
    PutDistinct(rest, target, MergeCounts(NO_COUNTS, t[i].value));
    PutTotal(rest, target, t[i].value, g, p, m);
    FindUnique(Rekey(t, i, target), |rest|);
  }

  // ---- The ladder ----

  lemma FoldedMatch(a: CounterKey, k: CounterKey)
    ensures Coarsen(NoErrorClass, a) == Coarsen(NoErrorClass, k) ==> Folded(a, false) == Folded(k, false)
    ensures Coarsen(NoEndpoint, a) == Coarsen(NoEndpoint, k) ==> Folded(a, true) == Folded(k, true)
    ensures forall g: Grain | g != Exact :: Coarsen(g, Folded(a, false)) == Coarsen(g, a)
    ensures forall g: Grain | g == NoEndpoint || g == Whole :: Coarsen(g, Folded(a, true)) == Coarsen(g, a)
  {
    if Coarsen(NoErrorClass, a) == Coarsen(NoErrorClass, k) {
      assert Folded(a, false) == Coarsen(NoErrorClass, a).(errorClass := "unknown");
      assert Folded(k, false) == Coarsen(NoErrorClass, k).(errorClass := "unknown");
    }
    if Coarsen(NoEndpoint, a) == Coarsen(NoEndpoint, k) {
      assert Folded(a, true) == Coarsen(NoEndpoint, a).(errorClass := "unknown", endpoint := "inference_other");
      assert Folded(k, true) == Coarsen(NoEndpoint, k).(errorClass := "unknown", endpoint := "inference_other");
    }
  }

  /** A re-key moves one row to a key no live row has, and every landing is a live row or has room. */
  lemma ClimbSafe(t: Table, k: CounterKey)
    requires WellFormed(t)
    ensures var l := Climb(t, k);
      && WellFormed(l.table) && |l.table| == |t|
      && (Has(l.table, l.target) || |l.table| < MAX_WINDOW_KEYS)
      && (l.rung in {ErrorRekey, EndpointRekey} ==> !Has(t, l.target) && Has(l.table, l.target))
      && (l.rung !in {ErrorRekey, EndpointRekey} ==> l.table == t)
  {
    var l := Climb(t, k);
    match l.rung {
      case ErrorRekey =>
        var i := FirstMatch(t, NoErrorClass, k);
        FoldedMatch(t[i].key, k);
        RekeyTotal(t, i, l.target, Whole, ANY_KEY, Requests);
      case EndpointRekey =>
        var i := FirstMatch(t, NoEndpoint, k);
        FoldedMatch(t[i].key, k);
        RekeyTotal(t, i, l.target, Whole, ANY_KEY, Requests);
      case FirstRow =>
        FindUnique(t, 0);
      case _ =>
    }
  }

  lemma ClimbTotal(t: Table, k: CounterKey, g: Grain, p: CounterKey, m: Measure)
    requires WellFormed(t)
    requires Keeps(Climb(t, k).rung, g)
    ensures Total(Climb(t, k).table, g, p, m) == Total(t, g, p, m) - ClippedTotal(Moved(t, k), g, p, m)
    ensures Coarsen(g, Climb(t, k).target) == Coarsen(g, k)
  {
    var l := Climb(t, k);
    FoldedMatch(k, k);
    match l.rung {
      case ErrorRekey => ClimbMoves(t, k, NoErrorClass, false, g, p, m);
      case EndpointRekey => ClimbMoves(t, k, NoEndpoint, true, g, p, m);
      case _ =>
    }
  }

  lemma ClimbRekeys(t: Table, k: CounterKey, via: Grain, endpoint: bool)
    requires via == if endpoint then NoEndpoint else NoErrorClass
    requires Climb(t, k).rung == if endpoint then EndpointRekey else ErrorRekey
    ensures var i := FirstMatch(t, via, k);
      i < |t| && Moved(t, k) == [t[i]] && Climb(t, k).target == Folded(t[i].key, endpoint) == Folded(k, endpoint)
      && !Has(t, Folded(k, endpoint)) && Climb(t, k).table == Rekey(t, i, Folded(t[i].key, endpoint))
  {
    FoldedMatch(t[FirstMatch(t, via, k)].key, k);
  }

  lemma ClimbMoves(t: Table, k: CounterKey, via: Grain, endpoint: bool, g: Grain, p: CounterKey, m: Measure)
    requires WellFormed(t)
    requires via == if endpoint then NoEndpoint else NoErrorClass
    requires Climb(t, k).rung == if endpoint then EndpointRekey else ErrorRekey
    requires g == Whole || g == NoEndpoint || (g == NoErrorClass && !endpoint)
    ensures Total(Climb(t, k).table, g, p, m) == Total(t, g, p, m) - ClippedTotal(Moved(t, k), g, p, m)
    ensures Coarsen(g, Climb(t, k).target) == Coarsen(g, k)
  {
    ClimbRekeys(t, k, via, endpoint);
    var i := FirstMatch(t, via, k);
    FoldedMatch(t[i].key, k);
    FoldedMatch(k, k);
    RekeyTotal(t, i, Folded(t[i].key, endpoint), g, p, m);
    OneClipped(t[i], g, p, m);
  }

  lemma OneClipped(row: Row, g: Grain, p: CounterKey, m: Measure)
    ensures ClippedTotal([row], g, p, m) == if Coarsen(g, row.key) == p then Clipped(row.value, m) else 0
  {
    assert [row][1..] == [];
  }

  /** The table stays within its bound and its keys stay distinct. */
  lemma AbsorbWellFormed(t: Table, inc: Increment)
    requires WellFormed(t)
    ensures WellFormed(Absorb(t, inc)) && Absorb(t, inc) != []
    ensures |t| <= |Absorb(t, inc)| <= |t| + 1
  {
    ClimbSafe(t, inc.key);
    var l := Climb(t, inc.key);
    PutDistinct(l.table, l.target, MergeCounts(ValueAt(l.table, l.target), inc.counts));
  }

  /** Totals at every grain the landing keeps apart grow by exactly the bounded increment, less what is clipped. */
  lemma AbsorbTotal(t: Table, inc: Increment, g: Grain, p: CounterKey, m: Measure)
    requires WellFormed(t)
    requires Keeps(Climb(t, inc.key).rung, g)
    ensures Total(Absorb(t, inc), g, p, m) + ClippedTotal(Moved(t, inc.key), g, p, m)
      == Total(t, g, p, m) + if Coarsen(g, inc.key) == p then Counted(inc.counts, m) else 0
  {
    ClimbSafe(t, inc.key);
    ClimbTotal(t, inc.key, g, p, m);
    var l := Climb(t, inc.key);
    PutTotal(l.table, l.target, inc.counts, g, p, m);
  }

  lemma CoarserMatch(a: CounterKey, b: CounterKey)
    ensures Coarsen(NoErrorClass, a) == Coarsen(NoErrorClass, b) ==> Coarsen(NoEndpoint, a) == Coarsen(NoEndpoint, b)
  {
    assert Coarsen(NoEndpoint, a) == Coarsen(NoErrorClass, a).(endpoint := "");
    assert Coarsen(NoEndpoint, b) == Coarsen(NoErrorClass, b).(endpoint := "");
  }

  /** The last rung is reached exactly when the table is full and no row shares the increment's class. */
  lemma LastRungIff(t: Table, k: CounterKey)
    requires WellFormed(t)
    ensures Climb(t, k).rung == FirstRow <==>
      |t| == MAX_WINDOW_KEYS && forall i | 0 <= i < |t| :: Coarsen(NoEndpoint, t[i].key) != Coarsen(NoEndpoint, k)
  {
    FoldedMatch(k, k);
    if |t| == MAX_WINDOW_KEYS && forall i | 0 <= i < |t| :: Coarsen(NoEndpoint, t[i].key) != Coarsen(NoEndpoint, k) {
      AbsentFind(t, k);
      AbsentFind(t, Folded(k, false));
      AbsentFind(t, Folded(k, true));
      forall i | 0 <= i < |t|
        ensures Coarsen(NoErrorClass, t[i].key) != Coarsen(NoErrorClass, k)
      {
        CoarserMatch(t[i].key, k);
      }
    }
  }

  /** On the last rung the increment is counted under the first row's class and not under its own. */
  lemma LastRungMisplaces(t: Table, inc: Increment, m: Measure)
    requires WellFormed(t)
    requires Climb(t, inc.key).rung == FirstRow
    ensures var own, first := Coarsen(NoEndpoint, inc.key), Coarsen(NoEndpoint, t[0].key);
      && own != first
      && Total(Absorb(t, inc), NoEndpoint, own, m) == Total(t, NoEndpoint, own, m)
      && Total(Absorb(t, inc), NoEndpoint, first, m) == Total(t, NoEndpoint, first, m) + Counted(inc.counts, m)
  {
    LastRungIff(t, inc.key);
    var own, first := Coarsen(NoEndpoint, inc.key), Coarsen(NoEndpoint, t[0].key);
    PutTotal(t, t[0].key, inc.counts, NoEndpoint, own, m);
    PutTotal(t, t[0].key, inc.counts, NoEndpoint, first, m);
  }

  // ---- Whole runs of increments ----

  /** The key an increment is counted under; an unknown level or outcome drops the increment. */
  function Normalised(k: CounterKey): (r: CounterKey)
    ensures r.level == k.level && r.outcome == k.outcome
  {
    k.(endpoint := if InSlice(ENDPOINTS, k.endpoint) then k.endpoint else "inference_other",
       host := if InSlice(HOSTS, k.host) then k.host else "custom",
       errorClass := if k.errorClass == "" || InSlice(ERROR_CLASSES, k.errorClass) then k.errorClass else "unknown",
       httpStatusClass := if InSlice(STATUS_CLASSES, k.httpStatusClass) then k.httpStatusClass else "none",
       timeoutPhase := if InSlice(TIMEOUT_PHASES, k.timeoutPhase) then k.timeoutPhase else "none")
  }

  predicate Countable(k: CounterKey) {
    (k.level == "attempt" || k.level == "request") && InSlice(OUTCOMES, k.outcome)
  }

  /** Every field is one the wire knows; an empty error class is the null one. */
  predicate KnownKey(k: CounterKey) {
    InSlice(ENDPOINTS, k.endpoint) && InSlice(HOSTS, k.host)
    && (k.errorClass == "" || InSlice(ERROR_CLASSES, k.errorClass))
    && InSlice(STATUS_CLASSES, k.httpStatusClass) && InSlice(TIMEOUT_PHASES, k.timeoutPhase)
  }

  /** Normalising leaves known keys alone, makes every key known, and so is done once. */
  lemma NormalisedKnown(k: CounterKey)
    ensures KnownKey(Normalised(k)) && Normalised(Normalised(k)) == Normalised(k)
    ensures Normalised(k) == k <==> KnownKey(k)
  {
    InSliceAt(ENDPOINTS, 9);
    InSliceAt(HOSTS, 7);
    InSliceAt(ERROR_CLASSES, 13);
    InSliceAt(STATUS_CLASSES, 0);
    InSliceAt(TIMEOUT_PHASES, 0);
  }

  function Normal(inc: Increment): Increment {
    inc.(key := Normalised(inc.key))
  }

  /** The increments a run accepts, under the keys they are counted by. */
  function Accepted(incs: seq<Increment>): (r: seq<Increment>)
    ensures |r| <= |incs|
  {
    if incs == [] then []
    else
      var before, last := Accepted(incs[..|incs| - 1]), incs[|incs| - 1];
      if Countable(last.key) then before + [Normal(last)] else before
  }

  /** The table after merging a run of increments. */
  function AbsorbAll(t: Table, incs: seq<Increment>): Table {
    if incs == [] then t else Absorb(AbsorbAll(t, incs[..|incs| - 1]), incs[|incs| - 1])
  }

  /** The rows re-keyed on the way, with the values they had. */
  function MovedAll(t: Table, incs: seq<Increment>): Table {
    if incs == [] then []
    else
      var before := incs[..|incs| - 1];
      MovedAll(t, before) + Moved(AbsorbAll(t, before), incs[|incs| - 1].key)
  }

  function CountedTotal(incs: seq<Increment>, g: Grain, p: CounterKey, m: Measure): int {
    if incs == [] then 0
    else
      var last := incs[|incs| - 1];
      CountedTotal(incs[..|incs| - 1], g, p, m) + if Coarsen(g, last.key) == p then Counted(last.counts, m) else 0
  }

  /** Every increment of the run lands on a rung that keeps totals at grain g apart. */
  ghost predicate KeepsAll(t: Table, incs: seq<Increment>, g: Grain) {
    forall n | 0 <= n < |incs| :: Keeps(Climb(AbsorbAll(t, incs[..n]), incs[n].key).rung, g)
  }

  lemma {:induction false} ClippedConcat(a: Table, b: Table, g: Grain, p: CounterKey, m: Measure)
    ensures ClippedTotal(a + b, g, p, m) == ClippedTotal(a, g, p, m) + ClippedTotal(b, g, p, m)
  {
    if a == [] {
      assert a + b == b;
    } else {
      assert (a + b)[1..] == a[1..] + b;
      ClippedConcat(a[1..], b, g, p, m);
    }
  }

  lemma {:induction false} AbsorbAllWellFormed(t: Table, incs: seq<Increment>)
    requires WellFormed(t)
    ensures WellFormed(AbsorbAll(t, incs))
  {
    if incs != [] {
      AbsorbAllWellFormed(t, incs[..|incs| - 1]);
      AbsorbWellFormed(AbsorbAll(t, incs[..|incs| - 1]), incs[|incs| - 1]);
    }
  }

  lemma KeepsAllSplit(t: Table, incs: seq<Increment>, g: Grain)
    requires incs != [] && KeepsAll(t, incs, g)
    ensures KeepsAll(t, incs[..|incs| - 1], g)
    ensures Keeps(Climb(AbsorbAll(t, incs[..|incs| - 1]), incs[|incs| - 1].key).rung, g)
  {
    var before := incs[..|incs| - 1];
    forall i | 0 <= i < |before|
      ensures Keeps(Climb(AbsorbAll(t, before[..i]), before[i].key).rung, g)
    {
      assert before[..i] == incs[..i];
    }
  }

  /**
   * Over any run, per-class totals at grain g are those before plus the bounded increments, less exactly what
   * re-keying clipped, as long as every landing keeps grain g apart; for the grand total, always.
   */
  lemma {:induction false} RunTotal(t: Table, incs: seq<Increment>, g: Grain, p: CounterKey, m: Measure)
    requires WellFormed(t) && KeepsAll(t, incs, g)
    ensures WellFormed(AbsorbAll(t, incs))
    ensures Total(AbsorbAll(t, incs), g, p, m) + ClippedTotal(MovedAll(t, incs), g, p, m)
      == Total(t, g, p, m) + CountedTotal(incs, g, p, m)
  {
    AbsorbAllWellFormed(t, incs);
    if incs != [] {
      var n := |incs| - 1;
      var before, last := incs[..n], incs[n];
      KeepsAllSplit(t, incs, g);
      RunTotal(t, before, g, p, m);
      AbsorbTotal(AbsorbAll(t, before), last, g, p, m);
      ClippedConcat(MovedAll(t, before), Moved(AbsorbAll(t, before), last.key), g, p, m);
    }
  }

  // ---- When grand totals are exact ----

  /** Counts a merge can produce: never negative, and nothing in a bucket outside the enum. */
  ghost predicate Sane(t: Table) {
    forall i, m: Measure | 0 <= i < |t| :: SaneAmount(t[i].value, m)
  }

  ghost predicate SaneAmount(v: CounterValue, m: Measure) {
    0 <= Amount(v, m) && (!m.Known() ==> Amount(v, m) == 0)
  }

  lemma MergeSane(value: CounterValue, added: CounterValue)
    requires forall m: Measure :: SaneAmount(value, m)
    ensures forall m: Measure :: SaneAmount(MergeCounts(value, added), m)
  {
    forall m: Measure
      ensures SaneAmount(MergeCounts(value, added), m)
    {
      assert SaneAmount(value, m);
      MergeAdds(value, added, m);
    }
  }

  lemma PutSane(t: Table, k: CounterKey, added: CounterValue)
    requires Sane(t)
    ensures Sane(Put(t, k, MergeCounts(ValueAt(t, k), added)))
  {
    forall m: Measure
      ensures SaneAmount(ValueAt(t, k), m)
    {
      if Has(t, k) {
        assert SaneAmount(t[Find(t, k)].value, m);
      }
    }
    MergeSane(ValueAt(t, k), added);
  }

  lemma AbsorbSane(t: Table, inc: Increment)
    requires WellFormed(t) && Sane(t)
    ensures Sane(Absorb(t, inc))
  {
    var l := Climb(t, inc.key);
    if l.rung == ErrorRekey {
      RekeySane(t, FirstMatch(t, NoErrorClass, inc.key), l.target);
    } else if l.rung == EndpointRekey {
      RekeySane(t, FirstMatch(t, NoEndpoint, inc.key), l.target);
    }
    PutSane(l.table, l.target, inc.counts);
  }

  lemma RekeySane(t: Table, i: nat, target: CounterKey)
    requires Distinct(t) && Sane(t) && i < |t|
    ensures Sane(Rekey(t, i, target))
  {
    FindUnique(t, i);
    var rest := Remove(t, t[i].key);
    assert forall j | 0 <= j < |rest| :: rest[j] == t[if j < i then j else j + 1];
    forall m: Measure
      ensures SaneAmount(NO_COUNTS, m)
    {
    }
    MergeSane(NO_COUNTS, t[i].value);
  }

  lemma MovedOneSane(t: Table, k: CounterKey)
    requires Sane(t)
    ensures Sane(Moved(t, k))
  {
    forall i, m: Measure | 0 <= i < |Moved(t, k)|
      ensures SaneAmount(Moved(t, k)[i].value, m)
    {
      var j :| 0 <= j < |t| && Moved(t, k)[i] == t[j];
      assert SaneAmount(t[j].value, m);
    }
  }

  lemma SaneConcat(a: Table, b: Table)
    requires Sane(a) && Sane(b)
    ensures Sane(a + b)
  {
    forall i, m: Measure | 0 <= i < |a + b|
      ensures SaneAmount((a + b)[i].value, m)
    {
      if i < |a| {
        assert SaneAmount(a[i].value, m);
      } else {
        assert SaneAmount(b[i - |a|].value, m);
      }
    }
  }

  lemma {:induction false} MovedSane(t: Table, incs: seq<Increment>)
    requires WellFormed(t) && Sane(t)
    ensures WellFormed(AbsorbAll(t, incs)) && Sane(AbsorbAll(t, incs)) && Sane(MovedAll(t, incs))
  {
    AbsorbAllWellFormed(t, incs);
    if incs != [] {
      var before, last := incs[..|incs| - 1], incs[|incs| - 1];
      MovedSane(t, before);
      AbsorbSane(AbsorbAll(t, before), last);
      MovedOneSane(AbsorbAll(t, before), last.key);
      SaneConcat(MovedAll(t, before), Moved(AbsorbAll(t, before), last.key));
    }
  }

  lemma {:induction false} ClippedZeroIff(rows: Table, m: Measure)
    requires Sane(rows)
    ensures ClippedTotal(rows, Whole, Coarsen(Whole, ANY_KEY), m) >= 0
    ensures ClippedTotal(rows, Whole, Coarsen(Whole, ANY_KEY), m) == 0 <==>
      forall i | 0 <= i < |rows| :: Amount(rows[i].value, m) <= MAX_COUNT
  {
    if rows != [] {
      assert SaneAmount(rows[0].value, m);
      assert forall i, m: Measure | 0 <= i < |rows[1..]| :: SaneAmount(rows[1..][i].value, m) by {
        assert forall i | 0 <= i < |rows[1..]| :: rows[1..][i] == rows[i + 1];
      }
      ClippedZeroIff(rows[1..], m);
      assert forall i | 0 < i < |rows| :: rows[i] == rows[1..][i - 1];
    }
  }

  /** A run keeps the grand total of a measure exactly iff no row was over the wire bound when it was re-keyed. */
  lemma GrandExactIff(t: Table, incs: seq<Increment>, m: Measure)
    requires WellFormed(t) && Sane(t)
    ensures Grand(AbsorbAll(t, incs), m) == Grand(t, m) + CountedTotal(incs, Whole, Coarsen(Whole, ANY_KEY), m)
      <==> forall i | 0 <= i < |MovedAll(t, incs)| :: Amount(MovedAll(t, incs)[i].value, m) <= MAX_COUNT
  {
    RunTotal(t, incs, Whole, Coarsen(Whole, ANY_KEY), m);
    MovedSane(t, incs);
    ClippedZeroIff(MovedAll(t, incs), m);
  }
}
