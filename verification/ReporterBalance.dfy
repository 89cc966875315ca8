// Conservation: every count ever merged is in the current minute, in a closed
// window, or accounted for by what removed it.
module ReporterBalance {
  import opened Options
  import opened Counters
  import opened FoldLadder
  import opened ReporterState

  const ALL := Coarsen(Whole, ANY_KEY)

  function WindowsGrand(windows: seq<Window>, m: Measure): int {
    if windows == [] then 0 else Grand(windows[0].rows, m) + WindowsGrand(windows[1..], m)
  }

  /** Counts of measure m held by the buffers. */
  function Held(s: Reporter, m: Measure): int {
    Grand(s.current, m) + WindowsGrand(s.closed, m)
  }

  /** Counts of measure m that have left the buffers, by whichever way. */
  function Gone(log: Log, m: Measure): int {
    Grand(log.delivered, m) + Grand(log.rejected, m) + Grand(log.discarded, m) + WindowsGrand(log.pruned, m)
    + ClippedTotal(log.moved, Whole, ALL, m)
  }

  ghost predicate Balanced(s: Reporter, m: Measure) {
    CountedTotal(s.log.merged, Whole, ALL, m) == Held(s, m) + Gone(s.log, m)
  }

  // ---- Sums over concatenations ----

  lemma GrandConcat(a: Table, b: Table, m: Measure)
    ensures Grand(a + b, m) == Grand(a, m) + Grand(b, m)
  {
    TotalConcat(a, b, Whole, ALL, m);
  }

  lemma {:induction false} CountedConcat(a: seq<Increment>, b: seq<Increment>, m: Measure)
    ensures CountedTotal(a + b, Whole, ALL, m) == CountedTotal(a, Whole, ALL, m) + CountedTotal(b, Whole, ALL, m)
  {
    if b == [] {
      assert a + b == a;
    } else {
      assert (a + b)[..|a + b| - 1] == a + b[..|b| - 1];
      CountedConcat(a, b[..|b| - 1], m);
    }
  }

  lemma {:induction false} WindowsGrandConcat(a: seq<Window>, b: seq<Window>, m: Measure)
    ensures WindowsGrand(a + b, m) == WindowsGrand(a, m) + WindowsGrand(b, m)
  {
    if a == [] {
      assert a + b == b;
    } else {
      assert (a + b)[1..] == a[1..] + b;
      WindowsGrandConcat(a[1..], b, m);
    }
  }

  lemma WindowsGrandSnoc(a: seq<Window>, w: Window, m: Measure)
    ensures WindowsGrand(a + [w], m) == WindowsGrand(a, m) + Grand(w.rows, m)
  {
    WindowsGrandConcat(a, [w], m);
    assert [w][1..] == [];
  }

  lemma {:induction false} FlatGrand(windows: seq<Window>, m: Measure)
    ensures Grand(RowsOfWindows(windows), m) == WindowsGrand(windows, m)
  {
    if windows != [] {
      FlatGrand(windows[1..], m);
      GrandConcat(windows[0].rows, RowsOfWindows(windows[1..]), m);
    }
  }

  // ---- What acknowledgement removes ----

  lemma {:induction false} PartitionGrand(t: Table, ks: set<CounterKey>, m: Measure)
    ensures Grand(t, m) == Grand(Within(t, ks), m) + Grand(Without(t, ks), m)
    ensures |t| == |Within(t, ks)| + |Without(t, ks)|
  {
    if t != [] {
      PartitionGrand(t[1..], ks, m);
      GrandConcat([t[0]], Within(t[1..], ks), m);
      GrandConcat([t[0]], Without(t[1..], ks), m);
      assert [t[0]] + t[1..] == t;
      GrandConcat([t[0]], t[1..], m);
      assert [] + Within(t[1..], ks) == Within(t[1..], ks);
      assert [] + Without(t[1..], ks) == Without(t[1..], ks);
    }
  }

  lemma {:induction false} WithoutAll(t: Table, ks: set<CounterKey>)
    ensures |Without(t, ks)| <= |t|
    ensures |Without(t, ks)| == |t| ==> Without(t, ks) == t && Within(t, ks) == []
  {
    if t != [] {
      WithoutAll(t[1..], ks);
    }
  }

  lemma RemainingStep(z: Sizes, closed: seq<Window>, refs: seq<Ref>)
    requires closed != []
    ensures var w := Shrunk(z, closed[0], refs);
      Remaining(z, closed, refs) == (if w.rows == [] then [] else [w]) + Remaining(z, closed[1..], refs)
  {
    assert ShrunkAll(z, closed, refs)[1..] == ShrunkAll(z, closed[1..], refs);
  }

  lemma {:induction false} RemovedGrand(z: Sizes, closed: seq<Window>, refs: seq<Ref>, m: Measure)
    ensures WindowsGrand(closed, m) == WindowsGrand(Remaining(z, closed, refs), m) + Grand(Removed(closed, refs), m)
  {
    if closed != [] {
      var w, ks := closed[0], SentKeys(refs, closed[0].id);
      var shrunk := Shrunk(z, w, refs);
      RemovedGrand(z, closed[1..], refs, m);
      RemainingStep(z, closed, refs);
      PartitionGrand(w.rows, ks, m);
      WithoutAll(w.rows, ks);
      assert shrunk.rows == Without(w.rows, ks);
      GrandConcat(Within(w.rows, ks), Removed(closed[1..], refs), m);
      WindowsGrandConcat([shrunk], Remaining(z, closed[1..], refs), m);
      assert [shrunk][1..] == [];
      assert [] + Remaining(z, closed[1..], refs) == Remaining(z, closed[1..], refs);
    }
  }

  // ---- Each operation ----

  lemma DropOldestBalanced(s: Reporter, m: Measure)
    requires s.closed != [] && Balanced(s, m)
    ensures Balanced(DropOldest(s), m) && DropOldest(s).current == s.current
  {
    WindowsGrandSnoc(s.log.pruned, s.closed[0], m);
  }

  lemma {:induction false} PruneOldBalanced(s: Reporter, now: int, m: Measure)
    requires Balanced(s, m)
    ensures Balanced(PruneOld(s, now), m) && PruneOld(s, now).current == s.current
    decreases |s.closed|
  {
    if s.closed != [] && now - s.closed[0].start > RETENTION {
      DropOldestBalanced(s, m);
      PruneOldBalanced(DropOldest(s), now, m);
    }
  }

  lemma {:induction false} PruneBytesBalanced(s: Reporter, m: Measure)
    requires Balanced(s, m)
    ensures Balanced(PruneBytes(s), m) && PruneBytes(s).current == s.current
    decreases |s.closed|
  {
    if s.closed != [] && s.retained > RETENTION_BYTES {
      DropOldestBalanced(s, m);
      PruneBytesBalanced(DropOldest(s), m);
    }
  }

  lemma PruneBalanced(s: Reporter, now: int, m: Measure)
    requires Balanced(s, m)
    ensures Balanced(Prune(s, now), m) && Prune(s, now).current == s.current
  {
    PruneOldBalanced(s, now, m);
    PruneBytesBalanced(PruneOld(s, now), m);
  }

  lemma CloseBalanced(z: Sizes, s: Reporter, now: int, m: Measure)
    requires WellFormed(s.current) && Balanced(s, m)
    ensures WellFormed(CloseCurrent(z, s, now).current) && Balanced(CloseCurrent(z, s, now), m)
  {
    if s.current != [] && s.hasWindow {
      var t := Closing(z, s, now);
      WindowsGrandSnoc(s.closed, NewWindow(z, s), m);
      assert Balanced(t, m);
      PruneBalanced(t, now, m);
    }
  }

  lemma RollBalanced(z: Sizes, s: Reporter, now: int, m: Measure)
    requires WellFormed(s.current) && Balanced(s, m)
    ensures WellFormed(Roll(z, s, now).current) && Balanced(Roll(z, s, now), m)
  {
    CloseBalanced(z, s, now, m);
  }

  lemma MergeBalanced(s: Reporter, incs: seq<Increment>, m: Measure)
    requires WellFormed(s.current) && Balanced(s, m)
    ensures WellFormed(MergeCounters(s, incs).current) && Balanced(MergeCounters(s, incs), m)
  {
    var accepted := Accepted(incs);
    RunTotal(s.current, accepted, Whole, ALL, m);
    CountedConcat(s.log.merged, accepted, m);
    ClippedConcat(s.log.moved, MovedAll(s.current, accepted), Whole, ALL, m);
  }

  /** Nothing that is counted has changed. */
  ghost predicate SameCounts(s: Reporter, t: Reporter) {
    && t.current == s.current && t.closed == s.closed && t.log.merged == s.log.merged && t.log.moved == s.log.moved
    && t.log.pruned == s.log.pruned && t.log.delivered == s.log.delivered && t.log.rejected == s.log.rejected
    && t.log.discarded == s.log.discarded
  }

  lemma SameBalanced(s: Reporter, t: Reporter, m: Measure)
    requires Balanced(s, m) && SameCounts(s, t)
    ensures Balanced(t, m)
  {
  }

  lemma SampleSame(t: Reporter, now: int, sample: Sample)
    ensures SameCounts(t, AddSample(t, now, sample))
  {
  }

  /** Recording a finished call keeps the balance. */
  lemma OnRequestBalanced(z: Sizes, s: Reporter, now: int, sample: Sample, incs: seq<Increment>, m: Measure)
    requires WellFormed(s.current) && Balanced(s, m)
    ensures WellFormed(OnRequest(z, s, now, sample, incs).current) && Balanced(OnRequest(z, s, now, sample, incs), m)
  {
    RollBalanced(z, s, now, m);
    MergeBalanced(Roll(z, s, now), incs, m);
    var t := MergeCounters(Roll(z, s, now), incs);
    SampleSame(t, now, sample);
    SameBalanced(t, AddSample(t, now, sample), m);
  }

  /** Selecting a batch keeps the balance. */
  lemma FlushBalanced(z: Sizes, s: Reporter, now: int, hasKey: bool, m: Measure)
    requires WellFormed(s.current) && Balanced(s, m)
    ensures var t := BeginFlush(z, s, now, hasKey).0;
      WellFormed(t.current) && Balanced(t, m)
  {
    RollBalanced(z, s, now, m);
    CloseBalanced(z, Roll(z, s, now), now, m);
    PruneBalanced(CloseCurrent(z, Roll(z, s, now), now), now, m);
  }

  lemma DisableBalanced(s: Reporter, m: Measure)
    requires Balanced(s, m)
    ensures Balanced(Disable(s), m)
  {
    FlatGrand(s.closed, m);
    GrandConcat(s.log.discarded + RowsOfWindows(s.closed), s.current, m);
    GrandConcat(s.log.discarded, RowsOfWindows(s.closed), m);
  }

  lemma AcceptBalanced(z: Sizes, s: Reporter, policy: Policy, now: int, b: Batch, m: Measure)
    requires Balanced(s, m)
    ensures Balanced(Accept(z, s, policy, now, b), m) && Accept(z, s, policy, now, b).current == s.current
  {
    RemovedGrand(z, s.closed, b.refs, m);
    GrandConcat(s.log.delivered, Removed(s.closed, b.refs), m);
  }

  lemma RefuseBalanced(z: Sizes, s: Reporter, b: Batch, m: Measure)
    requires Balanced(s, m)
    ensures Balanced(Refuse(z, s, b), m) && Refuse(z, s, b).current == s.current
  {
    RemovedGrand(z, s.closed, b.refs, m);
    GrandConcat(s.log.rejected, Removed(s.closed, b.refs), m);
  }

  lemma PaceBalanced(s: Reporter, pace: Pace, m: Measure)
    ensures Balanced(s.(pace := pace), m) == Balanced(s, m)
  {
  }

  /** Acting on a reply keeps the balance, whatever the status. */
  lemma ReplyBalanced(z: Sizes, s: Reporter, reply: Reply, now: int, b: Batch, m: Measure)
    requires WellFormed(s.current) && Balanced(s, m)
    ensures WellFormed(HandleReply(z, s, reply, now, b).current) && Balanced(HandleReply(z, s, reply, now, b), m)
  {
    var t := HandleReply(z, s, reply, now, b);
    if reply.off || (reply.status != 202 && Fatal(reply.status)) {
      assert t == Disable(s);
      DisableBalanced(s, m);
    } else if reply.status == 202 {
      assert t == Accept(z, s, reply.policy, now, b);
      AcceptBalanced(z, s, reply.policy, now, b, m);
    } else if reply.status == 413 {
      assert t == Refuse(z, s, b);
      RefuseBalanced(z, s, b, m);
    } else {
      PaceBalanced(s, t.pace, m);
      assert t == s.(pace := t.pace);
    }
  }
}
