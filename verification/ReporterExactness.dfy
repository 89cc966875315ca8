// Exactly when the reporter's byte accounting is exact: no batch is taken out
// after one of its windows was pruned.
module ReporterExactness {
  import opened Options
  import opened Counters
  import opened FoldLadder
  import opened ReporterState
  import opened ReporterBalance
  import opened ReporterWindows
  import opened ReporterBatches
  import opened ReporterRuns
  import opened ReporterTheorems

  /** Taking a row out of a window makes its encoding shorter. */
  ghost predicate Strict(z: Sizes) {
    forall t: Table, ks: set<CounterKey> :: |Without(t, ks)| < |t| ==> z.window(Without(t, ks)) < z.window(t)
  }

  lemma {:induction false} WithoutFewer(t: Table, ks: set<CounterKey>, i: nat)
    requires i < |t| && t[i].key in ks
    ensures |Without(t, ks)| < |t|
  {
    WithoutAll(t[1..], ks);
    if i > 0 {
      WithoutFewer(t[1..], ks, i - 1);
    }
  }

  /** A window loses bytes to every acknowledgement that names one of its rows. */
  lemma SelectedShrinks(z: Sizes, r: Ref, refs: seq<Ref>)
    requires Strict(z) && WindowOk(z, r.window) && Has(r.window.rows, r.key) && r in refs
    ensures Shrunk(z, r.window, refs).size < r.window.size
  {
    var rows, ks := r.window.rows, SentKeys(refs, r.window.id);
    assert r.key in ks;
    WithoutFewer(rows, ks, Find(rows, r.key));
    assert z.window(Without(rows, ks)) < z.window(rows);
  }

  lemma {:induction false} FreedSome(z: Sizes, windows: seq<Window>, refs: seq<Ref>)
    requires Strict(z) && forall r | r in refs :: WindowOk(z, r.window) && Has(r.window.rows, r.key)
    requires forall w | w in windows :: exists r :: r in refs && r.window == w
    ensures windows != [] ==> Freed(z, windows, refs) > 0
    ensures windows == [] ==> Freed(z, windows, refs) == 0
  {
    if windows != [] {
      assert windows[0] in windows;
      var r :| r in refs && r.window == windows[0];
      SelectedShrinks(z, r, refs);
      assert forall w | w in windows[1..] :: w in windows;
      FreedSome(z, windows[1..], refs);
    }
  }

  lemma {:induction false} OrphansIff(closed: seq<Window>, refs: seq<Ref>)
    ensures Orphans(closed, refs) == [] <==> forall r | r in refs :: Live(closed, r.window.id)
  {
    if refs != [] {
      var before, last := refs[..|refs| - 1], refs[|refs| - 1];
      OrphansIff(closed, before);
      assert refs == before + [last];
    }
  }

  /** Taking a batch out leaves the accounting where it was exactly when every window it names is still retained. */
  lemma TakeOutExactIff(z: Sizes, s: Reporter, b: Batch)
    requires Strict(z) && forall r | r in b.refs :: WindowOk(z, r.window) && Has(r.window.rows, r.key)
    ensures RemoveSelected(z, s, b).log.drift == s.log.drift <==> forall r | r in b.refs :: Live(s.closed, r.window.id)
    ensures RemoveSelected(z, s, b).log.drift >= s.log.drift
  {
    var orphans := Orphans(s.closed, b.refs);
    OrphansSelected(s.closed, b.refs);
    OrphansIff(s.closed, b.refs);
    FreedSome(z, orphans, b.refs);
  }

  lemma FlightExactIff(z: Sizes, s: Reporter, f: Flight)
    requires Strict(z) && FlightOk(z, s, f)
    ensures var drift := RemoveSelected(z, s, f.batch).log.drift;
      drift >= s.log.drift && (drift == s.log.drift <==> forall r | r in f.batch.refs :: Live(s.closed, r.window.id))
  {
    FlightRefsOk(z, s, f);
    AllRefsFrom(f.base);
    assert forall r | r in f.batch.refs :: r in AllRefs(f.base);
    TakeOutExactIff(z, s, f.batch);
  }

  lemma NextExactIff(z: Sizes, y: Sys, step: Step)
    requires Strict(z) && Good(z, y) && y.r.log.drift == 0
    ensures Next(z, y, step).r.log.drift == 0 <==> KeptAt(y, step)
    ensures Next(z, y, step).r.log.drift >= 0
  {
    if step.Answer? && y.flight.Some? {
      var f := y.flight.value;
      AnswerDrift(z, y.r, step.reply, step.at, f.batch);
      FlightExactIff(z, y.r, f);
    } else {
      NextKeeps(z, y, step);
    }
  }

  lemma ExactIff(z: Sizes, rate: real, steps: seq<Step>)
    ensures var s := Run(z, Start(rate), steps).r;
      s.retained == SizeSum(s.closed) <==> s.log.drift == 0
  {
    RunAccounts(z, rate, steps);
  }

  lemma StepExact(z: Sizes, rate: real, steps: seq<Step>, n: nat)
    requires Strict(z) && n < |steps|
    requires Run(z, Start(rate), steps[..n]).r.log.drift == 0
    ensures Run(z, Start(rate), steps[..n + 1]).r.log.drift == 0 <==> KeptAt(Run(z, Start(rate), steps[..n]), steps[n])
  {
    RunGood(z, rate, steps[..n]);
    assert steps[..n + 1][..n] == steps[..n];
    NextExactIff(z, Run(z, Start(rate), steps[..n]), steps[n]);
  }

  lemma {:induction false} KeptExact(z: Sizes, rate: real, steps: seq<Step>, n: nat)
    requires Strict(z) && KeptInFlight(z, rate, steps) && n <= |steps|
    ensures Run(z, Start(rate), steps[..n]).r.log.drift == 0
  {
    if n > 0 {
      KeptExact(z, rate, steps, n - 1);
      assert KeptAt(Run(z, Start(rate), steps[..n - 1]), steps[n - 1]);
      StepExact(z, rate, steps, n - 1);
    }
  }

  /**
   * The retained bytes are those of the closed windows after every step of a run if and only if no batch of the run
   * is taken out after one of its windows was pruned.
   */
  lemma RetainedExactIff(z: Sizes, rate: real, steps: seq<Step>)
    requires Strict(z)
    ensures KeptInFlight(z, rate, steps) <==>
      forall n | 0 <= n <= |steps| ::
        var s := Run(z, Start(rate), steps[..n]).r;
        s.retained == SizeSum(s.closed)
  {
    forall n | 0 <= n <= |steps|
      ensures Run(z, Start(rate), steps[..n]).r.retained == SizeSum(Run(z, Start(rate), steps[..n]).r.closed)
        <==> Run(z, Start(rate), steps[..n]).r.log.drift == 0
    {
      ExactIff(z, rate, steps[..n]);
    }
    if KeptInFlight(z, rate, steps) {
      forall n | 0 <= n <= |steps|
        ensures Run(z, Start(rate), steps[..n]).r.log.drift == 0
      {
        KeptExact(z, rate, steps, n);
      }
    } else {
      var n :| 0 <= n < |steps| && !KeptAt(Run(z, Start(rate), steps[..n]), steps[n]);
      if Run(z, Start(rate), steps[..n]).r.log.drift == 0 {
        StepExact(z, rate, steps, n);
      }
    }
  }
}
