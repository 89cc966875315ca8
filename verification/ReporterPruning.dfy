// Every prune a run performs, under a clock that never goes back: what it gives
// up is the least that restores the retention limits.
module ReporterPruning {
  import opened Options
  import opened Counters
  import opened FoldLadder
  import opened ReporterState
  import opened ReporterBalance
  import opened ReporterWindows
  import opened ReporterMinutes
  import opened ReporterRuns
  import opened ReporterTheorems

  /** A recorded call reaches the reporter. */
  predicate Hears(s: Reporter) {
    !s.disabled && !s.shut
  }

  /** A flush goes as far as selecting. */
  predicate Selects(y: Sys, step: Step) {
    step.Flush? && y.flight.None? && MayPost(y.r, step.at) && step.hasKey
  }

  /** The minute a step closes, if any. */
  function AddedBy(z: Sizes, y: Sys, step: Step): seq<Window> {
    if step.Record? && Hears(y.r) then RollAdded(z, y.r, step.at)
    else if Selects(y, step) then SettleAdded(z, y.r, step.at)
    else []
  }

  /** A step enforces retention: a recorded call when it closes a minute, a flush whenever it selects. */
  predicate Prunes(z: Sizes, y: Sys, step: Step) {
    (step.Record? && AddedBy(z, y, step) != []) || Selects(y, step)
  }

  /** How many windows a step gives up. */
  ghost function CountBy(z: Sizes, y: Sys, step: Step): nat {
    if step.Record? && Hears(y.r) then RollCount(z, y.r, step.at)
    else if Selects(y, step) then SettleCount(z, y.r, step.at)
    else 0
  }

  // ---- One prune ----

  lemma ClosingSorted(z: Sizes, s: Reporter, now: int)
    requires InTime(s, now) && CloseAdded(z, s) != []
    ensures Sorted(s.closed + CloseAdded(z, s))
  {
    assert forall i | 0 <= i < |s.closed| :: s.closed[i] in s.closed;
  }

  lemma CloseShortest(z: Sizes, s: Reporter, now: int)
    requires WindowsOk(z, s) && InTime(s, now) && CloseAdded(z, s) != []
    ensures Shortest(s.closed + CloseAdded(z, s), CloseCount(z, s, now), s.log.drift, now)
  {
    var t := Closing(z, s, now);
    ClosingAged(z, s, now);
    ClosingSorted(z, s, now);
    PruneShortest(t.closed, t.retained, t.log.drift, now, CloseCount(z, s, now));
  }

  /** Windows that fit already are all kept. */
  lemma FitsNone(closed: seq<Window>, n: nat, excess: int, now: int)
    requires Shortest(closed, n, excess, now) && Fits(closed, excess, now)
    ensures n == 0
  {
    assert closed[0..] == closed;
  }

  /** A prune right after another gives up nothing. */
  lemma PruneAgain(z: Sizes, u: Reporter, all: seq<Window>, n: nat, now: int)
    requires WindowsOk(z, u) && Sorted(u.closed)
    requires Shortest(all, n, u.log.drift, now) && u.closed == all[n..]
    ensures PruneCount(u.closed, u.retained, now) == 0
  {
    var k := PruneCount(u.closed, u.retained, now);
    PruneShortest(u.closed, u.retained, u.log.drift, now, k);
    FitsNone(u.closed, k, u.log.drift, now);
  }

  lemma RollEmpties(z: Sizes, s: Reporter, now: int)
    requires RollAdded(z, s, now) != []
    ensures Roll(z, s, now).current == [] && CloseAdded(z, Roll(z, s, now)) == []
  {
    CloseTurned(z, s, now);
    var t := Closing(z, s, now);
    PruneGives(t, now);
    assert CloseCurrent(z, s, now) == Prune(t, now);
  }

  lemma RollKeeps(z: Sizes, s: Reporter, now: int)
    requires RollAdded(z, s, now) == []
    ensures Roll(z, s, now) == s.(hasWindow := true, windowStart := Roll(z, s, now).windowStart)
  {
  }

  /** A settling closes at most one minute: the roll's, or else the current one. */
  lemma SettleCases(z: Sizes, s: Reporter, t: Reporter, now: int)
    requires t == Roll(z, s, now)
    ensures RollAdded(z, s, now) != [] ==>
      && SettleAdded(z, s, now) == CloseAdded(z, s) == RollAdded(z, s, now)
      && RollCount(z, s, now) == CloseCount(z, s, now) && CloseCount(z, t, now) == 0
    ensures RollAdded(z, s, now) == [] ==>
      && SettleAdded(z, s, now) == CloseAdded(z, t) && RollCount(z, s, now) == 0
      && t.closed == s.closed && t.log.drift == s.log.drift
  {
    if RollAdded(z, s, now) != [] {
      RollEmpties(z, s, now);
      assert RollAdded(z, s, now) + [] == RollAdded(z, s, now);
    } else {
      RollKeeps(z, s, now);
      assert [] + CloseAdded(z, t) == CloseAdded(z, t);
    }
  }

  lemma SettleSorted(z: Sizes, s: Reporter, now: int)
    requires WindowsOk(z, s) && InTime(s, now)
    ensures Sorted(s.closed + SettleAdded(z, s, now))
  {
    var t := Roll(z, s, now);
    SettleCases(z, s, t, now);
    if RollAdded(z, s, now) != [] {
      ClosingSorted(z, s, now);
    } else if CloseAdded(z, t) != [] {
      RollInTime(z, s, now);
      ClosingSorted(z, t, now);
    } else {
      assert s.closed + [] == s.closed;
    }
  }

  lemma CloseAfterRoll(z: Sizes, s: Reporter, t: Reporter, now: int)
    requires WindowsOk(z, s) && InTime(s, now) && t == Roll(z, s, now) && CloseAdded(z, t) != []
    requires t.closed == s.closed && t.log.drift == s.log.drift
    ensures Shortest(s.closed + CloseAdded(z, t), CloseCount(z, t, now), s.log.drift, now)
  {
    var a, k := RollAged(z, s, now);
    RollInTime(z, s, now);
    CloseShortest(z, t, now);
  }

  /** After the roll and the close, what was given up is exactly what had to go, if a minute was closed at all. */
  lemma RollCloseShortest(z: Sizes, s: Reporter, t: Reporter, now: int)
    requires WindowsOk(z, s) && InTime(s, now) && t == Roll(z, s, now) && SettleAdded(z, s, now) != []
    ensures Shortest(s.closed + SettleAdded(z, s, now), RollCount(z, s, now) + CloseCount(z, t, now), s.log.drift, now)
  {
    SettleCases(z, s, t, now);
    if RollAdded(z, s, now) != [] {
      CloseShortest(z, s, now);
    } else {
      CloseAfterRoll(z, s, t, now);
    }
  }

  lemma RollCloseFits(z: Sizes, s: Reporter, t: Reporter, now: int)
    requires WindowsOk(z, s) && InTime(s, now) && t == Roll(z, s, now)
    ensures var n := RollCount(z, s, now) + CloseCount(z, t, now);
      n == 0 || Shortest(s.closed + SettleAdded(z, s, now), n, s.log.drift, now)
  {
    if SettleAdded(z, s, now) != [] {
      RollCloseShortest(z, s, t, now);
    } else {
      SettleCases(z, s, t, now);
    }
  }

  lemma SettledBefore(z: Sizes, s: Reporter, u: Reporter, now: int)
    requires WindowsOk(z, s) && InTime(s, now) && u == CloseCurrent(z, Roll(z, s, now), now)
    ensures WindowsOk(z, u) && Sorted(u.closed)
  {
    var a, k := RollCloseAged(z, s, now);
    RollInTime(z, s, now);
    var b, j := RollAged(z, s, now);
    CloseInTime(z, Roll(z, s, now), now);
  }

  /** The last prune of a settling finds something to give up only if no minute was closed. */
  lemma LastPrune(z: Sizes, u: Reporter, all: seq<Window>, n: nat, drift: int, now: int)
    requires WindowsOk(z, u) && Sorted(u.closed) && u.log.drift == drift
    requires n <= |all| && u.closed == all[n..]
    ensures n == 0 || Shortest(all, n, drift, now) ==> Shortest(all, n + PruneCount(u.closed, u.retained, now), drift, now)
  {
    var k := PruneCount(u.closed, u.retained, now);
    if n == 0 {
      assert all[0..] == all;
      PruneShortest(u.closed, u.retained, drift, now, k);
    } else if Shortest(all, n, drift, now) {
      PruneAgain(z, u, all, n, now);
    }
  }

  lemma RollCloseLeft(z: Sizes, s: Reporter, t: Reporter, u: Reporter, n: nat, now: int)
    requires t == Roll(z, s, now) && u == CloseCurrent(z, t, now)
    requires n == RollCount(z, s, now) + CloseCount(z, t, now)
    ensures var all := s.closed + SettleAdded(z, s, now);
      n <= |all| && u.closed == all[n..] && u.log.drift == s.log.drift
    ensures SettleCount(z, s, now) == n + PruneCount(u.closed, u.retained, now)
  {
    RollCloseTurned(z, s, t, now);
  }

  lemma SettleShortest(z: Sizes, s: Reporter, now: int)
    requires WindowsOk(z, s) && InTime(s, now)
    ensures Shortest(s.closed + SettleAdded(z, s, now), SettleCount(z, s, now), s.log.drift, now)
  {
    var t := Roll(z, s, now);
    var u, n := CloseCurrent(z, t, now), RollCount(z, s, now) + CloseCount(z, t, now);
    RollCloseLeft(z, s, t, u, n, now);
    SettledBefore(z, s, u, now);
    RollCloseFits(z, s, t, now);
    LastPrune(z, u, s.closed + SettleAdded(z, s, now), n, s.log.drift, now);
  }

  // ---- Every step of a run ----

  lemma RecordKeepsWindows(z: Sizes, s: Reporter, at: int, sample: Sample, incs: seq<Increment>)
    ensures var t, u := OnRequest(z, s, at, sample, incs), if Hears(s) then Roll(z, s, at) else s;
      t.closed == u.closed && t.log.pruned == u.log.pruned
  {
    SampleSame(MergeCounters(Roll(z, s, at), incs), at, sample);
  }

  lemma FlushKeepsWindows(z: Sizes, s: Reporter, at: int, hasKey: bool)
    ensures var t, u := BeginFlush(z, s, at, hasKey).0, if MayPost(s, at) && hasKey then Settled(z, s, at) else s;
      t.closed == u.closed && t.log.pruned == u.log.pruned
  {
    var t := Settled(z, s, at);
    assert BeginFlush(z, s, at, hasKey).0 == s || SelectFrom(z, t, at).0 in {t, t.(sent := t.sent + 1)};
  }

  lemma ReplyKeepsPruned(z: Sizes, s: Reporter, reply: Reply, at: int, b: Batch)
    ensures HandleReply(z, s, reply, at, b).log.pruned == s.log.pruned
  {
  }

  /** What a step leaves of the windows there were and the one it closed, whatever the clock. */
  ghost predicate Leaves(s: Reporter, t: Reporter, added: seq<Window>, n: nat) {
    var all := s.closed + added;
    n <= |all| && t.closed == all[n..] && t.log.pruned == s.log.pruned + all[..n]
  }

  lemma LeavesAll(s: Reporter, t: Reporter)
    requires t.closed == s.closed && t.log.pruned == s.log.pruned
    ensures Leaves(s, t, [], 0)
  {
    assert s.closed + [] == s.closed && s.closed[0..] == s.closed && s.log.pruned + [] == s.log.pruned;
  }

  lemma StepLeaves(z: Sizes, y: Sys, step: Step)
    requires !step.Answer?
    ensures Leaves(y.r, Next(z, y, step).r, AddedBy(z, y, step), CountBy(z, y, step))
    ensures !Prunes(z, y, step) ==> AddedBy(z, y, step) == [] && CountBy(z, y, step) == 0
  {
    var s := y.r;
    if step.Record? {
      RecordKeepsWindows(z, s, step.at, step.sample, step.incs);
      if Hears(s) {
        RollTurned(z, s, step.at);
      } else {
        LeavesAll(s, Next(z, y, step).r);
      }
    } else if Selects(y, step) {
      FlushKeepsWindows(z, s, step.at, step.hasKey);
      SettleTurned(z, s, step.at);
    } else {
      LeavesAll(s, Next(z, y, step).r);
    }
  }

  lemma AnswerKeepsPruned(z: Sizes, y: Sys, step: Step)
    requires step.Answer?
    ensures Next(z, y, step).r.log.pruned == y.r.log.pruned
  {
    if y.flight.Some? {
      ReplyKeepsPruned(z, y.r, step.reply, step.at, y.flight.value.batch);
    }
  }

  lemma StepShortest(z: Sizes, y: Sys, step: Step)
    requires Prunes(z, y, step) && WindowsOk(z, y.r) && InTime(y.r, step.at)
    ensures var all := y.r.closed + AddedBy(z, y, step);
      Sorted(all) && Shortest(all, CountBy(z, y, step), y.r.log.drift, step.at)
  {
    if step.Record? {
      ClosingSorted(z, y.r, step.at);
      CloseShortest(z, y.r, step.at);
    } else {
      SettleSorted(z, y.r, step.at);
      SettleShortest(z, y.r, step.at);
    }
  }

  lemma LeavesNothing(s: Reporter)
    ensures (s.closed + [])[0..] == s.closed
  {
  }

  lemma ForwardSplit(steps: seq<Step>, step: Step, clock: int)
    requires Forward(steps + [step], clock)
    ensures Forward(steps, clock) && TimeOf(step, Clock(steps, clock)) >= Clock(steps, clock)
  {
    assert (steps + [step])[..|steps|] == steps;
  }

  lemma InTimeLater(s: Reporter, clock: int, at: int)
    requires InTime(s, clock) && clock <= at
    ensures InTime(s, at)
  {
    MinuteMonotone(clock, at);
  }

  /**
   * In any run under a clock that never goes back, each step that enforces retention, a recorded call that closes a
   * minute or a flush that selects, leaves the windows there were and the one just closed less exactly the shortest
   * prefix that restores the age limit and the byte limit; no other step but an answer changes them.
   */
  lemma RunPrunesShortest(z: Sizes, rate: real, steps: seq<Step>, step: Step, clock: int)
    requires Forward(steps + [step], clock)
    ensures var y := Run(z, Start(rate), steps);
      var t, all, n := Run(z, Start(rate), steps + [step]).r, y.r.closed + AddedBy(z, y, step), CountBy(z, y, step);
      && (Prunes(z, y, step) ==>
            && Sorted(all) && Shortest(all, n, y.r.log.drift, step.at)
            && t.closed == all[n..] && t.log.pruned == y.r.log.pruned + all[..n])
      && (!Prunes(z, y, step) && !step.Answer? ==> t.closed == y.r.closed)
  {
    var y := Run(z, Start(rate), steps);
    assert (steps + [step])[..|steps|] == steps;
    if !step.Answer? {
      StepLeaves(z, y, step);
      LeavesNothing(y.r);
    }
    RunGood(z, rate, steps);
    ForwardSplit(steps, step, clock);
    RunInTime(z, rate, steps, clock);
    if Prunes(z, y, step) {
      InTimeLater(y.r, Clock(steps, clock), step.at);
      StepShortest(z, y, step);
    }
  }
}
