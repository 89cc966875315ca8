// What turning to a new minute, closing the current one, and settling before a
// selection do to the windows: which are added, and which are given up.
module ReporterMinutes {
  import opened Options
  import opened Counters
  import opened FoldLadder
  import opened ReporterState
  import opened ReporterWindows

  /** The windows there were and those just closed, less the oldest n, which are given up and their rows dropped. */
  ghost predicate Turned(s: Reporter, t: Reporter, added: seq<Window>, n: nat) {
    var all := s.closed + added;
    && n <= |all|
    && t == s.(hasWindow := t.hasWindow, windowStart := t.windowStart, current := t.current, closed := all[n..],
               retained := s.retained + SizeSum(added) - SizeSum(all[..n]), dropped := t.dropped,
               log := s.log.(windows := s.log.windows + |added|, pruned := s.log.pruned + all[..n], drops := t.log.drops))
    && t.dropped - s.dropped == t.log.drops - s.log.drops == RowCount(all[..n])
  }

  lemma TurnedSame(s: Reporter, t: Reporter)
    requires t == s.(hasWindow := t.hasWindow, windowStart := t.windowStart, current := t.current)
    ensures Turned(s, t, [], 0)
  {
    var all := s.closed + [];
    assert all == s.closed && all[0..] == s.closed && all[..0] == [];
    assert s.log.pruned + [] == s.log.pruned;
  }

  lemma GaveTurned(s: Reporter, t: Reporter, n: nat)
    requires Gave(s, t, n)
    ensures Turned(s, t, [], n)
  {
    assert s.closed + [] == s.closed;
  }

  lemma PiecesTwice(was: seq<Window>, a: seq<Window>, b: seq<Window>, n: nat, k: nat)
    requires n <= |was + a| && k <= |(was + a)[n..] + b|
    ensures var first, all := was + a, was + (a + b);
      && n + k <= |all| && all[n + k..] == (first[n..] + b)[k..]
      && all[..n + k] == first[..n] + (first[n..] + b)[..k]
  {
    var first, all := was + a, was + (a + b);
    assert all == first + b;
    assert all[n..] == first[n..] + b;
  }

  lemma TurnedTrans(s: Reporter, t: Reporter, u: Reporter, a: seq<Window>, n: nat, b: seq<Window>, k: nat)
    requires Turned(s, t, a, n) && Turned(t, u, b, k)
    ensures Turned(s, u, a + b, n + k)
  {
    var first, second := s.closed + a, t.closed + b;
    PiecesTwice(s.closed, a, b, n, k);
    SizeSumConcat(a, b);
    SizeSumConcat(first[..n], second[..k]);
    RowCountConcat(first[..n], second[..k]);
    assert s.log.pruned + first[..n] + second[..k] == s.log.pruned + (first[..n] + second[..k]);
  }

  // ---- The minutes that are closed ----

  function CloseAdded(z: Sizes, s: Reporter): (r: seq<Window>)
    ensures |r| <= 1
  {
    if s.current == [] || !s.hasWindow then [] else [NewWindow(z, s)]
  }

  function RollAdded(z: Sizes, s: Reporter, now: int): (r: seq<Window>)
    ensures |r| <= 1
  {
    if s.hasWindow && MinuteStart(now) > s.windowStart then CloseAdded(z, s) else []
  }

  function SettleAdded(z: Sizes, s: Reporter, now: int): seq<Window> {
    RollAdded(z, s, now) + CloseAdded(z, Roll(z, s, now))
  }

  lemma ClosingTurned(z: Sizes, s: Reporter, now: int)
    ensures Turned(s, Closing(z, s, now), [NewWindow(z, s)], 0)
  {
    var w := NewWindow(z, s);
    var all := s.closed + [w];
    assert all[0..] == all && all[..0] == [];
    assert [w][1..] == [];
    assert s.log.pruned + [] == s.log.pruned;
  }

  /** How many windows are given up when the current minute closes. */
  ghost function CloseCount(z: Sizes, s: Reporter, now: int): nat {
    if CloseAdded(z, s) == [] then 0
    else PruneCount(Closing(z, s, now).closed, Closing(z, s, now).retained, now)
  }

  lemma CloseTurned(z: Sizes, s: Reporter, now: int)
    ensures Turned(s, CloseCurrent(z, s, now), CloseAdded(z, s), CloseCount(z, s, now))
  {
    if CloseAdded(z, s) == [] {
      TurnedSame(s, s);
    } else {
      var t := Closing(z, s, now);
      var n := CloseCount(z, s, now);
      ClosingTurned(z, s, now);
      PruneGives(t, now);
      GaveTurned(t, Prune(t, now), n);
      TurnedTrans(s, t, Prune(t, now), [NewWindow(z, s)], 0, [], n);
      assert [NewWindow(z, s)] + [] == [NewWindow(z, s)];
    }
  }

  ghost function RollCount(z: Sizes, s: Reporter, now: int): nat {
    if RollAdded(z, s, now) == [] then 0 else CloseCount(z, s, now)
  }

  lemma TurnedWindow(s: Reporter, t: Reporter, u: Reporter, added: seq<Window>, n: nat)
    requires Turned(s, t, added, n)
    requires u == t.(hasWindow := u.hasWindow, windowStart := u.windowStart)
    ensures Turned(s, u, added, n)
  {
  }

  lemma RollTurned(z: Sizes, s: Reporter, now: int)
    ensures Turned(s, Roll(z, s, now), RollAdded(z, s, now), RollCount(z, s, now))
  {
    if s.hasWindow && MinuteStart(now) > s.windowStart {
      CloseTurned(z, s, now);
      TurnedWindow(s, CloseCurrent(z, s, now), Roll(z, s, now), CloseAdded(z, s), CloseCount(z, s, now));
    } else {
      TurnedSame(s, Roll(z, s, now));
    }
  }

  ghost function SettleCount(z: Sizes, s: Reporter, now: int): nat {
    var t := Roll(z, s, now);
    var u := CloseCurrent(z, t, now);
    RollCount(z, s, now) + CloseCount(z, t, now) + PruneCount(u.closed, u.retained, now)
  }

  lemma PrunedTurned(s: Reporter, u: Reporter, added: seq<Window>, n: nat, now: int)
    requires Turned(s, u, added, n)
    ensures Turned(s, Prune(u, now), added, n + PruneCount(u.closed, u.retained, now))
  {
    var k := PruneCount(u.closed, u.retained, now);
    PruneGives(u, now);
    GaveTurned(u, Prune(u, now), k);
    TurnedTrans(s, u, Prune(u, now), added, n, [], k);
    assert added + [] == added;
  }

  lemma RollCloseTurned(z: Sizes, s: Reporter, t: Reporter, now: int)
    requires t == Roll(z, s, now)
    ensures Turned(s, CloseCurrent(z, t, now), RollAdded(z, s, now) + CloseAdded(z, t),
                   RollCount(z, s, now) + CloseCount(z, t, now))
  {
    RollTurned(z, s, now);
    CloseTurned(z, t, now);
    TurnedTrans(s, t, CloseCurrent(z, t, now), RollAdded(z, s, now), RollCount(z, s, now),
                CloseAdded(z, t), CloseCount(z, t, now));
  }

  lemma SettleTurned(z: Sizes, s: Reporter, now: int)
    ensures Turned(s, Settled(z, s, now), SettleAdded(z, s, now), SettleCount(z, s, now))
  {
    var t := Roll(z, s, now);
    RollCloseTurned(z, s, t, now);
    PrunedTurned(s, CloseCurrent(z, t, now), SettleAdded(z, s, now), RollCount(z, s, now) + CloseCount(z, t, now), now);
  }
}
