// Closed windows: their byte accounting, their order, and what pruning gives up.
module ReporterWindows {
  import opened Options
  import opened Counters
  import opened FoldLadder
  import opened ReporterState
  import opened ReporterBalance

  function SizeSum(windows: seq<Window>): int {
    if windows == [] then 0 else windows[0].size + SizeSum(windows[1..])
  }

  /** A window holds rows under distinct keys, and its size is that of its rows. */
  ghost predicate WindowOk(z: Sizes, w: Window) {
    WellFormed(w.rows) && w.rows != [] && w.size == z.window(w.rows)
  }

  ghost predicate ListOk(z: Sizes, closed: seq<Window>, next: nat) {
    && InOrder(closed)
    && (forall w | w in closed :: w.id < next && WindowOk(z, w))
  }

  ghost predicate WindowsOk(z: Sizes, s: Reporter) {
    && WellFormed(s.current)
    && ListOk(z, s.closed, s.log.windows)
    && s.retained + s.log.drift == SizeSum(s.closed)
  }

  /** Taking rows out of a window never makes its encoding longer. */
  ghost predicate Shrinks(z: Sizes) {
    forall t: Table, ks: set<CounterKey> :: z.window(Without(t, ks)) <= z.window(t)
  }

  lemma {:induction false} SizeSumConcat(a: seq<Window>, b: seq<Window>)
    ensures SizeSum(a + b) == SizeSum(a) + SizeSum(b)
  {
    if a == [] {
      assert a + b == b;
    } else {
      assert (a + b)[1..] == a[1..] + b;
      SizeSumConcat(a[1..], b);
    }
  }

  lemma {:induction false} SizeSumNonNegative(z: Sizes, closed: seq<Window>)
    requires forall w | w in closed :: WindowOk(z, w)
    ensures SizeSum(closed) >= 0
  {
    if closed != [] {
      assert closed[0] in closed;
      SizeSumNonNegative(z, closed[1..]);
    }
  }

  // ---- Retention ----

  /** How many rows the windows hold. */
  function RowCount(windows: seq<Window>): (n: nat) {
    if windows == [] then 0 else |windows[0].rows| + RowCount(windows[1..])
  }

  lemma {:induction false} RowCountConcat(a: seq<Window>, b: seq<Window>)
    ensures RowCount(a + b) == RowCount(a) + RowCount(b)
  {
    if a == [] {
      assert a + b == b;
    } else {
      assert (a + b)[1..] == a[1..] + b;
      RowCountConcat(a[1..], b);
    }
  }

  /** The closed windows after pruning are a suffix of those before, and the prefix is what was given up. */
  ghost predicate Gave(s: Reporter, t: Reporter, n: nat) {
    && n <= |s.closed|
    && t == s.(closed := s.closed[n..], retained := s.retained - SizeSum(s.closed[..n]), dropped := t.dropped,
               log := s.log.(pruned := s.log.pruned + s.closed[..n], drops := t.log.drops))
    && t.dropped - s.dropped == t.log.drops - s.log.drops == RowCount(s.closed[..n])
  }

  lemma GaveNone(s: Reporter)
    ensures Gave(s, s, 0)
  {
    assert s.closed[0..] == s.closed;
    assert s.log.pruned + [] == s.log.pruned;
  }

  lemma GaveOne(s: Reporter)
    requires s.closed != []
    ensures Gave(s, DropOldest(s), 1)
  {
    assert s.closed[..1] == [s.closed[0]];
    assert [s.closed[0]][1..] == [];
  }

  lemma Pieces(closed: seq<Window>, n: nat, k: nat)
    requires n + k <= |closed|
    ensures closed[..n + k] == closed[..n] + closed[n..][..k]
    ensures closed[n + k..] == closed[n..][k..]
    ensures SizeSum(closed[..n + k]) == SizeSum(closed[..n]) + SizeSum(closed[n..][..k])
    ensures RowCount(closed[..n + k]) == RowCount(closed[..n]) + RowCount(closed[n..][..k])
  {
    assert closed[..n + k] == closed[..n] + closed[n..][..k];
    SizeSumConcat(closed[..n], closed[n..][..k]);
    RowCountConcat(closed[..n], closed[n..][..k]);
  }

  lemma GaveMore(s: Reporter, t: Reporter, u: Reporter, n: nat, k: nat)
    requires Gave(s, t, n) && Gave(t, u, k)
    ensures Gave(s, u, n + k)
  {
    Pieces(s.closed, n, k);
    assert s.log.pruned + s.closed[..n] + t.closed[..k] == s.log.pruned + (s.closed[..n] + t.closed[..k]);
  }

  lemma ListOkTail(z: Sizes, closed: seq<Window>, next: nat, n: nat)
    requires ListOk(z, closed, next) && n <= |closed|
    ensures ListOk(z, closed[n..], next)
  {
    assert forall w | w in closed[n..] :: w in closed;
  }

  lemma GaveOk(z: Sizes, s: Reporter, t: Reporter, n: nat)
    requires WindowsOk(z, s) && Gave(s, t, n)
    ensures WindowsOk(z, t)
  {
    ListOkTail(z, s.closed, s.log.windows, n);
    SizeSumConcat(s.closed[..n], s.closed[n..]);
    assert s.closed == s.closed[..n] + s.closed[n..];
  }

  /** Whether the windows satisfy both retention limits. */
  ghost predicate Fits(closed: seq<Window>, excess: int, now: int) {
    && (forall w | w in closed :: now - w.start <= RETENTION)
    && (closed == [] || SizeSum(closed) - excess <= RETENTION_BYTES)
  }

  ghost predicate Sorted(closed: seq<Window>) {
    forall i, j | 0 <= i < j < |closed| :: closed[i].start <= closed[j].start
  }

  /** How many leading windows are past the retention age. */
  ghost function OldCount(closed: seq<Window>, now: int): (n: nat)
    ensures n <= |closed|
    ensures forall j | 0 <= j < n :: now - closed[j].start > RETENTION
    ensures n < |closed| ==> now - closed[n].start <= RETENTION
  {
    if closed != [] && now - closed[0].start > RETENTION then 1 + OldCount(closed[1..], now) else 0
  }

  /** How many leading windows must go before the retained bytes are within the cap. */
  ghost function OverCount(closed: seq<Window>, retained: int): (n: nat)
    ensures n <= |closed|
    ensures n < |closed| ==> retained - SizeSum(closed[..n]) <= RETENTION_BYTES
  {
    if closed != [] && retained > RETENTION_BYTES then
      var n := OverCount(closed[1..], retained - closed[0].size);
      Pieces(closed, 1, n);
      assert [closed[0]][1..] == [] && closed[..1] == [closed[0]];
      1 + n
    else 0
  }

  lemma {:induction false} OverBefore(closed: seq<Window>, retained: int, j: nat)
    requires j < OverCount(closed, retained)
    ensures retained - SizeSum(closed[..j]) > RETENTION_BYTES
  {
    if j > 0 {
      OverBefore(closed[1..], retained - closed[0].size, j - 1);
      Pieces(closed, 1, j - 1);
      assert [closed[0]][1..] == [] && closed[..1] == [closed[0]];
    }
  }

  lemma {:induction false} PruneOldGives(s: Reporter, now: int)
    ensures Gave(s, PruneOld(s, now), OldCount(s.closed, now))
    decreases |s.closed|
  {
    if s.closed != [] && now - s.closed[0].start > RETENTION {
      var t := DropOldest(s);
      PruneOldGives(t, now);
      GaveOne(s);
      GaveMore(s, t, PruneOld(t, now), 1, OldCount(t.closed, now));
    } else {
      GaveNone(s);
    }
  }

  lemma {:induction false} PruneBytesGives(s: Reporter)
    ensures Gave(s, PruneBytes(s), OverCount(s.closed, s.retained))
    decreases |s.closed|
  {
    if s.closed != [] && s.retained > RETENTION_BYTES {
      var t := DropOldest(s);
      PruneBytesGives(t);
      GaveOne(s);
      GaveMore(s, t, PruneBytes(t), 1, OverCount(t.closed, t.retained));
    } else {
      GaveNone(s);
    }
  }

  lemma {:induction false} PruneBytesFits(s: Reporter)
    ensures PruneBytes(s).closed == [] || PruneBytes(s).retained <= RETENTION_BYTES
    decreases |s.closed|
  {
    if s.closed != [] && s.retained > RETENTION_BYTES {
      PruneBytesFits(DropOldest(s));
    }
  }

  /** What pruning gives up: the windows past their age, then those over the byte cap. */
  ghost function PruneCount(closed: seq<Window>, retained: int, now: int): (n: nat)
    ensures n <= |closed|
  {
    var k := OldCount(closed, now);
    k + OverCount(closed[k..], retained - SizeSum(closed[..k]))
  }

  lemma PruneGives(s: Reporter, now: int)
    ensures Gave(s, Prune(s, now), PruneCount(s.closed, s.retained, now))
  {
    var t := PruneOld(s, now);
    PruneOldGives(s, now);
    PruneBytesGives(t);
    GaveMore(s, t, PruneBytes(t), OldCount(s.closed, now), OverCount(t.closed, t.retained));
  }

  lemma PruneOk(z: Sizes, s: Reporter, now: int)
    requires WindowsOk(z, s)
    ensures WindowsOk(z, Prune(s, now))
    ensures Prune(s, now).closed == [] || Prune(s, now).retained <= RETENTION_BYTES
  {
    PruneGives(s, now);
    GaveOk(z, s, Prune(s, now), PruneCount(s.closed, s.retained, now));
    PruneBytesFits(PruneOld(s, now));
  }

  lemma OldUnfit(closed: seq<Window>, excess: int, now: int, j: nat)
    requires j < |closed| && now - closed[j].start > RETENTION
    ensures !Fits(closed[j..], excess, now)
  {
    assert closed[j..][0] == closed[j];
    assert closed[j] in closed[j..];
  }

  lemma YoungTail(closed: seq<Window>, k: nat, n: nat, now: int)
    requires Sorted(closed) && k <= n <= |closed|
    requires k < |closed| ==> now - closed[k].start <= RETENTION
    ensures forall w | w in closed[n..] :: now - w.start <= RETENTION
  {
    forall w | w in closed[n..]
      ensures now - w.start <= RETENTION
    {
      var j :| 0 <= j < |closed[n..]| && closed[n..][j] == w;
      assert closed[n + j] == w;
      assert closed[k].start <= closed[n + j].start;
    }
  }

  lemma SizeSumTail(closed: seq<Window>, j: nat)
    requires j <= |closed|
    ensures SizeSum(closed[j..]) == SizeSum(closed) - SizeSum(closed[..j])
  {
    SizeSumConcat(closed[..j], closed[j..]);
    assert closed == closed[..j] + closed[j..];
  }

  lemma OverUnfit(closed: seq<Window>, retained: int, excess: int, now: int, k: nat, j: nat)
    requires retained + excess == SizeSum(closed) && k <= |closed|
    requires j < OverCount(closed[k..], retained - SizeSum(closed[..k]))
    ensures !Fits(closed[k + j..], excess, now)
  {
    OverBefore(closed[k..], retained - SizeSum(closed[..k]), j);
    Pieces(closed, k, j);
    SizeSumTail(closed, k + j);
    assert closed[k + j..] != [];
  }

  lemma CountWithin(closed: seq<Window>, retained: int, excess: int, k: nat, i: nat)
    requires retained + excess == SizeSum(closed)
    requires k <= |closed| && i == OverCount(closed[k..], retained - SizeSum(closed[..k])) && k + i < |closed|
    ensures SizeSum(closed[k + i..]) - excess <= RETENTION_BYTES
  {
    Pieces(closed, k, i);
    SizeSumTail(closed, k + i);
  }

  lemma FitsFrom(closed: seq<Window>, n: nat, excess: int, now: int)
    requires n <= |closed| && forall w | w in closed[n..] :: now - w.start <= RETENTION
    requires n < |closed| ==> SizeSum(closed[n..]) - excess <= RETENTION_BYTES
    ensures Fits(closed[n..], excess, now)
  {
  }

  lemma CountFits(closed: seq<Window>, retained: int, excess: int, now: int, k: nat, i: nat)
    requires Sorted(closed) && retained + excess == SizeSum(closed)
    requires k == OldCount(closed, now) && i == OverCount(closed[k..], retained - SizeSum(closed[..k]))
    ensures Fits(closed[k + i..], excess, now)
  {
    YoungTail(closed, k, k + i, now);
    if k + i < |closed| {
      CountWithin(closed, retained, excess, k, i);
    }
    FitsFrom(closed, k + i, excess, now);
  }

  lemma CountUnfit(closed: seq<Window>, retained: int, excess: int, now: int, k: nat, i: nat, j: nat)
    requires retained + excess == SizeSum(closed) && j < k + i
    requires k == OldCount(closed, now) && i == OverCount(closed[k..], retained - SizeSum(closed[..k]))
    ensures !Fits(closed[j..], excess, now)
  {
    if j < k {
      OldUnfit(closed, excess, now, j);
    } else {
      OverUnfit(closed, retained, excess, now, k, j - k);
    }
  }

  /** From n on the windows fit, and from no earlier. */
  ghost predicate Shortest(closed: seq<Window>, n: nat, excess: int, now: int) {
    n <= |closed| && Fits(closed[n..], excess, now)
    && forall j | 0 <= j < n :: !Fits(closed[j..], excess, now)
  }

  lemma CountShortest(closed: seq<Window>, retained: int, excess: int, now: int, k: nat, i: nat)
    requires Sorted(closed) && retained + excess == SizeSum(closed)
    requires k == OldCount(closed, now) && i == OverCount(closed[k..], retained - SizeSum(closed[..k]))
    ensures Shortest(closed, k + i, excess, now)
  {
    CountFits(closed, retained, excess, now, k, i);
    forall j | 0 <= j < k + i
      ensures !Fits(closed[j..], excess, now)
    {
      CountUnfit(closed, retained, excess, now, k, i, j);
    }
  }

  lemma PruneCountParts(closed: seq<Window>, retained: int, now: int) returns (k: nat, i: nat)
    ensures k == OldCount(closed, now) && i == OverCount(closed[k..], retained - SizeSum(closed[..k]))
    ensures PruneCount(closed, retained, now) == k + i
  {
    k := OldCount(closed, now);
    i := OverCount(closed[k..], retained - SizeSum(closed[..k]));
  }

  /** The number of windows pruning gives up is the least that restores the age and byte limits. */
  lemma PruneShortest(closed: seq<Window>, retained: int, excess: int, now: int, n: nat)
    requires Sorted(closed) && retained + excess == SizeSum(closed)
    requires n == PruneCount(closed, retained, now)
    ensures Shortest(closed, n, excess, now)
  {
    var k, i := PruneCountParts(closed, retained, now);
    CountShortest(closed, retained, excess, now, k, i);
  }

  // ---- Ageing: closing the current minute and enforcing retention ----

  /** Byte accounting never runs ahead of the retained windows, and they stay within the cap. */
  ghost predicate Capped(s: Reporter) {
    s.log.drift >= 0 && s.retained <= RETENTION_BYTES
  }

  /** Everything but the windows and the current minute is as it was; drops may only have been added. */
  ghost predicate SameElse(s: Reporter, t: Reporter) {
    && t.events == s.events && t.eventsSize == s.eventsSize && t.log.arrivals == s.log.arrivals
    && t.pace == s.pace && t.disabled == s.disabled && t.shut == s.shut && t.sent == s.sent
    && t.dropped - s.dropped == t.log.drops - s.log.drops >= 0
    && t.log.reported == s.log.reported && t.log.forgotten == s.log.forgotten
    && t.log.drift == s.log.drift
  }

  /** Some windows were added behind the closed ones, and then the oldest n given up. */
  ghost predicate Aged(z: Sizes, s: Reporter, t: Reporter, added: seq<Window>, n: nat) {
    && SameElse(s, t)
    && n <= |s.closed| + |added|
    && t.closed == (s.closed + added)[n..]
    && ListOk(z, s.closed + added, t.log.windows)
    && (forall w | w in added :: w.id >= s.log.windows)
    && s.log.windows <= t.log.windows
  }

  lemma PruneAged(z: Sizes, s: Reporter, now: int) returns (n: nat)
    requires WindowsOk(z, s)
    ensures Aged(z, s, Prune(s, now), [], n)
    ensures WindowsOk(z, Prune(s, now)) && (s.log.drift >= 0 ==> Capped(Prune(s, now)))
  {
    n := PruneCount(s.closed, s.retained, now);
    PruneGives(s, now);
    PruneOk(z, s, now);
    assert s.closed + [] == s.closed;
  }

  lemma ClosingAged(z: Sizes, s: Reporter, now: int)
    requires WindowsOk(z, s) && s.current != []
    ensures Aged(z, s, Closing(z, s, now), [NewWindow(z, s)], 0) && WindowsOk(z, Closing(z, s, now))
  {
    var w := NewWindow(z, s);
    SizeSumConcat(s.closed, [w]);
    assert [w][1..] == [];
    assert WindowOk(z, w);
    assert forall v | v in s.closed + [w] :: v in s.closed || v == w;
  }

  lemma PruneAgedMore(z: Sizes, s: Reporter, t: Reporter, added: seq<Window>, i: nat, now: int) returns (n: nat)
    requires Aged(z, s, t, added, i) && WindowsOk(z, t)
    ensures Aged(z, s, Prune(t, now), added, n)
  {
    var k := PruneAged(z, t, now);
    AgedTrans(z, s, t, Prune(t, now), added, i, [], k);
    assert added + [] == added;
    n := i + k;
  }

  lemma CloseOk(z: Sizes, s: Reporter, now: int)
    requires WindowsOk(z, s)
    ensures WindowsOk(z, CloseCurrent(z, s, now)) && (Capped(s) ==> Capped(CloseCurrent(z, s, now)))
  {
    if s.current != [] && s.hasWindow {
      ClosingAged(z, s, now);
      var k := PruneAged(z, Closing(z, s, now), now);
    }
  }

  lemma CloseAged(z: Sizes, s: Reporter, now: int) returns (added: seq<Window>, n: nat)
    requires WindowsOk(z, s)
    ensures Aged(z, s, CloseCurrent(z, s, now), added, n)
    ensures WindowsOk(z, CloseCurrent(z, s, now)) && (Capped(s) ==> Capped(CloseCurrent(z, s, now)))
  {
    CloseOk(z, s, now);
    if s.current == [] || !s.hasWindow {
      added, n := [], 0;
      assert s.closed + [] == s.closed;
    } else {
      ClosingAged(z, s, now);
      added := [NewWindow(z, s)];
      n := PruneAgedMore(z, s, Closing(z, s, now), added, 0, now);
    }
  }

  lemma RollAged(z: Sizes, s: Reporter, now: int) returns (added: seq<Window>, n: nat)
    requires WindowsOk(z, s)
    ensures Aged(z, s, Roll(z, s, now), added, n)
    ensures WindowsOk(z, Roll(z, s, now)) && (Capped(s) ==> Capped(Roll(z, s, now)))
  {
    if s.hasWindow && MinuteStart(now) > s.windowStart {
      added, n := CloseAged(z, s, now);
    } else {
      added, n := [], 0;
      assert s.closed + [] == s.closed;
    }
  }

  lemma RollCloseAged(z: Sizes, s: Reporter, now: int) returns (added: seq<Window>, n: nat)
    requires WindowsOk(z, s)
    ensures var t := CloseCurrent(z, Roll(z, s, now), now);
      Aged(z, s, t, added, n) && WindowsOk(z, t) && (Capped(s) ==> Capped(t))
  {
    var a, i := RollAged(z, s, now);
    var t := Roll(z, s, now);
    var b, j := CloseAged(z, t, now);
    AgedTrans(z, s, t, CloseCurrent(z, t, now), a, i, b, j);
    added, n := a + b, i + j;
  }

  lemma SettledAged(z: Sizes, s: Reporter, now: int) returns (added: seq<Window>, n: nat)
    requires WindowsOk(z, s)
    ensures Aged(z, s, Settled(z, s, now), added, n)
    ensures WindowsOk(z, Settled(z, s, now)) && (Capped(s) ==> Capped(Settled(z, s, now)))
  {
    var a, i := RollCloseAged(z, s, now);
    var u := CloseCurrent(z, Roll(z, s, now), now);
    var k := PruneAged(z, u, now);
    added := a;
    n := PruneAgedMore(z, s, u, a, i, now);
  }

  lemma ListJoin(z: Sizes, xs: seq<Window>, n: nat, b: seq<Window>, mid: nat, next: nat)
    requires n <= |xs| && mid <= next
    requires ListOk(z, xs, mid) && ListOk(z, xs[n..] + b, next)
    requires forall w | w in b :: w.id >= mid
    ensures ListOk(z, xs + b, next)
  {
    var all, tail := xs + b, xs[n..] + b;
    forall i, j | 0 <= i < j < |all|
      ensures all[i].id < all[j].id
    {
      if j >= |xs| {
        assert b[j - |xs|] in b && all[j] == tail[j - n];
        if i < |xs| {
          assert xs[i] in xs;
        } else {
          assert all[i] == tail[i - n];
        }
      }
    }
    forall w | w in all
      ensures w.id < next && WindowOk(z, w)
    {
      if w in xs {
      } else {
        assert w in tail;
      }
    }
  }

  lemma AgedTrans(z: Sizes, s: Reporter, t: Reporter, u: Reporter, a: seq<Window>, n: nat, b: seq<Window>, k: nat)
    requires Aged(z, s, t, a, n) && Aged(z, t, u, b, k)
    ensures Aged(z, s, u, a + b, n + k)
  {
    var xs := s.closed + a;
    assert s.closed + (a + b) == xs + b;
    assert (xs + b)[n..] == t.closed + b;
    assert (xs + b)[n + k..] == (t.closed + b)[k..];
    ListJoin(z, xs, n, b, t.log.windows, u.log.windows);
  }

  // ---- Acknowledgement ----

  lemma {:induction false} WithoutDistinct(t: Table, ks: set<CounterKey>)
    requires Distinct(t)
    ensures Distinct(Without(t, ks)) && |Without(t, ks)| <= |t|
    ensures forall r :: r in Without(t, ks) <==> r in t && r.key !in ks
  {
    if t != [] {
      WithoutDistinct(t[1..], ks);
      var rest := Without(t[1..], ks);
      forall i | 0 <= i < |rest|
        ensures rest[i].key != t[0].key
      {
        assert rest[i] in rest;
        var j :| 0 <= j < |t[1..]| && t[1..][j] == rest[i];
        assert t[j + 1] == rest[i];
      }
      assert t == [t[0]] + t[1..];
    }
  }

  lemma ShrunkOk(z: Sizes, w: Window, refs: seq<Ref>)
    requires WindowOk(z, w)
    ensures Shrunk(z, w, refs).id == w.id && Shrunk(z, w, refs).start == w.start
    ensures Shrunk(z, w, refs).rows != [] ==> WindowOk(z, Shrunk(z, w, refs))
    ensures Shrunk(z, w, refs).rows == [] ==> Shrunk(z, w, refs).size == 0
    ensures Shrinks(z) ==> Shrunk(z, w, refs).size <= w.size
  {
    var ks := SentKeys(refs, w.id);
    WithoutDistinct(w.rows, ks);
    WithoutAll(w.rows, ks);
    assert Shrinks(z) ==> z.window(Without(w.rows, ks)) <= z.window(w.rows);
  }

  ghost predicate InOrder(windows: seq<Window>) {
    forall i, j | 0 <= i < j < |windows| :: windows[i].id < windows[j].id
  }

  lemma {:induction false} NonemptyMembers(windows: seq<Window>)
    ensures forall w :: w in Nonempty(windows) <==> w in windows && w.rows != []
  {
    if windows != [] {
      NonemptyMembers(windows[1..]);
      assert windows == [windows[0]] + windows[1..];
    }
  }

  lemma {:induction false} NonemptyInOrder(windows: seq<Window>)
    requires InOrder(windows)
    ensures InOrder(Nonempty(windows))
  {
    if windows != [] {
      var tail := windows[1..];
      assert forall i | 0 <= i < |tail| :: tail[i] == windows[i + 1];
      NonemptyInOrder(tail);
      NonemptyMembers(tail);
      assert forall i | 0 <= i < |Nonempty(tail)| :: Nonempty(tail)[i] in Nonempty(tail);
    }
  }

  lemma {:induction false} NonemptySorted(windows: seq<Window>)
    requires Sorted(windows)
    ensures Sorted(Nonempty(windows))
  {
    if windows != [] {
      var tail := windows[1..];
      assert forall i | 0 <= i < |tail| :: tail[i] == windows[i + 1];
      NonemptySorted(tail);
      NonemptyMembers(tail);
      assert forall i | 0 <= i < |Nonempty(tail)| :: Nonempty(tail)[i] in Nonempty(tail);
    }
  }

  lemma {:induction false} RemainingSize(z: Sizes, closed: seq<Window>, refs: seq<Ref>)
    requires forall w | w in closed :: WindowOk(z, w)
    ensures SizeSum(Remaining(z, closed, refs)) == SizeSum(closed) - Freed(z, closed, refs)
    ensures Shrinks(z) ==> Freed(z, closed, refs) >= 0
  {
    if closed != [] {
      assert closed[0] in closed;
      RemainingSize(z, closed[1..], refs);
      RemainingStep(z, closed, refs);
      var w := Shrunk(z, closed[0], refs);
      ShrunkOk(z, closed[0], refs);
      SizeSumConcat([w], Remaining(z, closed[1..], refs));
      assert [w][1..] == [];
      assert [] + Remaining(z, closed[1..], refs) == Remaining(z, closed[1..], refs);
    }
  }

  lemma RemainingOk(z: Sizes, closed: seq<Window>, refs: seq<Ref>, next: nat)
    requires ListOk(z, closed, next)
    ensures ListOk(z, Remaining(z, closed, refs), next)
    ensures Sorted(closed) ==> Sorted(Remaining(z, closed, refs))
    ensures forall w | w in Remaining(z, closed, refs) :: exists v :: v in closed && v.id == w.id && v.start == w.start
  {
    var shrunk := ShrunkAll(z, closed, refs);
    forall i | 0 <= i < |shrunk|
      ensures shrunk[i].id == closed[i].id && shrunk[i].start == closed[i].start
      ensures shrunk[i].rows != [] ==> WindowOk(z, shrunk[i])
      ensures shrunk[i].id < next
    {
      assert closed[i] in closed;
      ShrunkOk(z, closed[i], refs);
    }
    NonemptyMembers(shrunk);
    NonemptyInOrder(shrunk);
    if Sorted(closed) {
      NonemptySorted(shrunk);
    }
    forall w | w in Remaining(z, closed, refs)
      ensures exists v :: v in closed && v.id == w.id && v.start == w.start
    {
      var i :| 0 <= i < |shrunk| && shrunk[i] == w;
      assert closed[i] in closed && closed[i].id == w.id && closed[i].start == w.start;
    }
  }

  lemma {:induction false} OrphansFreed(z: Sizes, windows: seq<Window>, refs: seq<Ref>)
    requires Shrinks(z)
    requires forall w | w in windows :: WindowOk(z, w)
    ensures Freed(z, windows, refs) >= 0
  {
    if windows != [] {
      assert windows[0] in windows;
      ShrunkOk(z, windows[0], refs);
      OrphansFreed(z, windows[1..], refs);
    }
  }

  lemma {:induction false} OrphansSelected(closed: seq<Window>, refs: seq<Ref>)
    ensures forall w | w in Orphans(closed, refs) :: !Live(closed, w.id) && exists r :: r in refs && r.window == w
    ensures (forall r | r in refs :: Live(closed, r.window.id)) ==> Orphans(closed, refs) == []
  {
    if refs != [] {
      var before, last := refs[..|refs| - 1], refs[|refs| - 1];
      OrphansSelected(closed, before);
      assert last in refs;
      assert forall r | r in before :: r in refs;
    }
  }

  /** Byte accounting survives an acknowledgement; it drifts only by windows pruned while in flight. */
  lemma RemoveWindowsOk(z: Sizes, s: Reporter, b: Batch)
    requires WindowsOk(z, s)
    ensures var t := RemoveSelected(z, s, b);
      && WindowsOk(z, t)
      && ((forall r | r in b.refs :: Live(s.closed, r.window.id)) ==> t.log.drift == s.log.drift)
      && (Shrinks(z) && (forall r | r in b.refs :: WindowOk(z, r.window)) ==>
            t.log.drift >= s.log.drift && t.retained <= s.retained)
      && (Sorted(s.closed) ==> Sorted(t.closed))
      && (forall w | w in t.closed :: exists v :: v in s.closed && v.id == w.id && v.start == w.start)
  {
    RemainingOk(z, s.closed, b.refs, s.log.windows);
    RemainingSize(z, s.closed, b.refs);
    OrphansSelected(s.closed, b.refs);
    if Shrinks(z) && forall r | r in b.refs :: WindowOk(z, r.window) {
      OrphansFreed(z, Orphans(s.closed, b.refs), b.refs);
    }
  }
}
