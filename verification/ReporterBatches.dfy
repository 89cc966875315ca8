// A batch from selection to acknowledgement: the first fit along the trim order,
// and the rows an acknowledgement removes.
module ReporterBatches {
  import opened Options
  import opened Counters
  import opened FoldLadder
  import opened ReporterState
  import opened ReporterBalance
  import opened ReporterWindows

  // ---- First fit ----

  /** Candidate k of the trim order: the last k items gone, events before rows. */
  function Candidate(seqNo: nat, dropped: int, events: seq<Event>, refs: seq<Ref>, now: int, k: nat): Batch
    requires k <= |events| + |refs|
  {
    if k <= |events| then BatchOf(seqNo, dropped, events[..|events| - k], refs, now)
    else BatchOf(seqNo, dropped, [], refs[..|refs| - (k - |events|)], now)
  }

  predicate FitsWire(z: Sizes, b: Batch) {
    z.batch(b.wire) <= MAX_BATCH_BYTES
  }

  /** Trimming returns the first candidate that fits, and nothing exactly when none does. */
  lemma {:induction false} TrimFirstFit(z: Sizes, seqNo: nat, dropped: int, events: seq<Event>, refs: seq<Ref>, now: int)
    returns (k: nat)
    ensures k <= |events| + |refs| + 1
    ensures forall j: nat | j < k :: !FitsWire(z, Candidate(seqNo, dropped, events, refs, now, j))
    ensures Trim(z, seqNo, dropped, events, refs, now)
      == if k <= |events| + |refs| then Some(Candidate(seqNo, dropped, events, refs, now, k)) else None
    ensures k <= |events| + |refs| ==> FitsWire(z, Candidate(seqNo, dropped, events, refs, now, k))
    decreases |events| + |refs|
  {
    assert events[..|events|] == events && refs[..|refs|] == refs;
    if FitsWire(z, BatchOf(seqNo, dropped, events, refs, now)) {
      k := 0;
    } else if events != [] {
      var fewer := events[..|events| - 1];
      var i := TrimFirstFit(z, seqNo, dropped, fewer, refs, now);
      forall j: nat | 1 <= j <= |events| + |refs|
        ensures Candidate(seqNo, dropped, events, refs, now, j) == Candidate(seqNo, dropped, fewer, refs, now, j - 1)
      {
        if j <= |events| {
          assert events[..|events| - j] == fewer[..|fewer| - (j - 1)];
        }
      }
      k := i + 1;
    } else if refs != [] {
      var fewer := refs[..|refs| - 1];
      var i := TrimFirstFit(z, seqNo, dropped, events, fewer, now);
      forall j: nat | 1 <= j <= |refs|
        ensures Candidate(seqNo, dropped, events, refs, now, j) == Candidate(seqNo, dropped, events, fewer, now, j - 1)
      {
        assert refs[..|refs| - j] == fewer[..|fewer| - (j - 1)];
      }
      k := i + 1;
    } else {
      k := 1;
    }
  }

  /** A selected batch is made of prefixes of what could be selected. */
  ghost predicate PrefixBatch(b: Batch, seqNo: nat, dropped: int, events: seq<Event>, refs: seq<Ref>, now: int) {
    && b.events <= events && b.refs <= refs && b.dropped == dropped
    && b == BatchOf(seqNo, dropped, b.events, b.refs, now)
  }

  lemma TrimPrefix(z: Sizes, seqNo: nat, dropped: int, events: seq<Event>, refs: seq<Ref>, now: int)
    ensures Trim(z, seqNo, dropped, events, refs, now).Some? ==>
      PrefixBatch(Trim(z, seqNo, dropped, events, refs, now).value, seqNo, dropped, events, refs, now)
  {
    var k := TrimFirstFit(z, seqNo, dropped, events, refs, now);
  }

  // ---- What an acknowledgement removes ----

  /** The rows refs point at, as they were when selected. */
  function RefRows(refs: seq<Ref>): (r: Table)
    ensures |r| == |refs|
    ensures forall i | 0 <= i < |refs| :: r[i] == Row(refs[i].key, ValueAt(refs[i].window.rows, refs[i].key))
  {
    seq(|refs|, i requires 0 <= i < |refs| => Row(refs[i].key, ValueAt(refs[i].window.rows, refs[i].key)))
  }

  lemma {:induction false} WithinNone(t: Table, ks: set<CounterKey>)
    requires forall i | 0 <= i < |t| :: t[i].key !in ks
    ensures Within(t, ks) == []
  {
    if t != [] {
      WithinNone(t[1..], ks);
    }
  }

  lemma {:induction false} WithinPrefix(t: Table, n: nat, ks: set<CounterKey>)
    requires Distinct(t) && n <= |t|
    requires forall i | 0 <= i < |t| :: t[i].key in ks <==> i < n
    ensures Within(t, ks) == t[..n]
  {
    if n == 0 {
      WithinNone(t, ks);
    } else {
      assert forall i | 0 <= i < |t[1..]| :: t[1..][i] == t[i + 1];
      WithinPrefix(t[1..], n - 1, ks);
      assert t[..n] == [t[0]] + t[1..][..n - 1];
    }
  }

  lemma {:induction false} RemovedNone(closed: seq<Window>, refs: seq<Ref>)
    requires Apart(refs, closed)
    ensures Removed(closed, refs) == []
  {
    if closed != [] {
      var w := closed[0];
      assert w in closed;
      assert SentKeys(refs, w.id) == {};
      WithinNone(w.rows, SentKeys(refs, w.id));
      assert forall v | v in closed[1..] :: v in closed;
      RemovedNone(closed[1..], refs);
    }
  }

  lemma RefsOfMember(w: Window, n: nat)
    requires n <= |w.rows|
    ensures forall r | r in RefsOf(w)[..n] :: r.window == w
  {
  }

  lemma {:induction false} AllRefsFrom(closed: seq<Window>)
    ensures forall r | r in AllRefs(closed) :: r.window in closed && Has(r.window.rows, r.key)
  {
    if closed != [] {
      AllRefsFrom(closed[1..]);
      RefsOfMember(closed[0], |closed[0].rows|);
      assert RefsOf(closed[0])[..|closed[0].rows|] == RefsOf(closed[0]);
      forall r | r in RefsOf(closed[0])
        ensures Has(r.window.rows, r.key)
      {
        var i :| 0 <= i < |closed[0].rows| && RefsOf(closed[0])[i] == r;
        assert closed[0].rows[i].key == r.key;
      }
    }
  }

  lemma PrefixRows(w: Window, n: nat)
    requires Distinct(w.rows) && n <= |w.rows|
    ensures RefRows(RefsOf(w)[..n]) == w.rows[..n]
  {
    forall i | 0 <= i < n
      ensures RefRows(RefsOf(w)[..n])[i] == w.rows[i]
    {
      FindUnique(w.rows, i);
    }
  }

  lemma SentPrefix(w: Window, n: nat, before: seq<Ref>, after: seq<Ref>)
    requires Distinct(w.rows) && n <= |w.rows|
    requires forall r | r in before || r in after :: r.window.id != w.id
    ensures Within(w.rows, SentKeys(before + (RefsOf(w)[..n] + after), w.id)) == w.rows[..n]
  {
    var refs := before + (RefsOf(w)[..n] + after);
    var ks := SentKeys(refs, w.id);
    RefsOfMember(w, n);
    forall i | 0 <= i < |w.rows|
      ensures w.rows[i].key in ks <==> i < n
    {
      if i < n {
        assert RefsOf(w)[..n][i] in refs;
      }
      if w.rows[i].key in ks {
        var r :| r in refs && r.window.id == w.id && r.key == w.rows[i].key;
        assert r in RefsOf(w)[..n];
        var j :| 0 <= j < n && RefsOf(w)[..n][j] == r;
        assert w.rows[j].key == r.key;
      }
    }
    WithinPrefix(w.rows, n, ks);
  }

  ghost predicate Apart(refs: seq<Ref>, windows: seq<Window>) {
    forall r, w | r in refs && w in windows :: r.window.id != w.id
  }

  /**
   * Acknowledging a prefix of the rows of base, of which every window is still retained, removes those rows with
   * the values they had when selected; selected rows of windows no longer retained (gone) change nothing.
   */
  lemma {:induction false} RemovedSelected(base: seq<Window>, newer: seq<Window>, gone: seq<Ref>, n: nat)
    requires n <= |AllRefs(base)|
    requires InOrder(base + newer)
    requires forall w | w in base :: Distinct(w.rows)
    requires Apart(gone, base + newer)
    ensures Removed(base + newer, gone + AllRefs(base)[..n]) == RefRows(AllRefs(base)[..n])
  {
    if base == [] {
      assert base + newer == newer;
      RemovedNone(newer, gone + AllRefs(base)[..n]);
    } else {
      var k := if n < |base[0].rows| then n else |base[0].rows|;
      SplitRefs(base, n, k);
      TailApart(base, newer);
      Prepare(base, newer, gone, n, k);
      var mine, others := RefsOf(base[0])[..k], AllRefs(base[1..])[..n - k];
      RemovedSelected(base[1..], newer, gone + mine, n - k);
      Assemble(base + newer, base[1..] + newer, gone, mine, others, RefRows(mine));
    }
  }

  lemma Prepare(base: seq<Window>, newer: seq<Window>, gone: seq<Ref>, n: nat, k: nat)
    requires base != [] && k <= |base[0].rows| && k <= n && n - k <= |AllRefs(base[1..])|
    requires Distinct(base[0].rows)
    requires Apart(gone, base + newer)
    requires forall v | v in base[1..] + newer :: v in base + newer && v.id != base[0].id
    ensures Apart(gone + RefsOf(base[0])[..k], base[1..] + newer)
    ensures Within(base[0].rows, SentKeys(gone + (RefsOf(base[0])[..k] + AllRefs(base[1..])[..n - k]), base[0].id))
      == RefRows(RefsOf(base[0])[..k])
  {
    var w := base[0];
    assert w in base + newer;
    RefsOfMember(w, k);
    OthersApart(w, base[1..], newer, n - k);
    assert forall r | r in gone :: r.window.id != w.id;
    SentPrefix(w, k, gone, AllRefs(base[1..])[..n - k]);
    PrefixRows(w, k);
  }

  lemma OthersApart(w: Window, rest: seq<Window>, newer: seq<Window>, n: nat)
    requires forall v | v in rest + newer :: v.id != w.id
    requires n <= |AllRefs(rest)|
    ensures forall r | r in AllRefs(rest)[..n] :: r.window.id != w.id
  {
    AllRefsFrom(rest);
    forall r | r in AllRefs(rest)[..n]
      ensures r.window.id != w.id
    {
      assert r in AllRefs(rest) && r.window in rest + newer;
    }
  }

  lemma SplitRefs(base: seq<Window>, n: nat, k: nat)
    requires base != [] && n <= |AllRefs(base)|
    requires k == if n < |base[0].rows| then n else |base[0].rows|
    ensures n - k <= |AllRefs(base[1..])|
    ensures AllRefs(base)[..n] == RefsOf(base[0])[..k] + AllRefs(base[1..])[..n - k]
  {
    assert |RefsOf(base[0])| == |base[0].rows|;
  }

  /** One window's share of an acknowledgement, put in front of the rest's. */
  lemma Assemble(windows: seq<Window>, rest: seq<Window>, gone: seq<Ref>, mine: seq<Ref>, others: seq<Ref>, front: Table)
    requires windows != [] && windows[1..] == rest && front == RefRows(mine)
    requires Within(windows[0].rows, SentKeys(gone + (mine + others), windows[0].id)) == front
    requires Removed(rest, (gone + mine) + others) == RefRows(others)
    ensures Removed(windows, gone + (mine + others)) == RefRows(mine + others)
  {
    var all := gone + (mine + others);
    assert (gone + mine) + others == all;
    RemovedCons(windows, all);
    RefRowsConcat(mine, others);
  }

  lemma RemovedCons(windows: seq<Window>, all: seq<Ref>)
    requires windows != []
    ensures Removed(windows, all)
      == Within(windows[0].rows, SentKeys(all, windows[0].id)) + Removed(windows[1..], all)
  {
  }

  lemma TailApart(base: seq<Window>, newer: seq<Window>)
    requires base != [] && InOrder(base + newer)
    ensures (base + newer)[0] == base[0] && (base + newer)[1..] == base[1..] + newer
    ensures InOrder(base[1..] + newer)
    ensures forall v | v in base[1..] + newer :: v in base + newer && v.id != base[0].id
    ensures forall v | v in base[1..] :: v in base
  {
    var tail := base[1..] + newer;
    assert forall i | 0 <= i < |tail| :: tail[i] == (base + newer)[i + 1];
  }

  lemma RefRowsConcat(a: seq<Ref>, b: seq<Ref>)
    ensures RefRows(a + b) == RefRows(a) + RefRows(b)
  {
  }

  lemma {:induction false} AllRefsConcat(a: seq<Window>, b: seq<Window>)
    ensures AllRefs(a + b) == AllRefs(a) + AllRefs(b)
  {
    if a == [] {
      assert a + b == b;
    } else {
      assert (a + b)[1..] == a[1..] + b;
      AllRefsConcat(a[1..], b);
    }
  }

  /** A row's value goes on the wire unchanged exactly when it is within the wire bounds. */
  lemma WireExactIff(v: CounterValue)
    ensures WireValue(v) == v <==>
      1 <= v.requests <= MAX_COUNT && 0 <= v.attempts <= MAX_COUNT
      && 0 <= v.failoverUsed <= MAX_COUNT && 0 <= v.firstAttemptSuccess <= MAX_COUNT
  {
  }
}
