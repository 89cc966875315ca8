// The reporter as it is held in memory: tables and windows that are updated in
// place, and shared between the retained list and a batch in flight.
module ReporterObjects {
  import opened Options
  import opened Counters
  import opened FoldLadder
  import opened ReporterState
  import opened ReporterEvents
  import opened ReporterWindows
  import opened ReporterBatches
  import opened WindowObjects
  import CounterLadder

  /** The current table and the closed windows hold these rows and windows, each on its own table. */
  ghost predicate Holds(current: CounterTable, ws: seq<CounterWindow>, t: Table, vs: seq<Window>, next: nat)
    reads current, ws, Tables(ws)
  {
    && current.Valid() && current.View() == t
    && current !in Tables(ws)
    && Mirrors(ws, vs)
    && Separate(ws)
    && (forall w | w in ws :: w.id < next)
  }

  lemma HoldsTail(current: CounterTable, ws: seq<CounterWindow>, t: Table, vs: seq<Window>, next: nat)
    requires Holds(current, ws, t, vs, next) && ws != []
    ensures ws[0].Is(vs[0]) && Holds(current, ws[1..], t, vs[1..], next)
  {
  }

  lemma HoldsNothing(empty: CounterTable, next: nat)
    requires empty.Valid() && empty.View() == []
    ensures Holds(empty, [], [], [], next)
  {
  }

  /** Closing: the current table becomes that of a new window, and another one takes its place. */
  lemma HoldsClosed(current: CounterTable, ws: seq<CounterWindow>, t: Table, vs: seq<Window>, next: nat,
                    w: CounterWindow, v: Window, other: CounterTable)
    requires Holds(current, ws, t, vs, next)
    requires w.rows == current && v.id == next && w.Is(v)
    requires other.Valid() && other != current && other !in Tables(ws)
    ensures Holds(other, ws + [w], other.View(), vs + [v], next + 1)
  {
    var all := ws + [w];
    assert forall x | x in all :: x in ws || x == w;
    assert w in all && forall x | x in ws :: x in all;
    assert Tables(all) == Tables(ws) + {current};
    assert forall i | 0 <= i < |ws| :: ws[i] in ws;
  }

  /** The rows of one window, up to the room there is. */
  method TakeWindow(w: CounterWindow, ghost v: Window, now: int, room: nat)
    returns (wire: seq<WireCounter>, refs: seq<CounterRef>)
    requires w.Is(v)
    ensures wire == WireRows(FirstN(RefsOf(v), room), now) && Names(refs, w, FirstN(RefsOf(v), room))
  {
    wire, refs := [], [];
    var i := 0;
    while i < |w.rows.keys| && i < room
      invariant 0 <= i <= |w.rows.keys| == |v.rows| && i <= room
      invariant wire == WireRows(RefsOf(v)[..i], now) && Names(refs, w, RefsOf(v)[..i])
    {
      var key := w.rows.keys[i];
      WireNext(v, i, now);
      wire := wire + [WireCounter(AgeMS(now, w.start), key, WireValue(w.rows.rows[key]))];
      refs := refs + [CounterRef(w, key)];
      i := i + 1;
    }
    FirstNAt(RefsOf(v), i, room);
  }

  lemma WireNext(v: Window, i: nat, now: int)
    requires i < |v.rows| && Distinct(v.rows)
    ensures RefsOf(v)[..i + 1] == RefsOf(v)[..i] + [Ref(v, v.rows[i].key)]
    ensures WireRows(RefsOf(v)[..i + 1], now)
      == WireRows(RefsOf(v)[..i], now) + [WireCounter(AgeMS(now, v.start), v.rows[i].key, WireValue(v.rows[i].value))]
  {
    RefsOfSnoc(v, i);
    FindUnique(v.rows, i);
  }

  /** The first i windows' rows are taken, up to two hundred. */
  ghost predicate Taken(ws: seq<CounterWindow>, vs: seq<Window>, i: nat, wire: seq<WireCounter>, refs: seq<CounterRef>,
                        now: int)
  {
    i <= |vs| && Refers(refs, FirstN(AllRefs(vs[..i]), MAX_BATCH_COUNTERS), ws, vs)
    && wire == WireRows(FirstN(AllRefs(vs[..i]), MAX_BATCH_COUNTERS), now)
  }

  lemma TakenMore(ws: seq<CounterWindow>, vs: seq<Window>, i: nat, wire: seq<WireCounter>, refs: seq<CounterRef>, now: int,
                  x: seq<WireCounter>, r: seq<CounterRef>, more: seq<Ref>)
    requires Taken(ws, vs, i, wire, refs, now) && i < |ws| && |wire| < MAX_BATCH_COUNTERS
    requires more == FirstN(RefsOf(vs[i]), MAX_BATCH_COUNTERS - |wire|)
    requires x == WireRows(more, now) && Names(r, ws[i], more)
    ensures Taken(ws, vs, i + 1, wire + x, refs + r, now)
  {
    var done := FirstN(AllRefs(vs[..i]), MAX_BATCH_COUNTERS);
    FirstNMore(vs, i, done, more);
    NamesRefer(r, ws, vs, i, more, MAX_BATCH_COUNTERS - |wire|);
    RefersConcat(refs, r, done, more, ws, vs);
    assert WireRows(done + more, now) == WireRows(done, now) + WireRows(more, now);
  }

  lemma NamesRefer(counters: seq<CounterRef>, ws: seq<CounterWindow>, vs: seq<Window>, i: nat, refs: seq<Ref>, n: nat)
    requires |ws| == |vs| && i < |ws| && refs == FirstN(RefsOf(vs[i]), n) && Names(counters, ws[i], refs)
    ensures Refers(counters, refs, ws, vs)
  {
    forall j | 0 <= j < |refs|
      ensures RefersTo(counters[j], refs[j], ws, vs)
    {
      assert ws[i] == counters[j].window && vs[i] == refs[j].window;
    }
  }

  /** Up to two hundred rows, oldest window first. */
  method TakeRows(ws: seq<CounterWindow>, ghost vs: seq<Window>, now: int)
    returns (wire: seq<WireCounter>, refs: seq<CounterRef>)
    requires Mirrors(ws, vs)
    ensures Refers(refs, FirstN(AllRefs(vs), MAX_BATCH_COUNTERS), ws, vs)
    ensures wire == WireRows(FirstN(AllRefs(vs), MAX_BATCH_COUNTERS), now)
  {
    wire, refs := [], [];
    var i := 0;
    while i < |ws| && |wire| < MAX_BATCH_COUNTERS
      invariant 0 <= i && Mirrors(ws, vs) && Taken(ws, vs, i, wire, refs, now)
    {
      assert ws[i].Is(vs[i]);
      var x, r := TakeWindow(ws[i], vs[i], now, MAX_BATCH_COUNTERS - |wire|);
      TakenMore(ws, vs, i, wire, refs, now, x, r, FirstN(RefsOf(vs[i]), MAX_BATCH_COUNTERS - |wire|));
      wire, refs, i := wire + x, refs + r, i + 1;
    }
    FirstNWhole(vs, i, MAX_BATCH_COUNTERS);
  }

  class TelemetryReporter {
    const sizes: Sizes

    var events: seq<Event>
    var eventsSizeBytes: int
    var eventsSeen: nat
    var windowStart: int
    var hasWindow: bool
    var current: CounterTable
    var closedWindows: seq<CounterWindow>
    var retainedWindowBytes: int
    var droppedSinceLast: int
    var seqNo: nat
    var backoff: int
    var backoffUntil: int
    var pausedUntil: int
    var successSampleRate: real
    var flushInterval: int
    var disabled: bool
    var closed: bool

    ghost var state: Reporter  // what the fields amount to, with the history

    ghost predicate Scalars()
      reads this
    {
      && events == state.events && eventsSizeBytes == state.eventsSize && eventsSeen == |state.log.arrivals|
      && windowStart == state.windowStart && hasWindow == state.hasWindow
      && retainedWindowBytes == state.retained && droppedSinceLast == state.dropped && seqNo == state.sent
      && Pace(backoff, backoffUntil, pausedUntil, successSampleRate, flushInterval) == state.pace
      && disabled == state.disabled && closed == state.shut
    }

    ghost predicate Valid()
      reads this, current, closedWindows, Tables(closedWindows)
    {
      Scalars() && Holds(current, closedWindows, state.current, state.closed, state.log.windows)
    }

    /**
     * Since then at most one minute was closed: its window is added behind the others, on the table that was current,
     * and a new table took its place. The oldest windows may have gone.
     */
    twostate predicate Grew(new added: seq<CounterWindow>)
      reads this, Tables(added)
    {
      && |added| <= 1
      && SuffixOf(closedWindows, old(closedWindows) + added)
      && state.log.windows == old(state).log.windows + |added|
      && (added == [] ==> current == old(current))
      && (added != [] ==>
            && fresh(added[0]) && added[0].rows == old(current) && added[0].rows.Valid() && fresh(current)
            && added[0].id == old(state).log.windows)
    }

    constructor (sizes: Sizes, sampleRate: real)
      ensures Valid() && state == Fresh(sampleRate) && this.sizes == sizes
      ensures fresh(current) && closedWindows == []
    {
      this.sizes := sizes;
      events, eventsSizeBytes, eventsSeen := [], 0, 0;
      windowStart, hasWindow := 0, false;
      current := new CounterTable();
      closedWindows, retainedWindowBytes := [], 0;
      droppedSinceLast, seqNo := 0, 0;
      backoff, backoffUntil, pausedUntil := BACKOFF_MIN, 0, 0;
      successSampleRate, flushInterval := sampleRate, FLUSH_INTERVAL;
      disabled, closed := false, false;
      state := Fresh(sampleRate);
    }

    // ---- Events ----

    method DropBufferedEvent()
      requires Valid() && events != []
      modifies this
      ensures Valid() && state == DropEvent(old(state))
      ensures current == old(current) && closedWindows == old(closedWindows)
    {
      var index := 0;
      var i := 0;
      while i < |events|
        invariant 0 <= i <= |events| && index == 0
        invariant forall j | 0 <= j < i :: !events[j].Success()
      {
        if events[i].Success() {
          index := i;
          break;
        }
        i := i + 1;
      }
      assert index == Victim(events);
      var dropped := events[index];
      events := events[..index] + events[index + 1..];
      eventsSizeBytes := eventsSizeBytes - dropped.bytes;
      droppedSinceLast := droppedSinceLast + 1;
      state := DropEvent(state);
    }

    method PushEvent(e: Event)
      requires Valid() && e.id == eventsSeen
      modifies this
      ensures Valid() && state == Push(old(state), e)
      ensures current == old(current) && closedWindows == old(closedWindows)
    {
      events := events + [e];
      eventsSizeBytes := eventsSizeBytes + e.bytes;
      eventsSeen := eventsSeen + 1;
      state := Push(state, e);
    }

    method BufferEvent(e: Event)
      requires Valid() && e.id == eventsSeen
      modifies this
      ensures Valid() && state == AppendEvent(old(state), e)
      ensures current == old(current) && closedWindows == old(closedWindows)
    {
      if |events| >= MAX_EVENTS {
        DropBufferedEvent();
      }
      PushEvent(e);
    }

    // ---- Windows ----

    method DropOldestWindow()
      requires Valid() && closedWindows != []
      modifies this
      ensures Valid() && state == DropOldest(old(state))
      ensures current == old(current) && closedWindows == old(closedWindows)[1..]
    {
      var w := closedWindows[0];
      HoldsTail(current, closedWindows, state.current, state.closed, state.log.windows);
      retainedWindowBytes := retainedWindowBytes - w.sizeBytes;
      droppedSinceLast := droppedSinceLast + w.rows.Size();
      closedWindows := closedWindows[1..];
      state := DropOldest(state);
    }

    /** Windows past their age go, oldest first. */
    method PruneAge(now: int)
      requires Valid()
      modifies this
      ensures Valid() && state == PruneOld(old(state), now)
      ensures current == old(current) && SuffixOf(closedWindows, old(closedWindows))
    {
      while |closedWindows| > 0 && now - closedWindows[0].start > RETENTION
        invariant Valid() && PruneOld(state, now) == PruneOld(old(state), now)
        invariant current == old(current) && SuffixOf(closedWindows, old(closedWindows))
        decreases |closedWindows|
      {
        assert closedWindows[0].Is(state.closed[0]);
        SuffixTail(closedWindows, old(closedWindows));
        DropOldestWindow();
      }
      assert closedWindows != [] ==> closedWindows[0].Is(state.closed[0]);
    }

    /** Then windows over the byte limit, oldest first. */
    method PruneSize()
      requires Valid()
      modifies this
      ensures Valid() && state == PruneBytes(old(state))
      ensures current == old(current) && SuffixOf(closedWindows, old(closedWindows))
    {
      while |closedWindows| > 0 && retainedWindowBytes > RETENTION_BYTES
        invariant Valid() && PruneBytes(state) == PruneBytes(old(state))
        invariant current == old(current) && SuffixOf(closedWindows, old(closedWindows))
        decreases |closedWindows|
      {
        SuffixTail(closedWindows, old(closedWindows));
        DropOldestWindow();
      }
    }

    method PruneWindows(now: int)
      requires Valid()
      modifies this
      ensures Valid() && state == Prune(old(state), now)
      ensures current == old(current) && SuffixOf(closedWindows, old(closedWindows))
    {
      PruneAge(now);
      ghost var middle := closedWindows;
      PruneSize();
      SuffixTrans(closedWindows, middle, old(closedWindows));
    }

    /** The current table has moved into window w; empty takes its place. */
    method Install(w: CounterWindow, empty: CounterTable, now: int)
      requires Valid()
      requires w.rows == current && w.Is(NewWindow(sizes, state))
      requires empty.Valid() && empty.View() == [] && empty != current && empty !in Tables(closedWindows)
      modifies this
      ensures Valid() && state == Closing(sizes, old(state), now)
      ensures current == empty && closedWindows == old(closedWindows) + [w]
    {
      HoldsClosed(current, closedWindows, state.current, state.closed, state.log.windows, w, NewWindow(sizes, state), empty);
      closedWindows := closedWindows + [w];
      retainedWindowBytes := retainedWindowBytes + w.sizeBytes;
      current := empty;
      windowStart := MinuteStart(now);
      state := Closing(sizes, state, now);
    }

    method CloseCurrentWindow(now: int) returns (ghost added: seq<CounterWindow>)
      requires Valid()
      modifies this
      ensures Valid() && state == CloseCurrent(sizes, old(state), now)
      ensures Grew(added) && (old(state).current == [] ==> added == [])
      ensures added != [] ==> state.current == []
    {
      added := [];
      if current.Size() == 0 || !hasWindow {
        assert closedWindows + [] == closedWindows;
        return;
      }
      var w := new CounterWindow(state.log.windows, windowStart, current, sizes.window(current.Rows()));
      var empty := new CounterTable();
      assert w.Is(NewWindow(sizes, state));
      Install(w, empty, now);
      added := [w];
      PruneGives(state, now);
      PruneWindows(now);
    }

    method BeginMinute(minuteStart: int)
      requires Valid()
      modifies this
      ensures Valid() && state == old(state).(windowStart := minuteStart, hasWindow := true)
      ensures current == old(current) && closedWindows == old(closedWindows)
    {
      windowStart := minuteStart;
      hasWindow := true;
      state := state.(windowStart := minuteStart, hasWindow := true);
    }

    method RollWindow(now: int) returns (ghost added: seq<CounterWindow>)
      requires Valid()
      modifies this
      ensures Valid() && state == Roll(sizes, old(state), now)
      ensures Grew(added) && (added != [] ==> state.current == [])
    {
      added := [];
      assert closedWindows + [] == closedWindows;
      var minuteStart := MinuteStart(now);
      if !hasWindow {
        BeginMinute(minuteStart);
      } else if minuteStart > windowStart {
        added := CloseCurrentWindow(now);
        BeginMinute(minuteStart);
      }
    }

    // ---- Recording ----

    method MergeIncrements(incs: seq<Increment>)
      requires Valid()
      modifies this, current
      ensures Valid() && state == MergeCounters(old(state), incs)
      ensures current == old(current) && closedWindows == old(closedWindows)
    {
      var dropped := CounterLadder.MergeAll(current, incs);
      droppedSinceLast := droppedSinceLast + dropped;
      state := MergeCounters(state, incs);
    }

    method CountUnusable()
      requires Valid()
      modifies this
      ensures Valid() && state == CountDrops(old(state), 1)
      ensures current == old(current) && closedWindows == old(closedWindows)
    {
      droppedSinceLast := droppedSinceLast + 1;
      state := CountDrops(state, 1);
    }

    /** A finished call reaches the reporter. */
    method Record(now: int, sample: Sample, incs: seq<Increment>) returns (ghost added: seq<CounterWindow>)
      requires Valid()
      modifies this, current
      ensures Valid() && state == OnRequest(sizes, old(state), now, sample, incs)
      ensures Grew(added)
    {
      added := [];
      assert closedWindows + [] == closedWindows;
      if disabled || closed {
        return;
      }
      added := RollWindow(now);
      MergeIncrements(incs);
      Keep(now, sample);
    }

    method Keep(now: int, sample: Sample)
      requires Valid()
      modifies this
      ensures Valid() && state == AddSample(old(state), now, sample)
      ensures current == old(current) && closedWindows == old(closedWindows)
    {
      match sample {
        case Unsampled =>
        case Unusable => CountUnusable();
        case Sampled(finalOutcome, bytes) => BufferEvent(Event(eventsSeen, finalOutcome, now, bytes));
      }
    }

    /** The client is closed: nothing more is recorded. */
    method Shut()
      requires Valid()
      modifies this
      ensures Valid() && state == old(state).(shut := true)
      ensures current == old(current) && closedWindows == old(closedWindows)
    {
      closed := true;
      state := state.(shut := true);
    }

    // ---- Selecting ----

    /** Up to a hundred events, oldest first, with their ages now. */
    method TakeEvents(now: int) returns (wire: seq<WireEvent>, refs: seq<Event>)
      requires Valid()
      ensures refs == FirstN(state.events, MAX_BATCH_EVENTS) && wire == WireEvents(refs, now)
    {
      wire, refs := [], [];
      var i := 0;
      while i < |events|
        invariant 0 <= i <= |events| && i < MAX_BATCH_EVENTS
        invariant refs == events[..i] && wire == WireEvents(refs, now)
      {
        refs := refs + [events[i]];
        wire := wire + [WireEvent(AgeMS(now, events[i].completedAt), events[i])];
        i := i + 1;
        if |wire| >= MAX_BATCH_EVENTS {
          break;
        }
      }
    }

    /** Trim from the tail until the batch fits; the wire items and what they stand for shrink together. */
    method TrimBatch(seqNo: nat, dropped: int, wireEvents: seq<WireEvent>, wireRows: seq<WireCounter>,
                     eventRefs: seq<Event>, counterRefs: seq<CounterRef>, now: int, ghost refs: seq<Ref>,
                     ghost ws: seq<CounterWindow>, ghost vs: seq<Window>)
      returns (selected: Option<SelectedBatch>)
      requires wireEvents == WireEvents(eventRefs, now) && wireRows == WireRows(refs, now)
      requires Refers(counterRefs, refs, ws, vs)
      ensures Pictures(selected, Trim(sizes, seqNo, dropped, eventRefs, refs, now), ws, vs)
    {
      var we, wr, er, cr := wireEvents, wireRows, eventRefs, counterRefs;
      ghost var rs := refs;
      while true
        invariant we == WireEvents(er, now) && wr == WireRows(rs, now) && Refers(cr, rs, ws, vs)
        invariant Trim(sizes, seqNo, dropped, er, rs, now) == Trim(sizes, seqNo, dropped, eventRefs, refs, now)
        decreases |we| + |wr|
      {
        var wire := Wire(seqNo, dropped, we, wr);
        if sizes.batch(wire) <= MAX_BATCH_BYTES {
          return Some(SelectedBatch(wire, er, cr, dropped));
        }
        if |we| > 0 {
          we, er := we[..|we| - 1], er[..|er| - 1];
        } else if |wr| > 0 {
          wr, cr, rs := wr[..|wr| - 1], cr[..|cr| - 1], rs[..|rs| - 1];
        } else {
          return None;
        }
      }
    }

    /** Turn to the minute and close the current one: at most one of the two closes anything. */
    method RollAndClose(now: int) returns (ghost added: seq<CounterWindow>)
      requires Valid()
      modifies this
      ensures Valid() && state == CloseCurrent(sizes, Roll(sizes, old(state), now), now)
      ensures Grew(added)
    {
      added := RollWindow(now);
      ghost var rolled := closedWindows;
      ghost var more := CloseCurrentWindow(now);
      SuffixBoth(closedWindows, rolled, old(closedWindows), added, more);
      if added == [] {
        added := more;
      }
    }

    method Settle(now: int) returns (ghost added: seq<CounterWindow>)
      requires Valid()
      modifies this
      ensures Valid() && state == Settled(sizes, old(state), now)
      ensures Grew(added)
    {
      added := RollAndClose(now);
      ghost var before := closedWindows;
      PruneGives(state, now);
      PruneWindows(now);
      SuffixTrans(closedWindows, before, old(closedWindows) + added);
    }

    method SelectSettled(now: int) returns (selected: Option<SelectedBatch>)
      requires Valid()
      modifies this
      ensures Valid() && state == SelectFrom(sizes, old(state), now).0
      ensures current == old(current) && closedWindows == old(closedWindows)
      ensures Pictures(selected, SelectFrom(sizes, old(state), now).1, closedWindows, state.closed)
    {
      var wireEvents, eventRefs := TakeEvents(now);
      var wireRows, counterRefs := TakeRows(closedWindows, state.closed, now);
      if |wireEvents| == 0 && |wireRows| == 0 {
        return None;
      }
      ghost var refs := FirstN(AllRefs(state.closed), MAX_BATCH_COUNTERS);
      selected := TrimBatch(seqNo, droppedSinceLast, wireEvents, wireRows, eventRefs, counterRefs, now, refs,
                            closedWindows, state.closed);
      NextSeq();
    }

    method SelectBatchNow(now: int) returns (selected: Option<SelectedBatch>, ghost added: seq<CounterWindow>)
      requires Valid()
      modifies this
      ensures Valid() && state == SelectBatch(sizes, old(state), now).0
      ensures Grew(added)
      ensures Pictures(selected, SelectBatch(sizes, old(state), now).1, closedWindows, state.closed)
    {
      added := Settle(now);
      selected := SelectSettled(now);
    }

    method NextSeq()
      requires Valid()
      modifies this`seqNo, this`state
      ensures Valid() && state == old(state).(sent := old(state).sent + 1)
      ensures current == old(current) && closedWindows == old(closedWindows) && droppedSinceLast == old(droppedSinceLast)
    {
      seqNo := seqNo + 1;
      state := state.(sent := state.sent + 1);
    }

    // ---- Acknowledging ----

    /**
     * A batch in flight, seen from here: b is what was selected, and orphans are the selected windows that have been
     * given up since, in the order they were selected.
     */
    ghost predicate InFlight(selected: SelectedBatch, b: Batch, orphans: seq<CounterWindow>)
      reads this, current, closedWindows, Tables(closedWindows), orphans, Tables(orphans)
    {
      && selected.events == b.events && selected.dropped == b.dropped && |selected.counters| == |b.refs|
      && At(selected.counters, b.refs, closedWindows + orphans)
      && Mirrors(closedWindows, state.closed) && Mirrors(orphans, Orphans(state.closed, b.refs))
      && Unshared(closedWindows + orphans)
      && current !in Tables(closedWindows) && current !in Tables(orphans)
    }

    method KeepUnsent(sent: seq<Event>) returns (kept: seq<Event>, size: int)
      requires Valid()
      ensures kept == KeepEvents(state.events, sent) && size == Bytes(kept)
    {
      kept, size := [], 0;
      for n := 0 to |events|
        invariant kept == KeepEvents(events[..n], sent) && size == Bytes(kept)
      {
        assert events[..n + 1] == events[..n] + [events[n]];
        KeepSnoc(events[..n], events[n], sent);
        if events[n] !in sent {
          BytesConcat(kept, [events[n]]);
          assert [events[n]][1..] == [];
          kept := kept + [events[n]];
          size := size + events[n].bytes;
        }
      }
      assert events[..|events|] == events;
    }

    /** Rows out of their tables, changed windows re-measured, emptied windows let go. */
    method TakeOut(counters: seq<CounterRef>, ghost refs: seq<Ref>, ghost orphans: seq<CounterWindow>, ghost us: seq<Window>)
      returns (remaining: seq<CounterWindow>, retained: int)
      requires Valid() && At(counters, refs, closedWindows + orphans) && Unshared(closedWindows + orphans)
      requires Mirrors(orphans, us) && current !in Tables(orphans)
      modifies closedWindows, orphans, Tables(closedWindows), Tables(orphans)
      ensures Mirrors(remaining, Remaining(sizes, state.closed, refs)) && Separate(remaining)
      ensures forall w | w in remaining :: w in closedWindows
      ensures retained == retainedWindowBytes - Freed(sizes, state.closed, refs) - Freed(sizes, us, refs)
      ensures current.Valid() && current.View() == state.current
    {
      ghost var all, vs := closedWindows + orphans, state.closed + us;
      MirrorsJoin(closedWindows, orphans, state.closed, us);
      var changed := RemoveRows(counters, refs, all, vs);
      retained := Resize(sizes, changed, retainedWindowBytes, all, vs, refs);
      FreedConcat(sizes, state.closed, us, refs);
      ShrunkPrefix(sizes, state.closed, us, refs);
      MirrorsPrefix(closedWindows, orphans, ShrunkAll(sizes, state.closed, refs), ShrunkAll(sizes, us, refs));
      remaining := DropEmpty(closedWindows, ShrunkAll(sizes, state.closed, refs));
    }

    /** The buffers become what is left of them. */
    method KeepOnly(kept: seq<Event>, size: int, remaining: seq<CounterWindow>, retained: int, ghost next: Reporter)
      requires Scalars() && Holds(current, remaining, next.current, next.closed, next.log.windows)
      requires next == state.(events := kept, eventsSize := size, closed := next.closed, retained := retained,
                              log := state.log.(drift := next.log.drift))
      modifies this
      ensures Valid() && state == next
      ensures current == old(current) && closedWindows == remaining
    {
      events := kept;
      eventsSizeBytes := size;
      closedWindows := remaining;
      retainedWindowBytes := retained;
      state := next;
    }

    method RemoveBatch(selected: SelectedBatch, ghost b: Batch, ghost orphans: seq<CounterWindow>)
      requires Valid() && InFlight(selected, b, orphans)
      modifies this, closedWindows, orphans, Tables(closedWindows), Tables(orphans)
      ensures Valid() && state == RemoveSelected(sizes, old(state), b)
      ensures current == old(current) && forall w | w in closedWindows :: w in old(closedWindows)
    {
      var kept, size := KeepUnsent(selected.events);
      var remaining, retained := TakeOut(selected.counters, b.refs, orphans, Orphans(state.closed, b.refs));
      assert Tables(remaining) <= Tables(closedWindows);
      RemovedFields(sizes, state, b);
      KeepOnly(kept, size, remaining, retained, RemoveSelected(sizes, state, b));
    }

    // ---- Pace ----

    method SetBackoffFor(now: int, retryAfter: Option<int>)
      requires Valid()
      modifies this
      ensures Valid() && state == old(state).(pace := SetBackoff(old(state).pace, now, retryAfter))
      ensures current == old(current) && closedWindows == old(closedWindows)
    {
      var delay := DelayFor(retryAfter);
      backoffUntil := now + delay;
      backoff := Clamp(backoff * 2, BACKOFF_MIN, BACKOFF_MAX);
      state := state.(pace := SetBackoff(state.pace, now, retryAfter));
    }

    method DelayFor(retryAfter: Option<int>) returns (delay: int)
      requires Scalars()
      ensures delay == BackoffDelay(state.pace, retryAfter)
    {
      delay := backoff;
      if retryAfter.Some? && retryAfter.value > delay {
        delay := retryAfter.value;
      }
      if delay > BACKOFF_MAX {
        delay := BACKOFF_MAX;
      }
    }

    method AdoptPace(rate: real, interval: int, paused: int)
      requires Valid()
      modifies this
      ensures Valid()
      ensures state == old(state).(pace := old(state).pace.(sampleRate := rate, flushInterval := interval, pausedUntil := paused))
      ensures current == old(current) && closedWindows == old(closedWindows)
    {
      successSampleRate := rate;
      flushInterval := interval;
      pausedUntil := paused;
      state := state.(pace := state.pace.(sampleRate := rate, flushInterval := interval, pausedUntil := paused));
    }

    method FollowPolicy(policy: Policy, now: int)
      requires Valid()
      modifies this
      ensures Valid() && state == old(state).(pace := ApplyPolicy(old(state).pace, policy, now))
      ensures current == old(current) && closedWindows == old(closedWindows)
    {
      var rate, interval, paused := successSampleRate, flushInterval, pausedUntil;
      if policy.sampleRate.Some? && 0.0 <= policy.sampleRate.value < rate {
        rate := policy.sampleRate.value;
      }
      if policy.flushSeconds.Some? && policy.flushSeconds.value > Seconds(interval) {
        interval := Nanoseconds(if policy.flushSeconds.value < Seconds(BACKOFF_MAX)
                                then policy.flushSeconds.value else Seconds(BACKOFF_MAX));
      }
      if policy.pauseSeconds.Some? && 0.0 <= policy.pauseSeconds.value <= MAX_PAUSE_SECONDS {
        var until := now + Nanoseconds(policy.pauseSeconds.value);
        if until > paused {
          paused := until;
        }
      }
      assert state.pace.(sampleRate := rate, flushInterval := interval, pausedUntil := paused)
        == ApplyPolicy(state.pace, policy, now);
      AdoptPace(rate, interval, paused);
    }

    // ---- Responses ----

    method Release(empty: CounterTable)
      requires Scalars() && empty.Valid() && empty.View() == []
      modifies this
      ensures Valid() && state == Disable(old(state))
      ensures current == empty && closedWindows == []
    {
      HoldsNothing(empty, Disable(state).log.windows);
      disabled := true;
      events, eventsSizeBytes := [], 0;
      current := empty;
      closedWindows, retainedWindowBytes := [], 0;
      droppedSinceLast := 0;
      state := Disable(state);
    }

    method DisableNow()
      requires Valid()
      modifies this
      ensures Valid() && state == Disable(old(state))
      ensures fresh(current) && closedWindows == []
    {
      var empty := new CounterTable();
      Release(empty);
    }

    method Deliver(carried: int, ghost rows: Table)
      requires Valid()
      modifies this
      ensures Valid()
      ensures state == Delivered(old(state), carried, rows)
      ensures current == old(current) && closedWindows == old(closedWindows)
    {
      droppedSinceLast := droppedSinceLast - carried;
      if droppedSinceLast < 0 {
        droppedSinceLast := 0;
      }
      backoff := BACKOFF_MIN;
      backoffUntil := 0;
      state := Delivered(state, carried, rows);
    }

    method CountRefused(n: int, ghost rows: Table)
      requires Valid()
      modifies this
      ensures Valid()
      ensures state == CountDrops(old(state).(log := old(state).log.(rejected := old(state).log.rejected + rows)), n)
      ensures current == old(current) && closedWindows == old(closedWindows)
    {
      droppedSinceLast := droppedSinceLast + n;
      state := CountDrops(state.(log := state.log.(rejected := state.log.rejected + rows)), n);
    }

    method AcceptBatch(policy: Policy, now: int, selected: SelectedBatch, ghost b: Batch, ghost orphans: seq<CounterWindow>)
      requires Valid() && InFlight(selected, b, orphans)
      modifies this, closedWindows, orphans, Tables(closedWindows), Tables(orphans)
      ensures Valid() && state == Accept(sizes, old(state), policy, now, b)
      ensures current == old(current) && forall w | w in closedWindows :: w in old(closedWindows)
    {
      ghost var rows := Removed(state.closed, b.refs);
      RemoveBatch(selected, b, orphans);
      Deliver(selected.dropped, rows);
      FollowPolicy(policy, now);
    }

    method RefuseBatch(selected: SelectedBatch, ghost b: Batch, ghost orphans: seq<CounterWindow>)
      requires Valid() && InFlight(selected, b, orphans)
      modifies this, closedWindows, orphans, Tables(closedWindows), Tables(orphans)
      ensures Valid() && state == Refuse(sizes, old(state), b)
      ensures current == old(current) && forall w | w in closedWindows :: w in old(closedWindows)
    {
      ghost var rows := Removed(state.closed, b.refs);
      RemoveBatch(selected, b, orphans);
      CountRefused(|selected.events| + |selected.counters|, rows);
    }

    /** Act on the answer to the batch in flight. */
    method HandleResponse(reply: Reply, now: int, selected: SelectedBatch, ghost b: Batch, ghost orphans: seq<CounterWindow>)
      requires Valid() && InFlight(selected, b, orphans)
      modifies this, closedWindows, orphans, Tables(closedWindows), Tables(orphans)
      ensures Valid() && state == HandleReply(sizes, old(state), reply, now, b)
      ensures current == old(current) || fresh(current)
      ensures forall w | w in closedWindows :: w in old(closedWindows)
    {
      if reply.off {
        DisableNow();
      } else if reply.status == 202 {
        AcceptBatch(reply.policy, now, selected, b, orphans);
      } else if Fatal(reply.status) {
        DisableNow();
      } else if reply.status == 413 {
        RefuseBatch(selected, b, orphans);
      } else {
        SetBackoffFor(now, HonouredRetryAfter(reply.retryAfter));
      }
    }

    /** What one flush does before its POST: nothing while disabled, paused or backing off. */
    method BeginFlushNow(now: int, hasKey: bool) returns (selected: Option<SelectedBatch>, ghost added: seq<CounterWindow>)
      requires Valid()
      modifies this
      ensures Valid() && state == BeginFlush(sizes, old(state), now, hasKey).0
      ensures Grew(added)
      ensures Pictures(selected, BeginFlush(sizes, old(state), now, hasKey).1, closedWindows, state.closed)
    {
      if disabled || now < pausedUntil || now < backoffUntil || !hasKey {
        assert closedWindows + [] == closedWindows;
        return None, [];
      }
      selected, added := SelectBatchNow(now);
    }
  }

  /** What was selected, as objects: the wire items, the events, and refs to the windows that mirror vs. */
  ghost predicate Pictures(selected: Option<SelectedBatch>, b: Option<Batch>, ws: seq<CounterWindow>, vs: seq<Window>) {
    selected.Some? == b.Some?
    && (b.Some? ==>
          selected.value.wire == b.value.wire && selected.value.events == b.value.events
          && selected.value.dropped == b.value.dropped && Refers(selected.value.counters, b.value.refs, ws, vs))
  }

  lemma {:induction false} KeepSnoc(events: seq<Event>, e: Event, sent: seq<Event>)
    ensures KeepEvents(events + [e], sent) == KeepEvents(events, sent) + if e in sent then [] else [e]
  {
    if events == [] {
      assert events + [e] == [e] && [e][1..] == [];
    } else {
      assert (events + [e])[1..] == events[1..] + [e];
      KeepSnoc(events[1..], e, sent);
    }
  }

  lemma MirrorsJoin(a: seq<CounterWindow>, b: seq<CounterWindow>, vs: seq<Window>, us: seq<Window>)
    requires Mirrors(a, vs) && Mirrors(b, us)
    ensures Mirrors(a + b, vs + us) && Tables(a + b) == Tables(a) + Tables(b)
  {
    assert forall w :: w in a + b <==> w in a || w in b;
    forall i | 0 <= i < |a + b|
      ensures (a + b)[i].rows in Tables(a + b) && (a + b)[i].Is((vs + us)[i])
    {
      assert (a + b)[i] in a + b;
      if i < |a| {
        assert a[i].Is(vs[i]);
      } else {
        assert b[i - |a|].Is(us[i - |a|]);
      }
    }
  }

  lemma FirstNGrows(closed: seq<Window>, i: nat, n: nat)
    requires i < |closed| && |FirstN(AllRefs(closed[..i]), n)| < n
    ensures FirstN(AllRefs(closed[..i + 1]), n)
      == FirstN(AllRefs(closed[..i]), n) + FirstN(RefsOf(closed[i]), n - |FirstN(AllRefs(closed[..i]), n)|)
  {
    assert closed[..i + 1] == closed[..i] + [closed[i]];
    AllRefsConcat(closed[..i], [closed[i]]);
    assert [closed[i]][1..] == [];
    assert AllRefs([closed[i]]) == RefsOf(closed[i]);
  }

  lemma RemovedFields(z: Sizes, s: Reporter, b: Batch)
    ensures var t, kept := RemoveSelected(z, s, b), KeepEvents(s.events, b.events);
      t == s.(events := kept, eventsSize := Bytes(kept), closed := Remaining(z, s.closed, b.refs),
              retained := s.retained - Freed(z, s.closed, b.refs) - Freed(z, Orphans(s.closed, b.refs), b.refs),
              log := s.log.(drift := t.log.drift))
  {
  }

  lemma FirstNAt<T>(xs: seq<T>, i: nat, n: nat)
    requires i <= |xs| && i <= n && (i == |xs| || i == n)
    ensures FirstN(xs, n) == xs[..i]
  {
  }

  lemma FirstNMore(closed: seq<Window>, i: nat, done: seq<Ref>, more: seq<Ref>)
    requires i < |closed| && |done| < MAX_BATCH_COUNTERS && done == FirstN(AllRefs(closed[..i]), MAX_BATCH_COUNTERS)
    requires more == FirstN(RefsOf(closed[i]), MAX_BATCH_COUNTERS - |done|)
    ensures done + more == FirstN(AllRefs(closed[..i + 1]), MAX_BATCH_COUNTERS)
  {
    FirstNGrows(closed, i, MAX_BATCH_COUNTERS);
  }

  lemma FirstNWhole(closed: seq<Window>, i: nat, n: nat)
    requires i <= |closed| && (i == |closed| || |FirstN(AllRefs(closed[..i]), n)| >= n)
    ensures FirstN(AllRefs(closed), n) == FirstN(AllRefs(closed[..i]), n)
  {
    assert closed == closed[..i] + closed[i..];
    AllRefsConcat(closed[..i], closed[i..]);
  }
}
