// The reporter in use: calls recorded while a flush is in flight, with the window
// objects that flush still refers to, over any sequence of steps.
module ReporterSessions {
  import opened Options
  import opened Counters
  import opened FoldLadder
  import opened ReporterState
  import opened ReporterWindows
  import opened ReporterBatches
  import opened ReporterRuns
  import opened WindowObjects
  import opened ReporterObjects

  // ---- The windows a flight may refer to ----

  lemma RefersMore(counters: seq<CounterRef>, refs: seq<Ref>, pool: seq<CounterWindow>, values: seq<Window>,
                   more: seq<CounterWindow>, moreValues: seq<Window>)
    requires Refers(counters, refs, pool, values) && |more| == |moreValues|
    ensures Refers(counters, refs, pool + more, values + moreValues)
  {
    forall i | 0 <= i < |refs|
      ensures RefersTo(counters[i], refs[i], pool + more, values + moreValues)
    {
      assert RefersTo(counters[i], refs[i], pool, values);
      var k :| 0 <= k < |pool| && pool[k] == counters[i].window && values[k] == refs[i].window;
      assert (pool + more)[k] == counters[i].window && (values + moreValues)[k] == refs[i].window;
    }
  }

  // ---- Orphans as objects ----

  function PositionOf(values: seq<Window>, v: Window): (r: nat)
    requires v in values
    ensures r < |values| && values[r] == v
  {
    if values[0] == v then 0 else 1 + PositionOf(values[1..], v)
  }

  lemma {:induction false} OrphansDistinct(closed: seq<Window>, refs: seq<Ref>)
    ensures DistinctIds(Orphans(closed, refs))
    ensures forall r | r in refs :: Live(closed, r.window.id) || Live(Orphans(closed, refs), r.window.id)
  {
    if refs != [] {
      var before, last := refs[..|refs| - 1], refs[|refs| - 1];
      OrphansDistinct(closed, before);
      var earlier, all := Orphans(closed, before), Orphans(closed, refs);
      assert forall i | 0 <= i < |earlier| :: earlier[i] in earlier;
      forall r | r in refs
        ensures Live(closed, r.window.id) || Live(all, r.window.id)
      {
        if r != last {
          assert r in before;
          if Live(earlier, r.window.id) {
            var w :| w in earlier && w.id == r.window.id;
            assert w in all;
          }
        } else if !Live(closed, last.window.id) && !Live(earlier, last.window.id) {
          assert last.window in all;
        }
      }
    }
  }

  lemma OrphansInPool(closed: seq<Window>, counters: seq<CounterRef>, refs: seq<Ref>,
                      pool: seq<CounterWindow>, values: seq<Window>)
    requires Refers(counters, refs, pool, values)
    ensures forall v | v in Orphans(closed, refs) :: v in values && !Live(closed, v.id)
  {
    OrphansSelected(closed, refs);
    forall v | v in Orphans(closed, refs)
      ensures v in values
    {
      var r :| r in refs && r.window == v;
      var i :| 0 <= i < |refs| && refs[i] == r;
      assert RefersTo(counters[i], refs[i], pool, values);
    }
  }

  /** The retained windows are the last of the pool, in which every window has its own id and table. */
  ghost predicate Lined(ws: seq<CounterWindow>, closed: seq<Window>, pool: seq<CounterWindow>, values: seq<Window>) {
    && |pool| == |values| && |ws| == |closed| && SuffixOf(ws, pool) && SuffixOf(closed, values)
    && (forall i | 0 <= i < |pool| :: pool[i].id == values[i].id)
    && (forall i, j | 0 <= i < j < |pool| :: pool[i].id < pool[j].id && pool[i].rows != pool[j].rows)
  }

  lemma PoolLined(ws: seq<CounterWindow>, closed: seq<Window>, pool: seq<CounterWindow>, values: seq<Window>)
    requires Mirrors(pool, values) && Separate(pool) && SuffixOf(ws, pool) && Mirrors(ws, closed)
    ensures Lined(ws, closed, pool, values)
  {
    forall i | 0 <= i < |pool|
      ensures pool[i].id == values[i].id
    {
      assert pool[i].Is(values[i]);
    }
    var m := |pool| - |ws|;
    forall i | 0 <= i < |ws|
      ensures closed[i] == values[m..][i]
    {
      assert ws[i] == pool[m + i] && ws[i].Is(closed[i]) && pool[m + i].Is(values[m + i]);
    }
  }

  /** The windows at these places of the pool, all before the retained ones and all different. */
  ghost predicate Picked(orphans: seq<CounterWindow>, us: seq<Window>, pool: seq<CounterWindow>, values: seq<Window>,
                         ks: seq<nat>, m: nat) {
    && |orphans| == |us| == |ks| && m <= |pool| == |values|
    && (forall i | 0 <= i < |ks| :: ks[i] < m && orphans[i] == pool[ks[i]] && us[i] == values[ks[i]])
    && (forall i, j | 0 <= i < j < |ks| :: ks[i] != ks[j])
  }

  /** Windows of the pool that are not before the retained ones are among them. */
  lemma RetainedLive(closed: seq<Window>, values: seq<Window>, k: nat)
    requires SuffixOf(closed, values) && |values| - |closed| <= k < |values|
    ensures Live(closed, values[k].id)
  {
    var i := k - (|values| - |closed|);
    assert closed[i] == values[k] && closed[i] in closed;
  }

  lemma PickOrphans(ws: seq<CounterWindow>, closed: seq<Window>, pool: seq<CounterWindow>, values: seq<Window>, us: seq<Window>)
    returns (orphans: seq<CounterWindow>, ks: seq<nat>)
    requires Lined(ws, closed, pool, values) && DistinctIds(us)
    requires forall v | v in us :: v in values && !Live(closed, v.id)
    ensures Picked(orphans, us, pool, values, ks, |pool| - |ws|)
  {
    ks := seq(|us|, i requires 0 <= i < |us| => PositionOf(values, us[i]));
    orphans := seq(|us|, i requires 0 <= i < |us| => pool[ks[i]]);
    forall i | 0 <= i < |ks|
      ensures ks[i] < |pool| - |ws| && us[i] == values[ks[i]]
    {
      if ks[i] >= |pool| - |ws| {
        RetainedLive(closed, values, ks[i]);
      }
    }
  }

  /** Orphans and retained windows are different windows on different tables. */
  lemma OrphansUnshared(ws: seq<CounterWindow>, closed: seq<Window>, pool: seq<CounterWindow>, values: seq<Window>,
                        us: seq<Window>, orphans: seq<CounterWindow>, ks: seq<nat>)
    requires Lined(ws, closed, pool, values) && Picked(orphans, us, pool, values, ks, |pool| - |ws|)
    ensures Unshared(ws + orphans)
  {
    var m := |pool| - |ws|;
    var all := ws + orphans;
    var places := seq(|all|, i requires 0 <= i < |all| => if i < |ws| then m + i else ks[i - |ws|]);
    assert forall i | 0 <= i < |all| :: places[i] < |pool| && all[i] == pool[places[i]];
    assert forall i, j | 0 <= i < j < |all| :: places[i] != places[j];
  }

  lemma OrphansMirror(pool: seq<CounterWindow>, values: seq<Window>, us: seq<Window>, orphans: seq<CounterWindow>,
                      ks: seq<nat>, m: nat)
    requires Mirrors(pool, values) && Picked(orphans, us, pool, values, ks, m)
    ensures Mirrors(orphans, us) && forall w | w in orphans :: w in pool
  {
    forall i | 0 <= i < |orphans|
      ensures orphans[i].rows in Tables(orphans) && orphans[i].Is(us[i])
    {
      assert pool[ks[i]].Is(values[ks[i]]) && orphans[i] in orphans;
    }
  }

  lemma SameId(values: seq<Window>, pool: seq<CounterWindow>, i: nat, j: nat)
    requires |pool| == |values| && i < |pool| && j < |pool| && values[i].id == values[j].id
    requires forall i | 0 <= i < |pool| :: pool[i].id == values[i].id
    requires forall i, j | 0 <= i < j < |pool| :: pool[i].id < pool[j].id
    ensures i == j
  {
  }

  /** Every selected row is in a retained window or an orphan. */
  lemma RefAt(c: CounterRef, r: Ref, k: nat, ws: seq<CounterWindow>, closed: seq<Window>, pool: seq<CounterWindow>,
              values: seq<Window>, us: seq<Window>, orphans: seq<CounterWindow>, ks: seq<nat>)
    requires Lined(ws, closed, pool, values) && Picked(orphans, us, pool, values, ks, |pool| - |ws|)
    requires k < |pool| && pool[k] == c.window && values[k] == r.window
    requires Live(closed, r.window.id) || Live(us, r.window.id)
    ensures c.window in ws + orphans
  {
    var m := |pool| - |ws|;
    if Live(closed, r.window.id) {
      var w :| w in closed && w.id == r.window.id;
      var i :| 0 <= i < |closed| && closed[i] == w;
      assert values[m + i] == w;
      SameId(values, pool, m + i, k);
      assert ws[i] == c.window;
    } else {
      var u :| u in us && u.id == r.window.id;
      var i :| 0 <= i < |us| && us[i] == u;
      SameId(values, pool, ks[i], k);
      assert orphans[i] == c.window;
    }
  }

  /** The given-up windows of a flight, as the acknowledgement needs them. */
  lemma FlightOrphans(ws: seq<CounterWindow>, closed: seq<Window>, pool: seq<CounterWindow>, values: seq<Window>,
                      counters: seq<CounterRef>, refs: seq<Ref>)
    returns (orphans: seq<CounterWindow>)
    requires Mirrors(pool, values) && Separate(pool) && SuffixOf(ws, pool) && Mirrors(ws, closed)
    requires Refers(counters, refs, pool, values)
    ensures Mirrors(orphans, Orphans(closed, refs)) && Unshared(ws + orphans) && At(counters, refs, ws + orphans)
    ensures forall w | w in orphans :: w in pool
  {
    var us := Orphans(closed, refs);
    PoolLined(ws, closed, pool, values);
    OrphansInPool(closed, counters, refs, pool, values);
    OrphansDistinct(closed, refs);
    var ks;
    orphans, ks := PickOrphans(ws, closed, pool, values, us);
    OrphansMirror(pool, values, us, orphans, ks, |pool| - |ws|);
    OrphansUnshared(ws, closed, pool, values, us, orphans, ks);
    forall i | 0 <= i < |refs|
      ensures counters[i].key == refs[i].key && counters[i].window.id == refs[i].window.id
        && counters[i].window in ws + orphans
    {
      assert RefersTo(counters[i], refs[i], pool, values) && refs[i] in refs;
      var k :| 0 <= k < |pool| && pool[k] == counters[i].window && values[k] == refs[i].window;
      RefAt(counters[i], refs[i], k, ws, closed, pool, values, us, orphans, ks);
    }
  }

  // ---- The session ----

  /** The values of at most one window just closed. */
  ghost function ValuesOf(added: seq<CounterWindow>): seq<Window>
    requires |added| <= 1 && (added != [] ==> added[0].rows.Valid())
    reads if added == [] then {} else {added[0]}
    reads if added == [] then {} else {added[0].rows}
  {
    if added == [] then [] else [added[0].Value()]
  }

  /** The pool with the minute just closed behind it still has a window, an id and a table for each value. */
  lemma PoolGrows(r: TelemetryReporter, pool: seq<CounterWindow>, values: seq<Window>, added: seq<CounterWindow>, next: nat)
    requires r.Valid() && Mirrors(pool, values) && Separate(pool) && r.current !in Tables(pool)
    requires (forall w | w in pool :: w.id < next) && |added| <= 1 && r.state.log.windows == next + |added|
    requires added != [] ==>
      && added[0].rows.Valid() && added[0].rows !in Tables(pool) && added[0].rows != r.current && added[0].id == next
    ensures Holds(r.current, pool + added, r.state.current, values + ValuesOf(added), r.state.log.windows)
  {
    if added == [] {
      assert pool + [] == pool && values + [] == values;
    } else {
      var w := added[0];
      assert added == [w];
      HoldsClosed(w.rows, pool, w.rows.View(), values, next, w, w.Value(), r.current);
    }
  }

  ghost predicate Owned(ws: seq<CounterWindow>, objects: set<object>) {
    forall w | w in ws :: w in objects && w.rows in objects
  }

  lemma OwnedMore(pool: seq<CounterWindow>, added: seq<CounterWindow>, objects: set<object>, more: set<object>)
    requires Owned(pool, objects) && Owned(added, more)
    ensures Owned(pool + added, objects + more)
  {
  }

  lemma OwnedSuffix(ws: seq<CounterWindow>, pool: seq<CounterWindow>, objects: set<object>)
    requires SuffixOf(ws, pool) && Owned(pool, objects)
    ensures Owned(ws, objects)
  {
  }

  class FlushSession {
    const reporter: TelemetryReporter
    var selected: Option<SelectedBatch>

    ghost var flight: Option<Flight>    // the batch in flight, as a value
    ghost var pool: seq<CounterWindow>  // the windows retained when a batch was last selected or settled, and those closed since
    ghost var values: seq<Window>       // what they hold
    ghost var Repr: set<object>

    /** The batch in flight is the one selected, and its refs are to windows of the pool. */
    ghost predicate Carries()
      reads this
    {
      Pictures(selected, if flight.Some? then Some(flight.value.batch) else None, pool, values)
    }

    ghost predicate Valid()
      reads this, Repr
    {
      && this in Repr && reporter in Repr && reporter.current in Repr
      && Owned(pool, Repr) && Owned(reporter.closedWindows, Repr)
      && reporter.Valid()
      && Holds(reporter.current, pool, reporter.state.current, values, reporter.state.log.windows)
      && SuffixOf(reporter.closedWindows, pool)
      && Carries()
    }

    /** What the session amounts to. */
    ghost function View(): Sys
      reads this, reporter
    {
      Sys(reporter.state, flight)
    }

    constructor (sizes: Sizes, sampleRate: real)
      ensures Valid() && fresh(Repr) && reporter.sizes == sizes && View() == Start(sampleRate)
    {
      var r := new TelemetryReporter(sizes, sampleRate);
      reporter, selected, flight := r, None, None;
      pool, values := [], [];
      Repr := {this, r, r.current};
    }

    /** From here on these are the windows a flight may refer to. */
    ghost method Adopt(ws: seq<CounterWindow>, vs: seq<Window>, objects: set<object>)
      requires this in objects && reporter in objects && reporter.current in objects
      requires Owned(ws, objects) && Owned(reporter.closedWindows, objects)
      requires reporter.Valid()
      requires Holds(reporter.current, ws, reporter.state.current, vs, reporter.state.log.windows)
      requires SuffixOf(reporter.closedWindows, ws)
      requires Pictures(selected, if flight.Some? then Some(flight.value.batch) else None, ws, vs)
      modifies this`pool, this`values, this`Repr
      ensures Valid() && Repr == objects
    {
      pool, values, Repr := ws, vs, objects;
    }

    /** The objects that may be reached after a minute was closed. */
    ghost function Reach(added: seq<CounterWindow>): set<object>
      reads this, reporter
    {
      Repr + ({reporter.current} + if added == [] then {} else {added[0], added[0].rows})
    }

    /** What the reporter did to its windows, as far as the pool is concerned. */
    twostate lemma PoolKept(new added: seq<CounterWindow>)
      requires old(Valid()) && reporter.Valid() && reporter.Grew(added)
      requires unchanged(this) && forall w | w in pool :: unchanged(w) && unchanged(w.rows)
      ensures |added| <= 1 && (added != [] ==> added[0].rows.Valid())
      ensures Holds(reporter.current, pool + added, reporter.state.current, values + ValuesOf(added), reporter.state.log.windows)
      ensures SuffixOf(reporter.closedWindows, pool + added)
    {
      assert Mirrors(pool, values);
      PoolGrows(reporter, pool, values, added, old(reporter.state.log.windows));
      SuffixMore(old(reporter.closedWindows), pool, added);
      SuffixTrans(reporter.closedWindows, old(reporter.closedWindows) + added, pool + added);
    }

    twostate lemma ReachFresh(new added: seq<CounterWindow>)
      requires old(Valid()) && reporter.Grew(added) && unchanged(this)
      ensures fresh(Reach(added) - old(Repr))
    {
    }

    lemma StillCarries(added: seq<CounterWindow>)
      requires Carries() && |added| <= 1 && (added != [] ==> added[0].rows.Valid()) && |pool| == |values|
      ensures Pictures(selected, if flight.Some? then Some(flight.value.batch) else None, pool + added, values + ValuesOf(added))
    {
      if selected.Some? {
        RefersMore(selected.value.counters, flight.value.batch.refs, pool, values, added, ValuesOf(added));
      }
    }

    lemma ReachOwns(added: seq<CounterWindow>)
      requires Owned(pool, Repr) && |added| <= 1 && SuffixOf(reporter.closedWindows, pool + added)
      ensures Owned(pool + added, Reach(added)) && Owned(reporter.closedWindows, Reach(added))
    {
      OwnedMore(pool, added, Repr, {reporter.current} + if added == [] then {} else {added[0], added[0].rows});
      OwnedSuffix(reporter.closedWindows, pool + added, Reach(added));
    }

    /** What a flight may refer to once a call was recorded: what it could, and the minute that was closed. */
    twostate lemma PoolRecorded(new added: seq<CounterWindow>)
      requires old(Valid()) && reporter.Valid() && reporter.Grew(added)
      requires unchanged(this) && forall w | w in pool :: unchanged(w) && unchanged(w.rows)
      ensures |added| <= 1 && (added != [] ==> added[0].rows.Valid())
      ensures Owned(pool + added, Reach(added)) && Owned(reporter.closedWindows, Reach(added))
      ensures fresh(Reach(added) - old(Repr))
      ensures Holds(reporter.current, pool + added, reporter.state.current, values + ValuesOf(added), reporter.state.log.windows)
      ensures SuffixOf(reporter.closedWindows, pool + added)
      ensures Pictures(selected, if flight.Some? then Some(flight.value.batch) else None, pool + added, values + ValuesOf(added))
    {
      PoolKept(added);
      StillCarries(added);
      ReachOwns(added);
      ReachFresh(added);
    }

    method RecordCall(at: int, sample: Sample, incs: seq<Increment>) returns (ghost added: seq<CounterWindow>)
      requires Valid()
      modifies reporter, reporter.current
      ensures reporter.Valid() && reporter.Grew(added)
      ensures reporter.state == ReporterState.OnRequest(reporter.sizes, old(reporter.state), at, sample, incs)
      ensures forall w | w in pool :: unchanged(w) && unchanged(w.rows)
    {
      assert forall w | w in pool :: w.rows in Tables(pool);
      added := reporter.Record(at, sample, incs);
    }

    /** A finished call is recorded, whether or not a batch is in flight. */
    method OnRequest(at: int, sample: Sample, incs: seq<Increment>)
      requires Valid()
      modifies Repr
      ensures Valid() && fresh(Repr - old(Repr))
      ensures reporter.state == ReporterState.OnRequest(reporter.sizes, old(reporter.state), at, sample, incs)
      ensures flight == old(flight)
    {
      ghost var added := RecordCall(at, sample, incs);
      PoolRecorded(added);
      Adopt(pool + added, values + ValuesOf(added), Reach(added));
    }

    /** What a flush may refer to once it has selected: the windows now retained. */
    twostate lemma PoolSelected(new added: seq<CounterWindow>)
      requires old(Valid()) && reporter.Valid() && reporter.Grew(added)
      requires unchanged(this) && forall w | w in pool :: unchanged(w) && unchanged(w.rows)
      ensures Owned(reporter.closedWindows, Reach(added)) && fresh(Reach(added) - old(Repr))
      ensures Holds(reporter.current, reporter.closedWindows, reporter.state.current, reporter.state.closed,
                    reporter.state.log.windows)
      ensures SuffixOf(reporter.closedWindows, reporter.closedWindows)
    {
      PoolKept(added);
      ReachOwns(added);
      ReachFresh(added);
    }

    /** A flush selects its batch, unless one is in flight already. */
    method Flush(at: int, hasKey: bool)
      requires Valid()
      modifies Repr
      ensures Valid() && fresh(Repr - old(Repr))
      ensures View() == Next(reporter.sizes, old(View()), Step.Flush(at, hasKey))
    {
      if selected.Some? {
        return;
      }
      ghost var next := Next(reporter.sizes, View(), Step.Flush(at, hasKey));
      ghost var added;
      var picked;
      picked, added := reporter.BeginFlushNow(at, hasKey);
      PoolSelected(added);
      ghost var objects := Reach(added);
      selected, flight := picked, next.flight;
      Adopt(reporter.closedWindows, reporter.state.closed, objects);
    }

    /** The windows given up since the batch was selected, in the form its removal is stated with. */
    lemma Orphaned() returns (orphans: seq<CounterWindow>)
      requires Valid() && selected.Some?
      ensures reporter.InFlight(selected.value, flight.value.batch, orphans) && Owned(orphans, Repr)
    {
      orphans := FlightOrphans(reporter.closedWindows, reporter.state.closed, pool, values,
                               selected.value.counters, flight.value.batch.refs);
      assert forall w | w in orphans :: w in pool && w.rows in Tables(pool);
    }

    /** The POST in flight is answered. */
    method Answer(at: int, reply: Reply)
      requires Valid()
      modifies Repr
      ensures Valid() && fresh(Repr - old(Repr))
      ensures View() == Next(reporter.sizes, old(View()), Step.Answer(at, reply))
    {
      if selected.None? {
        return;
      }
      HandleAnswer(at, reply);
      selected, flight := None, None;
      Adopt(reporter.closedWindows, reporter.state.closed, Repr + {reporter.current});
    }

    method HandleAnswer(at: int, reply: Reply)
      requires Valid() && selected.Some?
      modifies Repr
      ensures unchanged(this) && reporter.Valid()
      ensures reporter.state == HandleReply(reporter.sizes, old(reporter.state), reply, at, flight.value.batch)
      ensures Owned(reporter.closedWindows, Repr + {reporter.current})
      ensures fresh((Repr + {reporter.current}) - old(Repr))
      ensures Holds(reporter.current, reporter.closedWindows, reporter.state.current, reporter.state.closed,
                    reporter.state.log.windows)
      ensures SuffixOf(reporter.closedWindows, reporter.closedWindows)
    {
      ghost var orphans := Orphaned();
      reporter.HandleResponse(reply, at, selected.value, flight.value.batch, orphans);
      PoolAnswered();
    }

    /** What is left for a flight to refer to once the answer has been acted on: the windows still retained. */
    twostate lemma PoolAnswered()
      requires old(Valid()) && reporter.Valid() && unchanged(this)
      requires reporter.current == old(reporter.current) || fresh(reporter.current)
      requires forall w | w in reporter.closedWindows :: w in old(reporter.closedWindows)
      ensures Owned(reporter.closedWindows, Repr + {reporter.current})
      ensures fresh((Repr + {reporter.current}) - old(Repr))
      ensures Holds(reporter.current, reporter.closedWindows, reporter.state.current, reporter.state.closed,
                    reporter.state.log.windows)
      ensures SuffixOf(reporter.closedWindows, reporter.closedWindows)
    {
    }

    method BackOff(at: int)
      requires Valid()
      modifies reporter
      ensures Valid() && reporter.state == old(reporter.state).(pace := SetBackoff(old(reporter.state).pace, at, None))
    {
      reporter.SetBackoffFor(at, None);
    }

    /** The POST in flight fails in transport. */
    method Fail(at: int)
      requires Valid()
      modifies Repr
      ensures Valid() && fresh(Repr - old(Repr))
      ensures View() == Next(reporter.sizes, old(View()), Step.Fail(at))
    {
      if selected.None? {
        return;
      }
      BackOff(at);
      selected, flight := None, None;
      Adopt(pool, values, Repr);
    }

    /** The client is closed. */
    method Close()
      requires Valid()
      modifies Repr
      ensures Valid() && fresh(Repr - old(Repr))
      ensures View() == Next(reporter.sizes, old(View()), Step.Shut)
    {
      reporter.Shut();
      Adopt(pool, values, Repr);
    }

    method Act(step: Step)
      requires Valid()
      modifies Repr
      ensures Valid() && fresh(Repr - old(Repr))
      ensures View() == Next(reporter.sizes, old(View()), step)
    {
      match step
      case Record(at, sample, incs) => OnRequest(at, sample, incs);
      case Flush(at, hasKey) => Flush(at, hasKey);
      case Answer(at, reply) => Answer(at, reply);
      case Fail(at) => Fail(at);
      case Shut => Close();
    }
  }

  /** Any steps, in any order, on a new reporter: the objects end where the run ends. */
  method Drive(sizes: Sizes, sampleRate: real, steps: seq<Step>) returns (session: FlushSession)
    ensures fresh(session) && session.Valid() && session.reporter.sizes == sizes
    ensures session.View() == Run(sizes, Start(sampleRate), steps)
    ensures session.reporter.state == Run(sizes, Start(sampleRate), steps).r
  {
    session := new FlushSession(sizes, sampleRate);
    for n := 0 to |steps|
      invariant session.Valid() && fresh(session) && fresh(session.Repr) && session.reporter.sizes == sizes
      invariant session.View() == Run(sizes, Start(sampleRate), steps[..n])
    {
      assert steps[..n + 1][..n] == steps[..n];
      session.Act(steps[n]);
    }
    assert steps[..|steps|] == steps;
  }
}
