// Windows as objects: closed minutes updated in place, and what an
// acknowledgement does to them.
module WindowObjects {
  import opened Options
  import opened Counters
  import opened FoldLadder
  import opened ReporterState
  import opened ReporterBalance
  import opened ReporterWindows

  class CounterWindow {
    ghost const id: nat  // its identity, as a number
    const start: int
    const rows: CounterTable
    var sizeBytes: int

    constructor (ghost id: nat, start: int, rows: CounterTable, sizeBytes: int)
      ensures this.id == id && this.start == start && this.rows == rows && this.sizeBytes == sizeBytes
    {
      this.id := id;
      this.start := start;
      this.rows := rows;
      this.sizeBytes := sizeBytes;
    }

    /** The window holds what w says. */
    ghost predicate Is(w: Window)
      reads this, rows
    {
      rows.Valid() && id == w.id && start == w.start && rows.View() == w.rows && sizeBytes == w.size
    }

    ghost function Value(): (w: Window)
      requires rows.Valid()
      reads this, rows
      ensures Is(w)
    {
      Window(id, start, rows.View(), sizeBytes)
    }
  }

  ghost function Tables(ws: seq<CounterWindow>): set<CounterTable> {
    set w | w in ws :: w.rows
  }

  /** The windows hold what vs says, in order. */
  ghost predicate Mirrors(ws: seq<CounterWindow>, vs: seq<Window>)
    reads ws, Tables(ws)
  {
    |ws| == |vs| && forall i | 0 <= i < |ws| :: ws[i].rows in Tables(ws) && ws[i].Is(vs[i])
  }

  /** Distinct windows on distinct tables, in order of closing. */
  ghost predicate Separate(ws: seq<CounterWindow>) {
    forall i, j | 0 <= i < j < |ws| :: ws[i].id < ws[j].id && ws[i].rows != ws[j].rows
  }

  /** A selected row: the window it is in and its key. */
  datatype CounterRef = CounterRef(window: CounterWindow, key: CounterKey)

  datatype SelectedBatch = SelectedBatch(wire: Wire, events: seq<Event>, counters: seq<CounterRef>, dropped: int)

  /** The ref is to the window that mirrors the one the value-level ref is to. */
  ghost predicate RefersTo(c: CounterRef, r: Ref, ws: seq<CounterWindow>, vs: seq<Window>)
    requires |ws| == |vs|
  {
    c.key == r.key && exists k :: 0 <= k < |ws| && ws[k] == c.window && vs[k] == r.window
  }

  ghost predicate Refers(counters: seq<CounterRef>, refs: seq<Ref>, ws: seq<CounterWindow>, vs: seq<Window>) {
    |ws| == |vs| && |counters| == |refs| && forall i | 0 <= i < |refs| :: RefersTo(counters[i], refs[i], ws, vs)
  }

  /** Refs to one window, for these keys. */
  ghost predicate Names(counters: seq<CounterRef>, w: CounterWindow, refs: seq<Ref>) {
    |counters| == |refs| && forall i | 0 <= i < |refs| :: counters[i] == CounterRef(w, refs[i].key)
  }

  lemma RefersConcat(a: seq<CounterRef>, b: seq<CounterRef>, ra: seq<Ref>, rb: seq<Ref>,
                     ws: seq<CounterWindow>, vs: seq<Window>)
    requires Refers(a, ra, ws, vs) && Refers(b, rb, ws, vs)
    ensures Refers(a + b, ra + rb, ws, vs)
  {
  }

  lemma RefsOfSnoc(v: Window, i: nat)
    requires i < |v.rows|
    ensures RefsOf(v)[..i + 1] == RefsOf(v)[..i] + [Ref(v, v.rows[i].key)]
  {
  }

  // ---- Taking selected rows out of their tables ----

  /** No two of the windows share an identity or a table. */
  ghost predicate Unshared(ws: seq<CounterWindow>) {
    forall i, j | 0 <= i < |ws| && 0 <= j < |ws| && i != j :: ws[i].id != ws[j].id && ws[i].rows != ws[j].rows
  }

  ghost function Emptied(vs: seq<Window>, refs: seq<Ref>): (r: seq<Window>)
    ensures |r| == |vs|
    ensures forall i | 0 <= i < |vs| :: r[i] == vs[i].(rows := Without(vs[i].rows, SentKeys(refs, vs[i].id)))
  {
    seq(|vs|, i requires 0 <= i < |vs| => vs[i].(rows := Without(vs[i].rows, SentKeys(refs, vs[i].id))))
  }

  lemma {:induction false} WithoutAbsent(t: Table, ks: set<CounterKey>, k: CounterKey)
    requires forall i | 0 <= i < |t| :: t[i].key != k
    ensures Without(t, ks + {k}) == Without(t, ks)
  {
    if t != [] {
      WithoutAbsent(t[1..], ks, k);
    }
  }

  lemma RemoveCons(x: Row, rest: Table, k: CounterKey)
    ensures Remove([x] + rest, k) == if x.key == k then rest else [x] + Remove(rest, k)
  {
    var all := [x] + rest;
    assert all[1..] == rest;
    if x.key != k && Has(rest, k) {
      var i := Find(rest, k);
      assert all[..i + 1] + all[i + 2..] == [x] + (rest[..i] + rest[i + 1..]);
    }
  }

  lemma WithoutCons(x: Row, rest: Table, ks: set<CounterKey>)
    ensures Without([x] + rest, ks) == if x.key in ks then Without(rest, ks) else [x] + Without(rest, ks)
  {
    assert ([x] + rest)[1..] == rest;
    assert [] + Without(rest, ks) == Without(rest, ks);
  }

  lemma {:induction false} WithoutMore(t: Table, ks: set<CounterKey>, k: CounterKey)
    requires Distinct(t)
    ensures Remove(Without(t, ks), k) == Without(t, ks + {k})
  {
    if t != [] {
      var x, tail := t[0], t[1..];
      assert t == [x] + tail;
      assert Distinct(tail);
      WithoutMore(tail, ks, k);
      WithoutCons(x, tail, ks);
      WithoutCons(x, tail, ks + {k});
      RemoveCons(x, Without(tail, ks), k);
      if x.key == k {
        assert forall i | 0 <= i < |tail| :: tail[i].key != k;
        WithoutAbsent(tail, ks, k);
      }
    }
  }

  lemma SentMore(refs: seq<Ref>, n: nat, id: nat)
    requires n < |refs|
    ensures refs[n].window.id == id ==> SentKeys(refs[..n + 1], id) == SentKeys(refs[..n], id) + {refs[n].key}
    ensures refs[n].window.id != id ==> SentKeys(refs[..n + 1], id) == SentKeys(refs[..n], id)
  {
    assert refs[..n + 1] == refs[..n] + [refs[n]];
  }

  /** Windows that have lost rows. */
  ghost predicate Lost(ws: seq<CounterWindow>, vs: seq<Window>, refs: seq<Ref>, changed: set<CounterWindow>) {
    && |ws| == |vs|
    && (forall w | w in changed :: w in ws)
    && (forall i | 0 <= i < |ws| :: ws[i] in changed <==> |Without(vs[i].rows, SentKeys(refs, vs[i].id))| < |vs[i].rows|)
  }

  /** Which window a ref is to. */
  ghost predicate At(counters: seq<CounterRef>, refs: seq<Ref>, all: seq<CounterWindow>) {
    && |counters| == |refs|
    && (forall i | 0 <= i < |refs| :: counters[i].key == refs[i].key && counters[i].window.id == refs[i].window.id
                                        && counters[i].window in all)
  }

  lemma EmptiedOne(all: seq<CounterWindow>, vs: seq<Window>, refs: seq<Ref>, n: nat, k: nat)
    requires n < |refs| && |all| == |vs| && k < |vs| && Unshared(all)
    requires forall i | 0 <= i < |vs| :: all[i].id == vs[i].id && Distinct(vs[i].rows)
    requires refs[n].window.id == all[k].id
    ensures forall i | 0 <= i < |vs| && i != k :: Emptied(vs, refs[..n + 1])[i] == Emptied(vs, refs[..n])[i]
    ensures Emptied(vs, refs[..n + 1])[k]
      == Emptied(vs, refs[..n])[k].(rows := Remove(Emptied(vs, refs[..n])[k].rows, refs[n].key))
  {
    forall i | 0 <= i < |vs| && i != k
      ensures SentKeys(refs[..n + 1], vs[i].id) == SentKeys(refs[..n], vs[i].id)
    {
      assert all[i].id != all[k].id;
      SentMore(refs, n, vs[i].id);
    }
    SentMore(refs, n, vs[k].id);
    WithoutMore(vs[k].rows, SentKeys(refs[..n], vs[k].id), refs[n].key);
  }

  lemma RemoveLength(t: Table, k: CounterKey)
    ensures |Remove(t, k)| == if Has(t, k) then |t| - 1 else |t|
  {
  }

  /** Remove one row from one window's table; the other windows are on other tables. */
  method RemoveRow(w: CounterWindow, key: CounterKey, ghost all: seq<CounterWindow>, ghost us: seq<Window>, ghost k: nat)
    returns (found: bool)
    requires Mirrors(all, us) && Unshared(all) && k < |all| && all[k] == w
    modifies w.rows
    ensures found == Has(us[k].rows, key)
    ensures Mirrors(all, us[k := us[k].(rows := Remove(us[k].rows, key))])
  {
    assert w.Is(us[k]) && w.rows in Tables(all);
    assert forall i | 0 <= i < |all| && i != k :: all[i].rows != w.rows;
    var row;
    found, row := w.rows.Delete(key);
  }

  lemma LostOne(all: seq<CounterWindow>, vs: seq<Window>, refs: seq<Ref>, n: nat, k: nat, changed: set<CounterWindow>)
    requires n < |refs| && |all| == |vs| && k < |vs| && Unshared(all)
    requires forall i | 0 <= i < |vs| :: all[i].id == vs[i].id && Distinct(vs[i].rows)
    requires refs[n].window.id == all[k].id
    requires Lost(all, vs, refs[..n], changed)
    ensures var us := Emptied(vs, refs[..n]);
      && Emptied(vs, refs[..n + 1]) == us[k := us[k].(rows := Remove(us[k].rows, refs[n].key))]
      && Lost(all, vs, refs[..n + 1], if Has(us[k].rows, refs[n].key) then changed + {all[k]} else changed)
  {
    var us, more := Emptied(vs, refs[..n]), Emptied(vs, refs[..n + 1]);
    EmptiedOne(all, vs, refs, n, k);
    RemoveLength(us[k].rows, refs[n].key);
    WithoutAll(vs[k].rows, SentKeys(refs[..n], vs[k].id));
    forall i | 0 <= i < |vs|
      ensures Without(vs[i].rows, SentKeys(refs[..n + 1], vs[i].id)) == more[i].rows
      ensures Without(vs[i].rows, SentKeys(refs[..n], vs[i].id)) == us[i].rows
      ensures i != k ==> all[i] != all[k]
    {
    }
  }

  /** Remove every selected row from its window's table, remembering which windows changed. */
  method RemoveRows(counters: seq<CounterRef>, ghost refs: seq<Ref>, ghost all: seq<CounterWindow>, ghost vs: seq<Window>)
    returns (changed: set<CounterWindow>)
    requires Mirrors(all, vs) && Unshared(all) && At(counters, refs, all)
    modifies Tables(all)
    ensures Mirrors(all, Emptied(vs, refs)) && Lost(all, vs, refs, changed)
  {
    changed := {};
    EmptiedNone(all, vs);
    assert refs[..0] == [];
    for n := 0 to |counters|
      invariant Mirrors(all, Emptied(vs, refs[..n])) && Lost(all, vs, refs[..n], changed)
    {
      var w := counters[n].window;
      ghost var k :| 0 <= k < |all| && all[k] == w;
      assert w.rows in Tables(all);
      LostOne(all, vs, refs, n, k, changed);
      var found := RemoveRow(w, counters[n].key, all, Emptied(vs, refs[..n]), k);
      if found {
        changed := changed + {w};
      }
    }
    assert refs[..|refs|] == refs;
  }

  lemma EmptiedNone(all: seq<CounterWindow>, vs: seq<Window>)
    requires Mirrors(all, vs)
    ensures Mirrors(all, Emptied(vs, [])) && Lost(all, vs, [], {})
    ensures forall i | 0 <= i < |vs| :: all[i].id == vs[i].id && Distinct(vs[i].rows)
  {
    forall i | 0 <= i < |vs|
      ensures Emptied(vs, [])[i] == vs[i] && |Without(vs[i].rows, SentKeys([], vs[i].id))| == |vs[i].rows|
      ensures all[i].id == vs[i].id && Distinct(vs[i].rows)
    {
      assert all[i].Is(vs[i]);
      assert SentKeys([], vs[i].id) == {};
      WithoutNothing(vs[i].rows);
    }
  }

  lemma {:induction false} WithoutNothing(t: Table)
    ensures Without(t, {}) == t
  {
    if t != [] {
      WithoutNothing(t[1..]);
    }
  }

  // ---- Resizing the windows that changed ----

  /** The windows when those numbered in done have been resized. */
  ghost function Resized(z: Sizes, vs: seq<Window>, refs: seq<Ref>, done: set<nat>): (r: seq<Window>)
    ensures |r| == |vs|
    ensures forall i | 0 <= i < |vs| :: r[i] == if vs[i].id in done then Shrunk(z, vs[i], refs) else Emptied(vs, refs)[i]
  {
    seq(|vs|, i requires 0 <= i < |vs| => if vs[i].id in done then Shrunk(z, vs[i], refs) else Emptied(vs, refs)[i])
  }

  ghost function FreedBy(z: Sizes, vs: seq<Window>, refs: seq<Ref>, done: set<nat>): int {
    if vs == [] then 0
    else (if vs[0].id in done then vs[0].size - Shrunk(z, vs[0], refs).size else 0) + FreedBy(z, vs[1..], refs, done)
  }

  ghost predicate DistinctIds(vs: seq<Window>) {
    forall i, j | 0 <= i < j < |vs| :: vs[i].id != vs[j].id
  }

  lemma {:induction false} FreedByNone(z: Sizes, vs: seq<Window>, refs: seq<Ref>, done: set<nat>, id: nat)
    requires forall i | 0 <= i < |vs| :: vs[i].id != id
    ensures FreedBy(z, vs, refs, done + {id}) == FreedBy(z, vs, refs, done)
  {
    if vs != [] {
      FreedByNone(z, vs[1..], refs, done, id);
    }
  }

  lemma {:induction false} FreedByOne(z: Sizes, vs: seq<Window>, refs: seq<Ref>, done: set<nat>, k: nat)
    requires DistinctIds(vs) && k < |vs| && vs[k].id !in done
    ensures FreedBy(z, vs, refs, done + {vs[k].id}) == FreedBy(z, vs, refs, done) + vs[k].size - Shrunk(z, vs[k], refs).size
  {
    if k == 0 {
      FreedByNone(z, vs[1..], refs, done, vs[0].id);
    } else {
      assert vs[1..][k - 1] == vs[k];
      FreedByOne(z, vs[1..], refs, done, k - 1);
    }
  }

  lemma {:induction false} FreedByAll(z: Sizes, vs: seq<Window>, refs: seq<Ref>, done: set<nat>)
    requires forall i | 0 <= i < |vs| :: vs[i].id !in done ==> Shrunk(z, vs[i], refs) == vs[i]
    ensures FreedBy(z, vs, refs, done) == Freed(z, vs, refs)
  {
    if vs != [] {
      FreedByAll(z, vs[1..], refs, done);
    }
  }

  lemma {:induction false} FreedByEmpty(z: Sizes, vs: seq<Window>, refs: seq<Ref>)
    ensures FreedBy(z, vs, refs, {}) == 0
  {
    if vs != [] {
      FreedByEmpty(z, vs[1..], refs);
    }
  }

  /** Re-measure one changed window; the others are other windows. */
  method ResizeOne(sizes: Sizes, w: CounterWindow, ghost v: Window, ghost refs: seq<Ref>,
                   ghost all: seq<CounterWindow>, ghost us: seq<Window>, ghost k: nat)
    requires Mirrors(all, us) && Unshared(all) && k < |all| && all[k] == w
    requires us[k] == v.(rows := Without(v.rows, SentKeys(refs, v.id)))
    requires |Without(v.rows, SentKeys(refs, v.id))| < |v.rows|
    modifies w
    ensures Mirrors(all, us[k := Shrunk(sizes, v, refs)]) && w.sizeBytes == Shrunk(sizes, v, refs).size
  {
    assert w.Is(us[k]);
    assert forall i | 0 <= i < |all| && i != k :: all[i] != w;
    w.sizeBytes := 0;
    if w.rows.Size() > 0 {
      w.sizeBytes := sizes.window(w.rows.Rows());
    }
  }

  ghost function Ids(ws: set<CounterWindow>): set<nat> {
    set w | w in ws :: w.id
  }

  lemma MirroredIds(all: seq<CounterWindow>, vs: seq<Window>, refs: seq<Ref>)
    requires Mirrors(all, Emptied(vs, refs)) && Unshared(all)
    ensures |all| == |vs| && DistinctIds(vs) && forall i | 0 <= i < |vs| :: all[i].id == vs[i].id
  {
    forall i | 0 <= i < |vs|
      ensures all[i].id == vs[i].id
    {
      assert all[i].Is(Emptied(vs, refs)[i]);
    }
  }

  lemma ResizedMore(z: Sizes, vs: seq<Window>, refs: seq<Ref>, done: set<nat>, k: nat)
    requires DistinctIds(vs) && k < |vs|
    ensures Resized(z, vs, refs, done + {vs[k].id}) == Resized(z, vs, refs, done)[k := Shrunk(z, vs[k], refs)]
  {
    assert forall i | 0 <= i < |vs| && i != k :: vs[i].id != vs[k].id;
  }

  /** Windows that lost no row did not need resizing. */
  lemma AllResized(z: Sizes, all: seq<CounterWindow>, vs: seq<Window>, refs: seq<Ref>, changed: set<CounterWindow>)
    requires |all| == |vs| && DistinctIds(vs) && (forall i | 0 <= i < |vs| :: all[i].id == vs[i].id)
    requires Lost(all, vs, refs, changed)
    ensures Resized(z, vs, refs, Ids(changed)) == ShrunkAll(z, vs, refs)
    ensures forall i | 0 <= i < |vs| :: vs[i].id !in Ids(changed) ==> Shrunk(z, vs[i], refs) == vs[i]
  {
    forall i | 0 <= i < |vs|
      ensures vs[i].id !in Ids(changed) ==> Shrunk(z, vs[i], refs) == vs[i] && Emptied(vs, refs)[i] == vs[i]
    {
      WithoutAll(vs[i].rows, SentKeys(refs, vs[i].id));
      if vs[i].id !in Ids(changed) {
        assert all[i] !in changed;
      }
    }
  }

  lemma ChangedHere(all: seq<CounterWindow>, vs: seq<Window>, refs: seq<Ref>, changed: set<CounterWindow>,
                    left: set<CounterWindow>, w: CounterWindow) returns (k: nat)
    requires Lost(all, vs, refs, changed) && w in left && left <= changed
    ensures k < |all| && all[k] == w && |Without(vs[k].rows, SentKeys(refs, vs[k].id))| < |vs[k].rows|
  {
    assert w in changed && w in all;
    k :| 0 <= k < |all| && all[k] == w;
  }

  lemma IdsSplit(all: seq<CounterWindow>, vs: seq<Window>, left: set<CounterWindow>, w: CounterWindow)
    requires |all| == |vs| && DistinctIds(vs) && (forall i | 0 <= i < |vs| :: all[i].id == vs[i].id)
    requires w in left && forall x | x in left :: x in all
    ensures Ids(left) == Ids(left - {w}) + {w.id} && w.id !in Ids(left - {w})
  {
    assert forall x | x in left && x != w :: x.id != w.id;
    assert left == (left - {w}) + {w};
  }

  method ResizeNext(sizes: Sizes, w: CounterWindow, retained: int, ghost all: seq<CounterWindow>, ghost vs: seq<Window>,
                    ghost refs: seq<Ref>, ghost done: set<nat>, ghost k: nat)
    returns (adjusted: int)
    requires Mirrors(all, Resized(sizes, vs, refs, done)) && Unshared(all) && DistinctIds(vs)
    requires k < |all| && all[k] == w && w.id == vs[k].id && w.id !in done
    requires |Without(vs[k].rows, SentKeys(refs, vs[k].id))| < |vs[k].rows|
    modifies w
    ensures Mirrors(all, Resized(sizes, vs, refs, done + {w.id}))
    ensures adjusted == retained - (FreedBy(sizes, vs, refs, done + {w.id}) - FreedBy(sizes, vs, refs, done))
  {
    assert w.Is(Resized(sizes, vs, refs, done)[k]);
    FreedByOne(sizes, vs, refs, done, k);
    ResizedMore(sizes, vs, refs, done, k);
    adjusted := retained - w.sizeBytes;
    ResizeOne(sizes, w, vs[k], refs, all, Resized(sizes, vs, refs, done), k);
    adjusted := adjusted + w.sizeBytes;
  }

  /** Re-measure every changed window, in whatever order, and adjust the retained bytes. */
  method Resize(sizes: Sizes, changed: set<CounterWindow>, retained: int, ghost all: seq<CounterWindow>,
                ghost vs: seq<Window>, ghost refs: seq<Ref>)
    returns (adjusted: int)
    requires Mirrors(all, Emptied(vs, refs)) && Unshared(all) && Lost(all, vs, refs, changed)
    modifies all
    ensures Mirrors(all, ShrunkAll(sizes, vs, refs))
    ensures adjusted == retained - Freed(sizes, vs, refs)
  {
    adjusted := retained;
    var left := changed;
    ghost var done: set<nat> := {};
    MirroredIds(all, vs, refs);
    FreedByEmpty(sizes, vs, refs);
    assert Resized(sizes, vs, refs, {}) == Emptied(vs, refs);
    while left != {}
      invariant left <= changed && done !! Ids(left) && Ids(changed) == done + Ids(left)
      invariant Mirrors(all, Resized(sizes, vs, refs, done))
      invariant adjusted == retained - FreedBy(sizes, vs, refs, done)
      decreases left
    {
      var w :| w in left;
      ghost var k := ChangedHere(all, vs, refs, changed, left, w);
      IdsSplit(all, vs, left, w);
      adjusted := ResizeNext(sizes, w, adjusted, all, vs, refs, done, k);
      left := left - {w};
      done := done + {w.id};
    }
    assert Ids(left) == {};
    AllResized(sizes, all, vs, refs, changed);
    FreedByAll(sizes, vs, refs, done);
  }

  // ---- Dropping emptied windows ----

  lemma {:induction false} NonemptySnoc(vs: seq<Window>, v: Window)
    ensures Nonempty(vs + [v]) == Nonempty(vs) + if v.rows == [] then [] else [v]
  {
    if vs == [] {
      assert vs + [v] == [v] && [v][1..] == [];
    } else {
      assert (vs + [v])[1..] == vs[1..] + [v];
      NonemptySnoc(vs[1..], v);
    }
  }

  /** The windows that still hold rows, in order. */
  method DropEmpty(windows: seq<CounterWindow>, ghost vs: seq<Window>) returns (remaining: seq<CounterWindow>)
    requires Mirrors(windows, vs) && Separate(windows)
    ensures Mirrors(remaining, Nonempty(vs)) && Separate(remaining)
    ensures forall w | w in remaining :: w in windows
  {
    remaining := [];
    ghost var us: seq<Window> := [];
    for n := 0 to |windows|
      invariant us == Nonempty(vs[..n])
      invariant Mirrors(remaining, us) && Separate(remaining)
      invariant forall w | w in remaining :: w in windows[..n]
    {
      var w := windows[n];
      assert w.Is(vs[n]) && w.rows in Tables(windows);
      NonemptyNext(vs, n);
      assert windows[..n + 1] == windows[..n] + [w];
      if w.rows.Size() > 0 {
        KeepWindow(remaining, us, w, vs[n], windows, n);
        remaining, us := remaining + [w], us + [vs[n]];
      }
    }
    assert vs[..|windows|] == vs && windows[..|windows|] == windows;
  }

  lemma NonemptyNext(vs: seq<Window>, n: nat)
    requires n < |vs|
    ensures Nonempty(vs[..n + 1]) == if vs[n].rows == [] then Nonempty(vs[..n]) else Nonempty(vs[..n]) + [vs[n]]
  {
    assert vs[..n + 1] == vs[..n] + [vs[n]];
    NonemptySnoc(vs[..n], vs[n]);
  }

  lemma KeepWindow(remaining: seq<CounterWindow>, us: seq<Window>, w: CounterWindow, v: Window,
                   windows: seq<CounterWindow>, n: nat)
    requires Mirrors(remaining, us) && Separate(remaining) && Separate(windows)
    requires n < |windows| && windows[n] == w && w.Is(v)
    requires forall x | x in remaining :: x in windows[..n]
    ensures Mirrors(remaining + [w], us + [v]) && Separate(remaining + [w])
  {
    var all := remaining + [w];
    forall i | 0 <= i < |remaining|
      ensures remaining[i].id < w.id && remaining[i].rows != w.rows
    {
      assert remaining[i] in remaining;
      var j :| 0 <= j < n && windows[..n][j] == remaining[i];
      assert windows[j] == remaining[i];
    }
    assert forall i | 0 <= i < |all| :: all[i] in all;
  }

  // ---- Retained windows and orphans together ----

  lemma {:induction false} FreedConcat(z: Sizes, a: seq<Window>, b: seq<Window>, refs: seq<Ref>)
    ensures Freed(z, a + b, refs) == Freed(z, a, refs) + Freed(z, b, refs)
  {
    if a == [] {
      assert a + b == b;
    } else {
      assert (a + b)[1..] == a[1..] + b;
      FreedConcat(z, a[1..], b, refs);
    }
  }

  lemma MirrorsPrefix(a: seq<CounterWindow>, b: seq<CounterWindow>, vs: seq<Window>, us: seq<Window>)
    requires |a| == |vs| && Mirrors(a + b, vs + us)
    ensures Mirrors(a, vs)
  {
    forall i | 0 <= i < |a|
      ensures a[i].rows in Tables(a) && a[i].Is(vs[i])
    {
      assert (a + b)[i] == a[i] && (vs + us)[i] == vs[i] && a[i] in a;
    }
  }

  lemma ShrunkPrefix(z: Sizes, vs: seq<Window>, us: seq<Window>, refs: seq<Ref>)
    ensures ShrunkAll(z, vs + us, refs) == ShrunkAll(z, vs, refs) + ShrunkAll(z, us, refs)
  {
  }
}
