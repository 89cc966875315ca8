// The fold ladder on a table updated in place.
module CounterLadder {
  import opened Counters
  import opened FoldLadder

  method FindMatch(current: CounterTable, g: Grain, key: CounterKey) returns (i: nat)
    requires current.Valid()
    ensures i == FirstMatch(current.View(), g, key)
  {
    i := 0;
    while i < |current.keys|
      invariant i <= |current.keys|
      invariant forall j | 0 <= j < i :: Coarsen(g, current.View()[j].key) != Coarsen(g, key)
    {
      if Coarsen(g, current.keys[i]) == Coarsen(g, key) {
        break;
      }
      i := i + 1;
    }
    assert i < |current.keys| ==> current.View()[i].key == current.keys[i];
  }

  method RekeyRow(current: CounterTable, i: nat, target: CounterKey)
    requires current.Valid() && i < |current.View()|
    modifies current
    ensures current.Valid() && current.View() == Rekey(old(current.View()), i, target)
  {
    var existing := current.keys[i];
    assert current.View()[i].key == existing;
    FindUnique(current.View(), i);
    var _, previous := current.Delete(existing);
    current.Set(target, MergeCounts(NO_COUNTS, previous));
  }

  /** Where an increment under key goes, re-keying an existing row if the ladder needs to. */
  method CounterTarget(current: CounterTable, key: CounterKey) returns (target: CounterKey)
    requires current.Valid()
    modifies current
    ensures current.Valid()
    ensures current.View() == Climb(old(current.View()), key).table
    ensures target == Climb(old(current.View()), key).target
  {
    var present, row := current.Get(key);
    if present || current.Size() < MAX_WINDOW_KEYS {
      return key;
    }
    var errorFolded := Folded(key, false);
    present, row := current.Get(errorFolded);
    if present {
      return errorFolded;
    }
    var i := FindMatch(current, NoErrorClass, key);
    if i < current.Size() {
      target := Folded(current.keys[i], false);
      RekeyRow(current, i, target);
      return;
    }
    var endpointFolded := Folded(key, true);
    present, row := current.Get(endpointFolded);
    if present {
      return endpointFolded;
    }
    i := FindMatch(current, NoEndpoint, key);
    if i < current.Size() {
      target := Folded(current.keys[i], true);
      RekeyRow(current, i, target);
      return;
    }
    return current.keys[0];
  }

  method MergeIncrement(value: CounterValue, added: CounterValue) returns (merged: CounterValue)
    ensures merged == MergeCounts(value, added)
  {
    var total := AddHistogram(value.totalMSHist, added.totalMSHist);
    var first := AddHistogram(value.firstEventMSHist, added.firstEventMSHist);
    merged := CounterValue(
      value.requests + Bounded(added.requests), value.attempts + Bounded(added.attempts),
      value.failoverUsed + Bounded(added.failoverUsed), value.firstAttemptSuccess + Bounded(added.firstAttemptSuccess),
      total, first);
  }

  method AbsorbIncrement(current: CounterTable, inc: Increment)
    requires current.Valid()
    modifies current
    ensures current.Valid() && current.View() == Absorb(old(current.View()), inc)
  {
    var target := CounterTarget(current, inc.key);
    var found, value := current.Get(target);
    var merged := MergeIncrement(value, inc.counts);
    current.Set(target, merged);
  }

  /** Merge what can be counted; report how many increments could not. */
  method MergeAll(current: CounterTable, incs: seq<Increment>) returns (dropped: nat)
    requires current.Valid()
    modifies current
    ensures current.Valid() && current.View() == AbsorbAll(old(current.View()), Accepted(incs))
    ensures dropped == |incs| - |Accepted(incs)|
  {
    dropped := 0;
    for n := 0 to |incs|
      invariant current.Valid() && current.View() == AbsorbAll(old(current.View()), Accepted(incs[..n]))
      invariant dropped == n - |Accepted(incs[..n])|
    {
      assert incs[..n + 1][..n] == incs[..n];
      if Countable(incs[n].key) {
        ghost var before := Accepted(incs[..n]);
        assert (before + [Normal(incs[n])])[..|before|] == before;
        AbsorbIncrement(current, Normal(incs[n]));
      } else {
        dropped := dropped + 1;
      }
    }
    assert incs[..|incs|] == incs;
  }
}
