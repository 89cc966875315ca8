// The per-minute counter rows of the reliability beacon: keys, counts, bounded
// merging, and an insertion-ordered table of rows.
module Counters {

  const MAX_COUNT := 10_000_000
  const MAX_WINDOW_KEYS := 256

  const LATENCY_BUCKETS: seq<string> :=
    ["lt100", "lt200", "lt400", "lt800", "lt1600", "lt3200", "lt6400", "lt12800", "lt25600", "lt51200", "lt102400",
     "ge102400"]
  const ENDPOINTS: seq<string> :=
    ["chat_completions", "messages", "responses", "embeddings", "images", "videos", "models", "fusion",
     "control_other", "inference_other"]
  const HOSTS: seq<string> :=
    ["apex", "ally", "uptime", "us_central1", "us_east4", "europe_west4", "control", "custom"]
  const OUTCOMES: seq<string> := ["ok", "http_error", "transport_error", "timeout", "stream_broken", "aborted"]
  const ERROR_CLASSES: seq<string> :=
    ["dns", "tls", "connect_refused", "connect_timeout", "connect_error", "read_timeout", "write_timeout",
     "pool_timeout", "protocol_error", "reset", "io_error", "proxy_error", "stream_stalled", "unknown"]
  const STATUS_CLASSES: seq<string> := ["none", "2xx", "4xx", "429", "5xx"]
  const TIMEOUT_PHASES: seq<string> := ["none", "connect", "first_byte", "idle", "total"]

  function InSlice(values: seq<string>, value: string): bool {
    values != [] && (values[0] == value || InSlice(values[1..], value))
  }

  lemma {:induction false} InSliceAt(values: seq<string>, i: nat)
    requires i < |values|
    ensures InSlice(values, values[i])
  {
    if i > 0 {
      InSliceAt(values[1..], i - 1);
    }
  }

  predicate KnownBucket(b: string) {
    InSlice(LATENCY_BUCKETS, b)
  }

  /** The ten fields that identify a counter row; an empty error class is the null one. */
  datatype CounterKey = CounterKey(
    level: string, endpoint: string, streaming: bool, host: string, outcome: string, errorClass: string,
    httpStatusClass: string, timeoutPhase: string, timeoutFloorMet: bool, providerPinned: bool)

  type Histogram = map<string, int>

  datatype CounterValue = CounterValue(
    requests: int, attempts: int, failoverUsed: int, firstAttemptSuccess: int,
    totalMSHist: Histogram, firstEventMSHist: Histogram)

  const NO_COUNTS := CounterValue(0, 0, 0, 0, map[], map[])

  datatype Increment = Increment(key: CounterKey, counts: CounterValue)

  function Bounded(count: int): (r: int)
    ensures 0 <= r <= MAX_COUNT
    ensures r == count <==> 0 <= count <= MAX_COUNT
  {
    if count < 0 then 0 else if count > MAX_COUNT then MAX_COUNT else count
  }

  function Bucket(h: Histogram, b: string): int {
    if b in h then h[b] else 0
  }

  /** What merging a source histogram into a target leaves in the target. */
  function MergeHistogram(target: Histogram, source: Histogram): Histogram {
    map b | b in target.Keys + (set b | b in source.Keys && KnownBucket(b))
      :: MergedBucket(target, source, source.Keys, b)
  }

  /** Bucket b after the source keys in seen have been merged. */
  function MergedBucket(target: Histogram, source: Histogram, seen: set<string>, b: string): int {
    Bucket(target, b) + (if b in source && b in seen && KnownBucket(b) then Bounded(source[b]) else 0)
  }

  /** The merge as a pass over the source in any order, skipping unknown buckets. */
  method AddHistogram(target: Histogram, source: Histogram) returns (merged: Histogram)
    ensures merged == MergeHistogram(target, source)
  {
    merged := target;
    var left := source.Keys;
    while left != {}
      invariant left <= source.Keys
      invariant merged.Keys == target.Keys + (set b | b in source.Keys - left && KnownBucket(b))
      invariant forall b | b in merged :: merged[b] == MergedBucket(target, source, source.Keys - left, b)
    {
      var b :| b in left;
      left := left - {b};
      if KnownBucket(b) {
        merged := merged[b := Bucket(merged, b) + Bounded(source[b])];
      }
    }
  }

  function MergeCounts(value: CounterValue, added: CounterValue): CounterValue {
    CounterValue(
      value.requests + Bounded(added.requests),
      value.attempts + Bounded(added.attempts),
      value.failoverUsed + Bounded(added.failoverUsed),
      value.firstAttemptSuccess + Bounded(added.firstAttemptSuccess),
      MergeHistogram(value.totalMSHist, added.totalMSHist),
      MergeHistogram(value.firstEventMSHist, added.firstEventMSHist))
  }

  /** Every quantity a row counts: four counts and two histograms' worth of buckets. */
  datatype Measure =
    | Requests
    | Attempts
    | FailoverUsed
    | FirstAttemptSuccess
    | TotalBucket(bucket: string)
    | FirstEventBucket(bucket: string)
  {
    predicate Known() {
      (TotalBucket? || FirstEventBucket?) ==> KnownBucket(bucket)
    }
  }

  function Amount(v: CounterValue, m: Measure): int {
    match m
    case Requests => v.requests
    case Attempts => v.attempts
    case FailoverUsed => v.failoverUsed
    case FirstAttemptSuccess => v.firstAttemptSuccess
    case TotalBucket(b) => Bucket(v.totalMSHist, b)
    case FirstEventBucket(b) => Bucket(v.firstEventMSHist, b)
  }

  /** What merging v adds to measure m: its bounded amount, and nothing for a bucket outside the enum. */
  function Counted(v: CounterValue, m: Measure): (r: int)
    ensures 0 <= r <= MAX_COUNT
  {
    if m.Known() then Bounded(Amount(v, m)) else 0
  }

  lemma MergeAdds(value: CounterValue, added: CounterValue, m: Measure)
    ensures Amount(MergeCounts(value, added), m) == Amount(value, m) + Counted(added, m)
  {
  }

  // ---- Tables ----

  datatype Row = Row(key: CounterKey, value: CounterValue)

  /** Rows in insertion order. */
  type Table = seq<Row>

  ghost predicate Distinct(t: Table) {
    forall i, j | 0 <= i < j < |t| :: t[i].key != t[j].key
  }

  /** The position of key k, or |t| when no row has it. */
  function Find(t: Table, k: CounterKey): (r: nat)
    ensures r <= |t|
    ensures r < |t| ==> t[r].key == k
    ensures forall i | 0 <= i < r :: t[i].key != k
  {
    if t == [] then 0 else if t[0].key == k then 0 else 1 + Find(t[1..], k)
  }

  predicate Has(t: Table, k: CounterKey) {
    Find(t, k) < |t|
  }

  function Lookup(t: Table, k: CounterKey): CounterValue
    requires Has(t, k)
  {
    t[Find(t, k)].value
  }

  function Put(t: Table, k: CounterKey, v: CounterValue): Table {
    if Has(t, k) then t[Find(t, k) := Row(k, v)] else t + [Row(k, v)]
  }

  function Remove(t: Table, k: CounterKey): Table {
    if Has(t, k) then t[..Find(t, k)] + t[Find(t, k) + 1..] else t
  }

  // ---- Coarser views of a key, and totals over them ----

  /** How much of a key a total distinguishes. */
  datatype Grain = Exact | NoErrorClass | NoEndpoint | Whole

  function Coarsen(g: Grain, k: CounterKey): CounterKey {
    match g
    case Exact => k
    case NoErrorClass => k.(errorClass := "")
    case NoEndpoint => k.(errorClass := "", endpoint := "")
    case Whole => CounterKey("", "", false, "", "", "", "", "", false, false)
  }

  function Share(row: Row, g: Grain, p: CounterKey, m: Measure): int {
    if Coarsen(g, row.key) == p then Amount(row.value, m) else 0
  }

  /** The total of measure m over the rows whose key coarsens to p. */
  function Total(t: Table, g: Grain, p: CounterKey, m: Measure): int {
    if t == [] then 0 else Share(t[0], g, p, m) + Total(t[1..], g, p, m)
  }

  /** The total of measure m over the whole table. */
  function Grand(t: Table, m: Measure): int {
    Total(t, Whole, Coarsen(Whole, ANY_KEY), m)
  }

  const ANY_KEY := CounterKey("", "", false, "", "", "", "", "", false, false)

  lemma {:induction false} TotalConcat(a: Table, b: Table, g: Grain, p: CounterKey, m: Measure)
    ensures Total(a + b, g, p, m) == Total(a, g, p, m) + Total(b, g, p, m)
  {
    if a == [] {
      assert a + b == b;
    } else {
      assert (a + b)[1..] == a[1..] + b;
      TotalConcat(a[1..], b, g, p, m);
    }
  }

  lemma TotalSplit(t: Table, i: nat, g: Grain, p: CounterKey, m: Measure)
    requires i < |t|
    ensures Total(t, g, p, m) == Total(t[..i], g, p, m) + Share(t[i], g, p, m) + Total(t[i + 1..], g, p, m)
  {
    assert t == t[..i] + ([t[i]] + t[i + 1..]);
    TotalConcat(t[..i], [t[i]] + t[i + 1..], g, p, m);
    TotalConcat([t[i]], t[i + 1..], g, p, m);
    assert [t[i]][1..] == [];
  }

  lemma TotalReplace(t: Table, i: nat, row: Row, g: Grain, p: CounterKey, m: Measure)
    requires i < |t|
    ensures Total(t[i := row], g, p, m) == Total(t, g, p, m) - Share(t[i], g, p, m) + Share(row, g, p, m)
  {
    TotalSplit(t, i, g, p, m);
    TotalSplit(t[i := row], i, g, p, m);
    assert t[i := row][..i] == t[..i];
    assert t[i := row][i + 1..] == t[i + 1..];
  }

  lemma TotalAppend(t: Table, row: Row, g: Grain, p: CounterKey, m: Measure)
    ensures Total(t + [row], g, p, m) == Total(t, g, p, m) + Share(row, g, p, m)
  {
    TotalConcat(t, [row], g, p, m);
    assert [row][1..] == [];
  }

  lemma TotalDrop(t: Table, i: nat, g: Grain, p: CounterKey, m: Measure)
    requires i < |t|
    ensures Total(t[..i] + t[i + 1..], g, p, m) == Total(t, g, p, m) - Share(t[i], g, p, m)
  {
    TotalSplit(t, i, g, p, m);
    TotalConcat(t[..i], t[i + 1..], g, p, m);
  }

  // ---- The table as the reporter holds it: an ordered key list and a map ----

  function RowsOf(keys: seq<CounterKey>, rows: map<CounterKey, CounterValue>): (t: Table)
    requires forall k | k in keys :: k in rows
    ensures |t| == |keys|
    ensures forall i | 0 <= i < |keys| :: t[i] == Row(keys[i], rows[keys[i]])
  {
    seq(|keys|, i requires 0 <= i < |keys| => Row(keys[i], rows[keys[i]]))
  }

  lemma RemovedKeys(keys: seq<CounterKey>, rows: map<CounterKey, CounterValue>, i: nat)
    requires i < |keys|
    requires forall a, b | 0 <= a < b < |keys| :: keys[a] != keys[b]
    requires forall k :: k in rows <==> k in keys
    ensures var keys' := keys[..i] + keys[i + 1..];
            var rows' := rows - {keys[i]};
            && (forall a, b | 0 <= a < b < |keys'| :: keys'[a] != keys'[b])
            && (forall k :: k in rows' <==> k in keys')
            && RowsOf(keys', rows') == RowsOf(keys, rows)[..i] + RowsOf(keys, rows)[i + 1..]
  {
    var keys', rows' := keys[..i] + keys[i + 1..], rows - {keys[i]};
    assert forall a | 0 <= a < |keys'| :: keys'[a] == keys[if a < i then a else a + 1];
    forall k
      ensures k in rows' <==> k in keys'
    {
      if k in rows' {
        var a :| 0 <= a < |keys| && keys[a] == k;
        assert keys'[if a < i then a else a - 1] == k;
      }
    }
  }

  lemma SetKeys(keys: seq<CounterKey>, rows: map<CounterKey, CounterValue>, k: CounterKey, v: CounterValue)
    requires forall a, b | 0 <= a < b < |keys| :: keys[a] != keys[b]
    requires forall j :: j in rows <==> j in keys
    ensures k in rows ==> RowsOf(keys, rows[k := v]) == Put(RowsOf(keys, rows), k, v)
    ensures k !in rows ==> RowsOf(keys + [k], rows[k := v]) == Put(RowsOf(keys, rows), k, v)
  {
    var was := RowsOf(keys, rows);
    if k in rows {
      var i :| 0 <= i < |keys| && keys[i] == k;
      assert was[i].key == k;
    } else {
      assert forall i | 0 <= i < |was| :: was[i].key != k;
    }
  }

  class CounterTable {
    var keys: seq<CounterKey>
    var rows: map<CounterKey, CounterValue>

    ghost predicate Valid()
      reads this
    {
      && (forall i, j | 0 <= i < j < |keys| :: keys[i] != keys[j])
      && (forall k :: k in rows <==> k in keys)
    }

    ghost function View(): (t: Table)
      requires Valid()
      reads this
      ensures Distinct(t)
    {
      RowsOf(keys, rows)
    }

    constructor ()
      ensures Valid() && View() == []
    {
      keys := [];
      rows := map[];
    }

    function Size(): (n: nat)
      requires Valid()
      reads this
      ensures n == |View()|
    {
      |keys|
    }

    /** The rows as a value, in insertion order. */
    function Rows(): (t: Table)
      requires Valid()
      reads this
      ensures t == View()
    {
      RowsOf(keys, rows)
    }

    method Get(k: CounterKey) returns (found: bool, value: CounterValue)
      requires Valid()
      ensures found == Has(View(), k)
      ensures value == if found then Lookup(View(), k) else NO_COUNTS
    {
      found := k in rows;
      value := if found then rows[k] else NO_COUNTS;
      if found {
        var i :| 0 <= i < |keys| && keys[i] == k;
        assert View()[i].key == k;
      } else {
        assert forall i | 0 <= i < |keys| :: View()[i].key != k;
      }
    }

    method Set(k: CounterKey, v: CounterValue)
      requires Valid()
      modifies this
      ensures Valid() && View() == Put(old(View()), k, v)
    {
      SetKeys(keys, rows, k, v);
      if k !in rows {
        keys := keys + [k];
      }
      rows := rows[k := v];
    }

    method Delete(k: CounterKey) returns (found: bool, value: CounterValue)
      requires Valid()
      modifies this
      ensures Valid() && View() == Remove(old(View()), k)
      ensures found == Has(old(View()), k)
      ensures value == if found then Lookup(old(View()), k) else NO_COUNTS
    {
      ghost var was := View();
      found, value := Get(k);
      if !found {
        return;
      }
      var i := 0;
      while keys[i] != k
        invariant 0 <= i < |keys|
        invariant forall j | 0 <= j < i :: keys[j] != k
        invariant exists j :: i <= j < |keys| && keys[j] == k
        invariant keys == old(keys) && rows == old(rows)
        decreases |keys| - i
      {
        i := i + 1;
      }
      assert was[i].key == k && Find(was, k) == i;
      RemovedKeys(keys, rows, i);
      rows := rows - {k};
      keys := keys[..i] + keys[i + 1..];
    }
  }
}
