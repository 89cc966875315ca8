// JSON values as immutable trees, and how a streamed field joins the ones before it.
module Json {
  import opened Options

  type Fields = map<string, Json>

  datatype Json =
    | Null
    | Bool(flag: bool)
    | Number(number: real)
    | Text(text: string)
    | List(items: seq<Json>)
    | Object(fields: Fields)

  function Lookup(fields: Fields, key: string): Option<Json> {
    if key in fields then Some(fields[key]) else None
  }

  /** What a key holds once a value arrives for it: texts, lists and objects grow, anything else is replaced. */
  function MergedValue(prior: Option<Json>, value: Json): (r: Option<Json>)
    ensures prior.Some? || !value.Null? ==> r.Some?
    ensures prior.None? ==> r == if value.Null? then None else Some(value)
    decreases value
  {
    if value.Null? then prior
    else if prior.None? then Some(value)
    else
      match (prior.value, value)
      case (Text(a), Text(b)) => Some(Text(a + b))
      case (List(a), List(b)) => Some(List(a + b))
      case (Object(a), Object(b)) =>
        Some(Object(map k | k in a.Keys + b.Keys && (k in a || !b[k].Null?) ::
          if k in b then MergedValue(Lookup(a, k), b[k]).value else a[k]))
      case (_, _) => Some(value)
  }

  function MergedFields(a: Fields, b: Fields): Fields {
    map k | k in a.Keys + b.Keys && (k in a || !b[k].Null?) ::
      if k in b then MergedValue(Lookup(a, k), b[k]).value else a[k]
  }

  /** Each key is merged on its own. */
  lemma MergedAt(a: Fields, b: Fields, k: string)
    ensures Lookup(MergedFields(a, b), k) == if k in b then MergedValue(Lookup(a, k), b[k]) else Lookup(a, k)
  {
  }

  lemma MergeOneKey(target: Fields, key: string, value: Json)
    ensures MergedFields(target, map[key := value])
      == if value.Null? then target else target[key := MergedValue(Lookup(target, key), value).value]
  {
    var one := map[key := value];
    var r := MergedFields(target, one);
    forall k
      ensures Lookup(r, k) == if k == key then MergedValue(Lookup(target, k), value) else Lookup(target, k)
    {
      MergedAt(target, one, k);
    }
    var s := if value.Null? then target else target[key := MergedValue(Lookup(target, key), value).value];
    assert r.Keys == s.Keys by {
      assert forall k :: k in r <==> Lookup(r, k).Some?;
    }
    assert forall k | k in r :: Some(r[k]) == Lookup(r, k);
  }

  lemma MergeObjects(a: Fields, b: Fields)
    ensures MergedValue(Some(Object(a)), Object(b)) == Some(Object(MergedFields(a, b)))
  {
  }

  /** mergeCompletionField, in whatever order a nested object's keys come. */
  method MergeCompletionField(target: Fields, key: string, value: Json) returns (r: Fields)
    ensures r == MergedFields(target, map[key := value])
    decreases value
  {
    MergeOneKey(target, key, value);
    if value.Null? {
      return target;
    }
    if key !in target {
      return target[key := value];
    }
    var existing := target[key];
    if value.Text? && existing.Text? {
      return target[key := Text(existing.text + value.text)];
    }
    if value.List? && existing.List? {
      return target[key := List(existing.items + value.items)];
    }
    if value.Object? && existing.Object? {
      var prior := existing.fields;
      var keys := value.fields.Keys;
      ghost var done: set<string> := {};
      MergeNone(prior, value.fields);
      while keys != {}
        invariant keys <= value.fields.Keys && done == value.fields.Keys - keys
        invariant prior == MergedFields(existing.fields, Part(value.fields, done))
        decreases |keys|
      {
        var k :| k in keys;
        MergeOneMore(existing.fields, value.fields, done, k);
        prior := MergeCompletionField(prior, k, value.fields[k]);
        keys := keys - {k};
        done := done + {k};
      }
      MergeWhole(value.fields, done);
      MergeObjects(existing.fields, value.fields);
      return target[key := Object(prior)];
    }
    return target[key := value];
  }

  ghost function Part(fields: Fields, keys: set<string>): Fields
    requires keys <= fields.Keys
  {
    map k | k in keys :: fields[k]
  }

  lemma MergeNone(a: Fields, b: Fields)
    ensures MergedFields(a, Part(b, {})) == a
  {
  }

  lemma MergeWhole(b: Fields, done: set<string>)
    requires done == b.Keys
    ensures Part(b, done) == b
  {
  }

  lemma MergeOneMore(a: Fields, b: Fields, done: set<string>, k: string)
    requires done <= b.Keys && k in b && k !in done
    ensures MergedFields(MergedFields(a, Part(b, done)), map[k := b[k]])
      == MergedFields(a, Part(b, done + {k}))
  {
  }

  /** All the fields of one delta, in whatever order its keys come. */
  method MergeAll(target: Fields, fields: Fields) returns (r: Fields)
    ensures r == MergedFields(target, fields)
  {
    r := target;
    var keys := fields.Keys;
    ghost var done: set<string> := {};
    MergeNone(target, fields);
    while keys != {}
      invariant keys <= fields.Keys && done == fields.Keys - keys
      invariant r == MergedFields(target, Part(fields, done))
      decreases |keys|
    {
      var k :| k in keys;
      r := MergeCompletionField(r, k, fields[k]);
      MergeOneMore(target, fields, done, k);
      keys := keys - {k};
      done := done + {k};
    }
    MergeWhole(fields, done);
  }
}
