// CollectCompletion: one pass over the chunks, with a state object for every
// choice index seen so far.
module Collector {
  import opened Options
  import opened Json
  import opened Choices

  datatype Chunk = Chunk(
    id: string, created: int, model: string, usage: Option<Fields>, extra: Fields, choices: seq<Tagged<Delta>>)

  datatype Completion = Completion(
    id: string, created: int, model: string, usage: Option<Fields>, extra: Fields, choices: seq<Choice>)

  /** All the deltas of a stream, in order of arrival. */
  function Deltas(chunks: seq<Chunk>): seq<Tagged<Delta>> {
    if chunks == [] then [] else Deltas(chunks[..|chunks| - 1]) + chunks[|chunks| - 1].choices
  }

  function ChunkIds(chunks: seq<Chunk>): (r: seq<Option<string>>)
    ensures |r| == |chunks|
  {
    seq(|chunks|, i requires 0 <= i < |chunks| => Present(Some(chunks[i].id)))
  }

  function Models(chunks: seq<Chunk>): (r: seq<Option<string>>)
    ensures |r| == |chunks|
  {
    seq(|chunks|, i requires 0 <= i < |chunks| => Present(Some(chunks[i].model)))
  }

  function Createds(chunks: seq<Chunk>): (r: seq<Option<int>>)
    ensures |r| == |chunks|
  {
    seq(|chunks|, i requires 0 <= i < |chunks| => if chunks[i].created == 0 then None else Some(chunks[i].created))
  }

  function Usages(chunks: seq<Chunk>): (r: seq<Option<Fields>>)
    ensures |r| == |chunks|
  {
    seq(|chunks|, i requires 0 <= i < |chunks| => chunks[i].usage)
  }

  /** The unknown fields of all chunks, later ones over earlier ones. */
  function ExtraOf(chunks: seq<Chunk>): Fields {
    if chunks == [] then map[] else ExtraOf(chunks[..|chunks| - 1]) + chunks[|chunks| - 1].extra
  }

  function Holding(chunks: seq<Chunk>, key: string): (r: seq<Option<Json>>)
    ensures |r| == |chunks|
  {
    seq(|chunks|, i requires 0 <= i < |chunks| => Lookup(chunks[i].extra, key))
  }

  /** Of each unknown field the last value stands. */
  lemma {:induction false} ExtraLatest(chunks: seq<Chunk>, key: string)
    ensures Lookup(ExtraOf(chunks), key) == Latest(Holding(chunks, key))
  {
    if chunks != [] {
      ExtraLatest(chunks[..|chunks| - 1], key);
      assert Holding(chunks, key)[..|chunks| - 1] == Holding(chunks[..|chunks| - 1], key);
    }
  }

  /** The router's own metadata, if the stream carried any, takes the place of the fields it was carried in. */
  function WithMetadata(extra: Fields, metadata: Option<Json>): Fields {
    if metadata.Some? then extra["trustedrouter" := metadata.value] else extra
  }

  /** The envelope keeps the last of each field that was not blank. */
  predicate Envelope(r: Completion, chunks: seq<Chunk>) {
    r.extra == ExtraOf(chunks)
    && r.id == OrElse(Latest(ChunkIds(chunks)), "")
    && r.created == OrElse(Latest(Createds(chunks)), 0)
    && r.model == OrElse(Latest(Models(chunks)), "")
    && r.usage == Latest(Usages(chunks))
  }

  lemma EnvelopeSnoc(chunks: seq<Chunk>, c: Chunk)
    ensures Latest(ChunkIds(chunks + [c])) == (if c.id == "" then Latest(ChunkIds(chunks)) else Some(c.id))
    ensures Latest(Createds(chunks + [c])) == (if c.created == 0 then Latest(Createds(chunks)) else Some(c.created))
    ensures Latest(Models(chunks + [c])) == (if c.model == "" then Latest(Models(chunks)) else Some(c.model))
    ensures Latest(Usages(chunks + [c])) == (if c.usage.None? then Latest(Usages(chunks)) else c.usage)
    ensures ExtraOf(chunks + [c]) == ExtraOf(chunks) + c.extra
  {
    var n := |chunks|;
    assert (chunks + [c])[..n] == chunks;
    assert ChunkIds(chunks + [c])[..n] == ChunkIds(chunks);
    assert Createds(chunks + [c])[..n] == Createds(chunks);
    assert Models(chunks + [c])[..n] == Models(chunks);
    assert Usages(chunks + [c])[..n] == Usages(chunks);
  }

  // ---- In order of index ----

  ghost predicate Increasing(ks: seq<int>) {
    forall i, j | 0 <= i < j < |ks| :: ks[i] < ks[j]
  }

  ghost function Members(ks: seq<int>): set<int> {
    set k | k in ks
  }

  function Insert(k: int, ks: seq<int>): (r: seq<int>)
    requires Increasing(ks) && k !in ks
    ensures Increasing(r) && Members(r) == Members(ks) + {k}
  {
    if ks == [] || k < ks[0] then [k] + ks
    else
      var r := Insert(k, ks[1..]);
      assert forall i | 0 <= i < |r| :: r[i] in Members(r);
      assert Members(ks) == Members(ks[1..]) + {ks[0]} by {
        assert ks == [ks[0]] + ks[1..];
      }
      assert Members([ks[0]] + r) == Members(r) + {ks[0]};
      [ks[0]] + r
  }

  method AnyOf(keys: set<int>) returns (k: int)
    requires keys != {}
    ensures k in keys
  {
    EmptyOrNot(keys);
    k :| k in keys;
  }

  lemma EmptyOrNot(keys: set<int>)
    ensures keys == {} || exists k :: k in keys
  {
    if !exists k :: k in keys {
      assert keys <= {};
    }
  }

  /** The keys, taken in any order and sorted. */
  method SortedKeys(keys: set<int>) returns (r: seq<int>)
    ensures Increasing(r) && Members(r) == keys
  {
    r := [];
    var rest := keys;
    while rest != {}
      invariant rest <= keys && Increasing(r) && Members(r) == keys - rest
      decreases |rest|
    {
      var k := AnyOf(rest);
      assert k !in Members(r);
      r := Insert(k, r);
      rest := rest - {k};
    }
  }

  // ---- One choice ----

  method FillSlot(before: Slot, call: Fields) returns (slot: Slot)
    ensures slot == Filled(before, call)
  {
    slot := before;
    var id := TextAt(call, "id");
    if Present(id).Some? {
      slot := slot.(id := id);
    }
    var kind := TextAt(call, "type");
    if Present(kind).Some? {
      slot := slot.(kind := kind.value);
    }
    if "function" in call && call["function"].Object? {
      var f := call["function"].fields;
      var name := TextAt(f, "name");
      if Present(name).Some? {
        slot := slot.(name := name.value);
      }
      var arguments := TextAt(f, "arguments");
      if arguments.Some? {
        slot := slot.(arguments := slot.arguments + arguments.value);
      }
    }
  }

  class ChoiceState {
    var role: string
    var textParts: seq<string>
    var finishReason: Option<string>
    var toolCalls: Tools
    var messageExtra: Fields
    var choiceExtra: Fields

    function View(): State
      reads this
    {
      State(role, Concat(textParts), finishReason, toolCalls, messageExtra, choiceExtra)
    }

    constructor ()
      ensures View() == FRESH
    {
      role := "assistant";
      textParts := [];
      finishReason := None;
      toolCalls := map[];
      messageExtra := map[];
      choiceExtra := map[];
    }

    method AddToolCall(call: Fields)
      modifies this`toolCalls
      ensures toolCalls == WithCall(old(toolCalls), call)
    {
      var index := ToolCallIndex(call);
      if index !in toolCalls {
        toolCalls := toolCalls[index := EMPTY_SLOT];
      }
      var slot := FillSlot(toolCalls[index], call);
      toolCalls := toolCalls[index := slot];
    }

    method AddToolCalls(calls: seq<Fields>)
      modifies this`toolCalls
      ensures toolCalls == WithCalls(old(toolCalls), calls)
    {
      for i := 0 to |calls|
        invariant toolCalls == WithCalls(old(toolCalls), calls[..i])
      {
        AddToolCall(calls[i]);
        assert calls[..i + 1][..i] == calls[..i];
      }
      assert calls[..|calls|] == calls;
    }

    method Absorb(d: Delta)
      modifies this
      ensures View() == Applied(old(View()), d)
    {
      if d.role.Some? {
        role := d.role.value;
      }
      if d.content.Some? {
        textParts := textParts + [d.content.value];
        assert textParts[..|textParts| - 1] == old(textParts);
      }
      messageExtra := MergeAll(messageExtra, d.extra);
      choiceExtra := MergeAll(choiceExtra, d.choiceExtra);
      AddToolCalls(d.toolCalls);
      if d.finish.Some? && d.finish.value != "" {
        finishReason := d.finish;
      }
    }

    method ListTools() returns (tools: seq<Tagged<Slot>>)
      ensures Lists(tools, toolCalls)
    {
      var keys := SortedKeys(toolCalls.Keys);
      tools := [];
      for i := 0 to |keys|
        invariant |tools| == i
        invariant forall k | 0 <= k < i :: keys[k] in toolCalls && tools[k] == Tagged(keys[k], toolCalls[keys[k]])
      {
        assert keys[i] in Members(keys);
        tools := tools + [Tagged(keys[i], toolCalls[keys[i]])];
      }
      forall k | k in toolCalls
        ensures k in Seen(tools)
      {
        assert k in Members(keys);
        var i :| 0 <= i < |keys| && keys[i] == k;
        assert tools[i] in tools;
      }
    }

    method Report(index: int) returns (c: Choice)
      modifies this`finishReason
      ensures c.index == index && Reports(c, old(View()))
    {
      var text := Join(textParts);
      var content := None;
      if text != "" {
        content := Some(text);
      } else if |toolCalls| == 0 {
        content := Some("");
      }
      var tools := [];
      if |toolCalls| > 0 {
        tools := ListTools();
      }
      if finishReason.None? {
        finishReason := Some("stop");
      }
      var extra := choiceExtra;
      var logprobs := None;
      if "logprobs" in extra && extra["logprobs"].Object? {
        logprobs := Some(extra["logprobs"].fields);
        extra := extra - {"logprobs"};
      }
      c := Choice(index, role, content, tools, finishReason.value, messageExtra, extra, logprobs);
    }
  }

  method Join(parts: seq<string>) returns (text: string)
    ensures text == Concat(parts)
  {
    text := "";
    for i := 0 to |parts|
      invariant text == Concat(parts[..i])
    {
      text := text + parts[i];
      assert parts[..i + 1][..i] == parts[..i];
    }
    assert parts[..|parts|] == parts;
  }

  // ---- All of them ----

  /** What the states come to: for every index seen, the fold of its own deltas. */
  ghost predicate Folds(views: map<int, State>, seen: seq<Tagged<Delta>>) {
    views.Keys == Seen(seen) && forall i | i in views :: views[i] == AppliedAll(Of(i, seen))
  }

  function Started(views: map<int, State>, i: int): State {
    if i in views then views[i] else FRESH
  }

  lemma FoldsSnoc(views: map<int, State>, seen: seq<Tagged<Delta>>, x: Tagged<Delta>)
    requires Folds(views, seen)
    ensures Folds(views[x.index := Applied(Started(views, x.index), x.item)], seen + [x])
  {
    var more := views[x.index := Applied(Started(views, x.index), x.item)];
    OfSnoc(x.index, seen, x);
    forall j | j in more
      ensures more[j] == AppliedAll(Of(j, seen + [x]))
    {
      FoldsAt(views, seen, x, j);
    }
  }

  lemma FoldsAt(views: map<int, State>, seen: seq<Tagged<Delta>>, x: Tagged<Delta>, j: int)
    requires Folds(views, seen)
    ensures j == x.index ==> Applied(Started(views, j), x.item) == AppliedAll(Of(j, seen + [x]))
    ensures j != x.index && j in views ==> views[j] == AppliedAll(Of(j, seen + [x]))
  {
    OfSnoc(j, seen, x);
    OfEmpty(seen, j);
    AppliedSnoc(Of(j, seen), x.item);
  }

  lemma AppliedSnoc(ds: seq<Delta>, d: Delta)
    ensures AppliedAll(ds + [d]) == Applied(AppliedAll(ds), d)
  {
    assert (ds + [d])[..|ds + [d]| - 1] == ds;
  }

  lemma PrefixSnoc<T>(front: seq<T>, xs: seq<T>, i: nat)
    requires i < |xs|
    ensures front + xs[..i + 1] == front + xs[..i] + [xs[i]]
  {
  }

  class Collection {
    var states: map<int, ChoiceState>
    ghost var views: map<int, State>

    /** A separate object for every index seen, in the state recorded for it. */
    ghost predicate Valid()
      reads this, states.Values
    {
      states.Keys == views.Keys
      && (forall i, j | i in states && j in states && i != j :: states[i] != states[j])
      && forall i | i in states :: states[i].View() == views[i]
    }

    constructor ()
      ensures Valid() && views == map[] && states == map[]
    {
      states := map[];
      views := map[];
    }

    method EnsureState(i: int)
      requires Valid()
      modifies this
      ensures Valid() && i in states
      ensures views == old(views)[i := Started(old(views), i)]
      ensures states[i] in old(states.Values) || fresh(states[i])
      ensures forall o | o in states.Values :: o in old(states.Values) || fresh(o)
    {
      if i !in states {
        var s := new ChoiceState();
        states := states[i := s];
        views := views[i := FRESH];
      }
    }

    method AbsorbInto(i: int, d: Delta)
      requires Valid() && i in states
      modifies this`views, states[i]
      ensures Valid()
      ensures views == old(views)[i := Applied(old(views)[i], d)]
    {
      states[i].Absorb(d);
      views := views[i := Applied(views[i], d)];
    }

    method Take(choice: Tagged<Delta>)
      requires Valid()
      modifies this, states.Values
      ensures Valid()
      ensures views == old(views)[choice.index := Applied(Started(old(views), choice.index), choice.item)]
      ensures forall o | o in states.Values :: o in old(states.Values) || fresh(o)
    {
      ghost var i, d, start := choice.index, choice.item, Started(views, choice.index);
      EnsureState(choice.index);
      assert views[i] == start;
      AbsorbInto(choice.index, choice.item);
      assert views == old(views)[i := start][i := Applied(start, d)];
    }

    method TakeAll(choices: seq<Tagged<Delta>>, ghost seen: seq<Tagged<Delta>>)
      requires Valid() && Folds(views, seen)
      modifies this, states.Values
      ensures Valid() && Folds(views, seen + choices)
      ensures forall o | o in states.Values :: o in old(states.Values) || fresh(o)
    {
      assert seen + choices[..0] == seen;
      for i := 0 to |choices|
        invariant Valid() && Folds(views, seen + choices[..i])
        invariant forall o | o in states.Values :: o in old(states.Values) || fresh(o)
      {
        FoldsSnoc(views, seen + choices[..i], choices[i]);
        PrefixSnoc(seen, choices, i);
        Take(choices[i]);
      }
      assert choices[..|choices|] == choices;
    }

    method Report(ghost seen: seq<Tagged<Delta>>) returns (choices: seq<Choice>)
      requires Valid() && Folds(views, seen)
      modifies this, states.Values
      ensures Collected(choices, seen)
    {
      SeenEmpty(seen);
      if |states| == 0 {
        EnsureState(0);
      }
      var keys := SortedKeys(states.Keys);
      ghost var reported := views;
      choices := ReportAll(keys);
      CollectedKeys(choices, keys, reported, seen);
    }

    method ReportAll(keys: seq<int>) returns (choices: seq<Choice>)
      requires Valid() && Increasing(keys) && Members(keys) == states.Keys
      modifies states.Values
      ensures ReportsEach(choices, keys, old(views))
    {
      choices := [];
      for i := 0 to |keys|
        invariant ReportsEach(choices, keys[..i], old(views))
        invariant forall k | i <= k < |keys| :: keys[k] in Members(keys)
        invariant forall k | i <= k < |keys| :: states[keys[k]].View() == views[keys[k]]
      {
        var k := keys[i];
        var s := states[k];
        var c := s.Report(k);
        ReportsSnoc(choices, keys, i, c, old(views));
        choices := choices + [c];
      }
      assert keys[..|keys|] == keys;
    }
  }

  lemma ReportsSnoc(choices: seq<Choice>, keys: seq<int>, i: nat, c: Choice, views: map<int, State>)
    requires i < |keys| && ReportsEach(choices, keys[..i], views)
    requires keys[i] in views && c.index == keys[i] && Reports(c, views[keys[i]])
    ensures ReportsEach(choices + [c], keys[..i + 1], views)
  {
  }

  ghost predicate ReportsEach(choices: seq<Choice>, keys: seq<int>, views: map<int, State>) {
    |choices| == |keys|
    && forall k | 0 <= k < |keys| ::
      choices[k].index == keys[k] && keys[k] in views && Reports(choices[k], views[keys[k]])
  }

  lemma ReportedKeys(choices: seq<Choice>, keys: seq<int>, views: map<int, State>)
    requires ReportsEach(choices, keys, views)
    ensures (set c | c in choices :: c.index) == Members(keys)
    ensures forall c | c in choices :: c.index in views && Reports(c, views[c.index])
  {
    var found := set c | c in choices :: c.index;
    forall k | k in Members(keys)
      ensures k in found
    {
      var i :| 0 <= i < |keys| && keys[i] == k;
      assert choices[i] in choices;
    }
    forall c | c in choices
      ensures c.index in Members(keys) && c.index in views && Reports(c, views[c.index])
    {
      var i :| 0 <= i < |choices| && choices[i] == c;
      assert keys[i] in keys;
    }
    assert Members(keys) <= found;
    assert found <= Members(keys);
  }

  lemma CollectedKeys(choices: seq<Choice>, keys: seq<int>, views: map<int, State>, ds: seq<Tagged<Delta>>)
    requires Increasing(keys) && Members(keys) == views.Keys && ReportsEach(choices, keys, views)
    requires if ds == [] then views == map[0 := FRESH] else Folds(views, ds)
    ensures Collected(choices, ds)
  {
    ReportedKeys(choices, keys, views);
  }

  /** What one chunk makes of the envelope. */
  method Stamp(r: Completion, chunk: Chunk, ghost before: seq<Chunk>) returns (s: Completion)
    requires Envelope(r, before)
    ensures Envelope(s, before + [chunk])
  {
    EnvelopeSnoc(before, chunk);
    s := r.(extra := r.extra + chunk.extra);
    if chunk.id != "" {
      s := s.(id := chunk.id);
    }
    if chunk.created != 0 {
      s := s.(created := chunk.created);
    }
    if chunk.model != "" {
      s := s.(model := chunk.model);
    }
    if chunk.usage.Some? {
      s := s.(usage := chunk.usage);
    }
  }

  /** Every choice index seen is reported once, in order, from the deltas that carried it; a blank stream is one empty choice. */
  method CollectCompletion(chunks: seq<Chunk>, metadataOf: seq<Chunk> -> Option<Json>) returns (r: Completion)
    ensures Collected(r.choices, Deltas(chunks))
    ensures Envelope(r.(extra := ExtraOf(chunks)), chunks)
    ensures r.extra == if chunks == [] then map[] else WithMetadata(ExtraOf(chunks), metadataOf(chunks))
  {
    r := Completion("", 0, "", None, map[], []);
    if |chunks| == 0 {
      r := r.(choices := [Choice(0, "assistant", Some(""), [], "stop", map[], map[], None)]);
      return;
    }
    var metadata := metadataOf(chunks);
    var collection := new Collection();
    for i := 0 to |chunks|
      invariant fresh(collection) && fresh(collection.states.Values)
      invariant collection.Valid() && Folds(collection.views, Deltas(chunks[..i]))
      invariant Envelope(r, chunks[..i])
    {
      DeltasSnoc(chunks, i);
      r := Stamp(r, chunks[i], chunks[..i]);
      collection.TakeAll(chunks[i].choices, Deltas(chunks[..i]));
    }
    assert chunks[..|chunks|] == chunks;
    var choices := collection.Report(Deltas(chunks));
    r := r.(choices := choices, extra := WithMetadata(r.extra, metadata));
  }

  lemma DeltasSnoc(chunks: seq<Chunk>, i: nat)
    requires i < |chunks|
    ensures chunks[..i + 1] == chunks[..i] + [chunks[i]]
    ensures Deltas(chunks[..i + 1]) == Deltas(chunks[..i]) + chunks[i].choices
  {
    assert chunks[..i + 1][..i] == chunks[..i];
  }
}
