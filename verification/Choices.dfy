// What a stream of chat deltas means: for each choice, a fold over that
// choice's deltas alone, and what the fold comes to field by field.
module Choices {
  import opened Options
  import opened Json

  /** Something that arrived for one index. */
  datatype Tagged<+T> = Tagged(index: int, item: T)

  function Of<T>(index: int, xs: seq<Tagged<T>>): seq<T> {
    if xs == [] then []
    else
      var front := Of(index, xs[..|xs| - 1]);
      if xs[|xs| - 1].index == index then front + [xs[|xs| - 1].item] else front
  }

  ghost function Seen<T>(xs: seq<Tagged<T>>): set<int> {
    set x | x in xs :: x.index
  }

  /** The last value that arrived, if any did. */
  function Latest<T>(xs: seq<Option<T>>): (r: Option<T>)
    ensures r.Some? <==> exists i :: 0 <= i < |xs| && xs[i].Some?
    ensures r.Some? ==> r in xs
  {
    if xs == [] then None
    else if xs[|xs| - 1].Some? then xs[|xs| - 1]
    else Latest(xs[..|xs| - 1])
  }

  function Concat(parts: seq<string>): string {
    if parts == [] then "" else Concat(parts[..|parts| - 1]) + parts[|parts| - 1]
  }

  function OrElse<T>(o: Option<T>, default: T): T {
    if o.Some? then o.value else default
  }

  /** A pointer to an empty string, or none, says nothing. */
  function Present(s: Option<string>): Option<string> {
    if s == Some("") then None else s
  }

  // ---- Tool calls ----

  /** Go's conversion of a JSON number to an integer. */
  function Truncate(r: real): int {
    if r >= 0.0 then r.Floor else -((-r).Floor)
  }

  function ToolCallIndex(call: Fields): int {
    if "index" in call && call["index"].Number? then Truncate(call["index"].number) else 0
  }

  function TextAt(fields: Fields, key: string): Option<string> {
    if key in fields && fields[key].Text? then Some(fields[key].text) else None
  }

  function FunctionOf(call: Fields): Fields {
    if "function" in call && call["function"].Object? then call["function"].fields else map[]
  }

  datatype Slot = Slot(id: Option<string>, kind: string, name: string, arguments: string)

  const EMPTY_SLOT := Slot(None, "function", "", "")

  function Filled(slot: Slot, call: Fields): Slot {
    var id := Present(TextAt(call, "id"));
    var f := FunctionOf(call);
    Slot(
      if id.Some? then id else slot.id,
      OrElse(Present(TextAt(call, "type")), slot.kind),
      OrElse(Present(TextAt(f, "name")), slot.name),
      slot.arguments + OrElse(TextAt(f, "arguments"), ""))
  }

  function FilledAll(calls: seq<Fields>): Slot {
    if calls == [] then EMPTY_SLOT else Filled(FilledAll(calls[..|calls| - 1]), calls[|calls| - 1])
  }

  type Tools = map<int, Slot>

  function WithCall(tools: Tools, call: Fields): Tools {
    var i := ToolCallIndex(call);
    tools[i := Filled(if i in tools then tools[i] else EMPTY_SLOT, call)]
  }

  function WithCalls(tools: Tools, calls: seq<Fields>): Tools {
    if calls == [] then tools else WithCall(WithCalls(tools, calls[..|calls| - 1]), calls[|calls| - 1])
  }

  function Indexed(calls: seq<Fields>): (r: seq<Tagged<Fields>>)
    ensures |r| == |calls|
  {
    seq(|calls|, i requires 0 <= i < |calls| => Tagged(ToolCallIndex(calls[i]), calls[i]))
  }

  // ---- One choice ----

  datatype Delta = Delta(
    role: Option<string>,
    content: Option<string>,
    toolCalls: seq<Fields>,
    extra: Fields,
    choiceExtra: Fields,
    finish: Option<string>)

  datatype State = State(
    role: string,
    text: string,
    finish: Option<string>,
    tools: Tools,
    messageExtra: Fields,
    choiceExtra: Fields)

  const FRESH := State("assistant", "", None, map[], map[], map[])

  function Applied(s: State, d: Delta): State {
    State(
      OrElse(d.role, s.role),
      s.text + OrElse(d.content, ""),
      if Present(d.finish).Some? then d.finish else s.finish,
      WithCalls(s.tools, d.toolCalls),
      MergedFields(s.messageExtra, d.extra),
      MergedFields(s.choiceExtra, d.choiceExtra))
  }

  function AppliedAll(ds: seq<Delta>): State {
    if ds == [] then FRESH else Applied(AppliedAll(ds[..|ds| - 1]), ds[|ds| - 1])
  }

  datatype Choice = Choice(
    index: int,
    role: string,
    content: Option<string>,
    tools: seq<Tagged<Slot>>,
    finish: string,
    extra: Fields,
    choiceExtra: Fields,
    logprobs: Option<Fields>)

  ghost predicate Ascending<T>(xs: seq<Tagged<T>>) {
    forall i, j | 0 <= i < j < |xs| :: xs[i].index < xs[j].index
  }

  /** The tools as the message lists them: every one once, in order of index. */
  ghost predicate Lists<T>(xs: seq<Tagged<T>>, m: map<int, T>) {
    Ascending(xs) && Seen(xs) == m.Keys && forall x | x in xs :: x.index in m && m[x.index] == x.item
  }

  function Logprobs(extra: Fields): Option<Fields> {
    if "logprobs" in extra && extra["logprobs"].Object? then Some(extra["logprobs"].fields) else None
  }

  /** What is reported for a choice whose deltas have come to `s`. */
  ghost predicate Reports(c: Choice, s: State) {
    c.role == s.role
    && c.content == (if s.text == "" && s.tools != map[] then None else Some(s.text))
    && Lists(c.tools, s.tools)
    && c.finish == OrElse(s.finish, "stop")
    && c.extra == s.messageExtra
    && c.logprobs == Logprobs(s.choiceExtra)
    && c.choiceExtra == (if c.logprobs.Some? then s.choiceExtra - {"logprobs"} else s.choiceExtra)
  }

  // ---- Field by field ----

  function Roles(ds: seq<Delta>): (r: seq<Option<string>>)
    ensures |r| == |ds|
  {
    seq(|ds|, i requires 0 <= i < |ds| => ds[i].role)
  }

  function Finishes(ds: seq<Delta>): (r: seq<Option<string>>)
    ensures |r| == |ds|
  {
    seq(|ds|, i requires 0 <= i < |ds| => Present(ds[i].finish))
  }

  function Contents(ds: seq<Delta>): (r: seq<string>)
    ensures |r| == |ds|
  {
    seq(|ds|, i requires 0 <= i < |ds| => OrElse(ds[i].content, ""))
  }

  function Calls(ds: seq<Delta>): seq<Fields> {
    if ds == [] then [] else Calls(ds[..|ds| - 1]) + ds[|ds| - 1].toolCalls
  }

  function Arguments(calls: seq<Fields>): (r: seq<string>)
    ensures |r| == |calls|
  {
    seq(|calls|, i requires 0 <= i < |calls| => OrElse(TextAt(FunctionOf(calls[i]), "arguments"), ""))
  }

  function Names(calls: seq<Fields>): (r: seq<Option<string>>)
    ensures |r| == |calls|
  {
    seq(|calls|, i requires 0 <= i < |calls| => Present(TextAt(FunctionOf(calls[i]), "name")))
  }

  function Ids(calls: seq<Fields>): (r: seq<Option<string>>)
    ensures |r| == |calls|
  {
    seq(|calls|, i requires 0 <= i < |calls| => Present(TextAt(calls[i], "id")))
  }

  function Kinds(calls: seq<Fields>): (r: seq<Option<string>>)
    ensures |r| == |calls|
  {
    seq(|calls|, i requires 0 <= i < |calls| => Present(TextAt(calls[i], "type")))
  }

  function Extras(ds: seq<Delta>): (r: seq<Fields>)
    ensures |r| == |ds|
  {
    seq(|ds|, i requires 0 <= i < |ds| => ds[i].extra)
  }

  function ChoiceExtras(ds: seq<Delta>): (r: seq<Fields>)
    ensures |r| == |ds|
  {
    seq(|ds|, i requires 0 <= i < |ds| => ds[i].choiceExtra)
  }

  /** One key's values, merged in order. */
  function MergedKey(extras: seq<Fields>, key: string): Option<Json> {
    if extras == [] then None
    else
      var before, last := MergedKey(extras[..|extras| - 1], key), extras[|extras| - 1];
      if key in last then MergedValue(before, last[key]) else before
  }

  /** The last role and finish reason, all the text in order, and each extra field merged on its own. */
  lemma {:induction false} StateParts(ds: seq<Delta>)
    ensures AppliedAll(ds).role == OrElse(Latest(Roles(ds)), "assistant")
    ensures AppliedAll(ds).finish == Latest(Finishes(ds))
    ensures AppliedAll(ds).text == Concat(Contents(ds))
  {
    if ds != [] {
      var front := ds[..|ds| - 1];
      StateParts(front);
      assert Roles(ds)[..|ds| - 1] == Roles(front);
      assert Finishes(ds)[..|ds| - 1] == Finishes(front);
      assert Contents(ds)[..|ds| - 1] == Contents(front);
    }
  }

  lemma {:induction false} ExtraParts(ds: seq<Delta>, key: string)
    ensures Lookup(AppliedAll(ds).messageExtra, key) == MergedKey(Extras(ds), key)
    ensures Lookup(AppliedAll(ds).choiceExtra, key) == MergedKey(ChoiceExtras(ds), key)
  {
    if ds != [] {
      var front, last := ds[..|ds| - 1], ds[|ds| - 1];
      ExtraParts(front, key);
      assert Extras(ds)[..|ds| - 1] == Extras(front);
      assert ChoiceExtras(ds)[..|ds| - 1] == ChoiceExtras(front);
      MergedAt(AppliedAll(front).messageExtra, last.extra, key);
      MergedAt(AppliedAll(front).choiceExtra, last.choiceExtra, key);
    }
  }

  lemma {:induction false} CallsTogether(ds: seq<Delta>)
    ensures AppliedAll(ds).tools == WithCalls(map[], Calls(ds))
  {
    if ds != [] {
      CallsTogether(ds[..|ds| - 1]);
      WithCallsAppend(map[], Calls(ds[..|ds| - 1]), ds[|ds| - 1].toolCalls);
    }
  }

  lemma {:induction false} WithCallsAppend(tools: Tools, a: seq<Fields>, b: seq<Fields>)
    ensures WithCalls(tools, a + b) == WithCalls(WithCalls(tools, a), b)
  {
    if b == [] {
      assert a + b == a;
    } else {
      WithCallsAppend(tools, a, b[..|b| - 1]);
      assert (a + b)[..|a + b| - 1] == a + b[..|b| - 1];
    }
  }

  /** Each tool is the fold of the calls with its index, and there is one for every index called. */
  lemma {:induction false} ToolsByIndex(calls: seq<Fields>, i: int)
    ensures var tools := WithCalls(map[], calls);
      (i in tools <==> i in Seen(Indexed(calls)))
      && (i in tools <==> Of(i, Indexed(calls)) != [])
      && (if i in tools then tools[i] else EMPTY_SLOT) == FilledAll(Of(i, Indexed(calls)))
  {
    if calls != [] {
      var front, last := calls[..|calls| - 1], calls[|calls| - 1];
      ToolsByIndex(front, i);
      assert Indexed(calls) == Indexed(front) + [Tagged(ToolCallIndex(last), last)];
      OfSnoc(i, Indexed(front), Tagged(ToolCallIndex(last), last));
    }
  }

  lemma OfSnoc<T>(i: int, xs: seq<Tagged<T>>, x: Tagged<T>)
    ensures Of(i, xs + [x]) == if x.index == i then Of(i, xs) + [x.item] else Of(i, xs)
    ensures Seen(xs + [x]) == Seen(xs) + {x.index}
  {
    assert (xs + [x])[..|xs + [x]| - 1] == xs;
    forall y | y in Seen(xs) + {x.index}
      ensures y in Seen(xs + [x])
    {
      if y in Seen(xs) {
        var z :| z in xs && z.index == y;
        assert z in xs + [x];
      } else {
        assert x in xs + [x];
      }
    }
  }

  lemma {:induction false} SlotArguments(calls: seq<Fields>)
    ensures FilledAll(calls).arguments == Concat(Arguments(calls))
  {
    if calls != [] {
      var front := calls[..|calls| - 1];
      SlotArguments(front);
      assert Arguments(calls)[..|calls| - 1] == Arguments(front);
    }
  }

  lemma {:induction false} SlotNames(calls: seq<Fields>)
    ensures FilledAll(calls).name == OrElse(Latest(Names(calls)), "")
    ensures FilledAll(calls).id == Latest(Ids(calls))
  {
    if calls != [] {
      var front := calls[..|calls| - 1];
      SlotNames(front);
      assert Names(calls)[..|calls| - 1] == Names(front);
      assert Ids(calls)[..|calls| - 1] == Ids(front);
    }
  }

  lemma {:induction false} SlotKind(calls: seq<Fields>)
    ensures FilledAll(calls).kind == OrElse(Latest(Kinds(calls)), "function")
  {
    if calls != [] {
      var front := calls[..|calls| - 1];
      SlotKind(front);
      assert Kinds(calls)[..|calls| - 1] == Kinds(front);
    }
  }

  /** The tool a message lists under an index holds that index's fragments and nothing else. */
  lemma ToolParts(ds: seq<Delta>, i: int)
    ensures var calls, tools := Of(i, Indexed(Calls(ds))), AppliedAll(ds).tools;
      (i in tools <==> calls != [])
      && (i in tools ==>
        tools[i].arguments == Concat(Arguments(calls))
        && tools[i].name == OrElse(Latest(Names(calls)), "")
        && tools[i].id == Latest(Ids(calls))
        && tools[i].kind == OrElse(Latest(Kinds(calls)), "function"))
  {
    CallsTogether(ds);
    ToolsByIndex(Calls(ds), i);
    var calls := Of(i, Indexed(Calls(ds)));
    SlotArguments(calls);
    SlotNames(calls);
    SlotKind(calls);
  }

  // ---- All the choices ----

  ghost function Indexes<T>(ds: seq<Tagged<T>>): set<int> {
    if ds == [] then {0} else Seen(ds)
  }

  /** One choice for every index seen (or just 0), in order of index, each from its own deltas. */
  ghost predicate Collected(choices: seq<Choice>, ds: seq<Tagged<Delta>>) {
    (forall i, j | 0 <= i < j < |choices| :: choices[i].index < choices[j].index)
    && (set c | c in choices :: c.index) == Indexes(ds)
    && forall c | c in choices :: Reports(c, AppliedAll(Of(c.index, ds)))
  }

  lemma OfEmpty<T>(ds: seq<Tagged<T>>, i: int)
    ensures Of(i, ds) == [] <==> i !in Seen(ds)
    decreases |ds|
  {
    if ds != [] {
      OfEmpty(ds[..|ds| - 1], i);
      assert ds == ds[..|ds| - 1] + [ds[|ds| - 1]];
      OfSnoc(i, ds[..|ds| - 1], ds[|ds| - 1]);
    }
  }

  ghost predicate Alike<T>(a: seq<Tagged<T>>, b: seq<Tagged<T>>) {
    Ascending(a) && Ascending(b) && Seen(a) == Seen(b)
    && forall i, j | 0 <= i < |a| && 0 <= j < |b| && a[i].index == b[j].index :: a[i] == b[j]
  }

  lemma LastAlike<T>(a: seq<Tagged<T>>, b: seq<Tagged<T>>)
    requires Alike(a, b) && a != []
    ensures b != [] && a[|a| - 1] == b[|b| - 1]
  {
    SeenEmpty(a);
    SeenEmpty(b);
    LastIsMax(a);
    LastIsMax(b);
  }

  lemma SeenEmpty<T>(a: seq<Tagged<T>>)
    ensures Seen(a) == {} <==> a == []
  {
    if a != [] {
      assert a[0].index in Seen(a);
    }
  }

  /** Two ascending lists of the same things are the same list. */
  lemma {:induction false} ListedOnce<T>(a: seq<Tagged<T>>, b: seq<Tagged<T>>)
    requires Alike(a, b)
    ensures a == b
    decreases |a|
  {
    if a == [] {
      SeenEmpty(a);
      SeenEmpty(b);
    } else {
      LastAlike(a, b);
      var m, n := |a| - 1, |b| - 1;
      SeenFront(a);
      SeenFront(b);
      FrontAscending(a);
      FrontAscending(b);
      ListedOnce(a[..m], b[..n]);
      assert a == a[..m] + [a[m]] && b == b[..n] + [b[n]];
    }
  }

  lemma FrontAscending<T>(a: seq<Tagged<T>>)
    requires Ascending(a) && a != []
    ensures Ascending(a[..|a| - 1])
  {
  }

  lemma LastIsMax<T>(a: seq<Tagged<T>>)
    requires Ascending(a) && a != []
    ensures a[|a| - 1].index in Seen(a) && forall i | i in Seen(a) :: i <= a[|a| - 1].index
  {
    forall i | i in Seen(a)
      ensures i <= a[|a| - 1].index
    {
      var x :| x in a && x.index == i;
      var k :| 0 <= k < |a| && a[k] == x;
    }
  }

  lemma SeenFront<T>(a: seq<Tagged<T>>)
    requires Ascending(a) && a != []
    ensures Seen(a[..|a| - 1]) == Seen(a) - {a[|a| - 1].index}
  {
    var m := |a| - 1;
    forall i | i in Seen(a) && i != a[m].index
      ensures i in Seen(a[..m])
    {
      var x :| x in a && x.index == i;
      var k :| 0 <= k < |a| && a[k] == x;
      assert a[..m][k] == x;
    }
  }

  lemma ListsOnce<T>(a: seq<Tagged<T>>, b: seq<Tagged<T>>, m: map<int, T>)
    requires Lists(a, m) && Lists(b, m)
    ensures a == b
  {
    ListedOnce(a, b);
  }

  function TaggedChoices(choices: seq<Choice>): (r: seq<Tagged<Choice>>)
    ensures |r| == |choices|
    ensures forall i | 0 <= i < |choices| :: r[i] == Tagged(choices[i].index, choices[i])
  {
    seq(|choices|, i requires 0 <= i < |choices| => Tagged(choices[i].index, choices[i]))
  }

  /** How the choices of a stream interleave does not show: only each one's own deltas do. */
  lemma InterleavingFree(a: seq<Choice>, ds: seq<Tagged<Delta>>, b: seq<Choice>, es: seq<Tagged<Delta>>)
    requires Collected(a, ds) && Collected(b, es)
    requires (ds == []) == (es == []) && forall i :: Of(i, ds) == Of(i, es)
    ensures a == b
  {
    var x, y := TaggedChoices(a), TaggedChoices(b);
    SeenChoices(a);
    SeenChoices(b);
    assert Seen(ds) == Seen(es) by {
      forall i
        ensures i in Seen(ds) <==> i in Seen(es)
      {
        OfEmpty(ds, i);
        OfEmpty(es, i);
      }
    }
    forall p, q | p in x && q in y && p.index == q.index
      ensures p == q
    {
      ListsOnce(p.item.tools, q.item.tools, AppliedAll(Of(p.index, ds)).tools);
    }
    ListedOnce(x, y);
    forall i | 0 <= i < |a|
      ensures a[i] == b[i]
    {
      assert x[i] == y[i];
    }
  }

  lemma {:induction false} OfAppend<T>(i: int, xs: seq<Tagged<T>>, ys: seq<Tagged<T>>)
    ensures Of(i, xs + ys) == Of(i, xs) + Of(i, ys)
    decreases |ys|
  {
    if ys == [] {
      assert xs + ys == xs;
    } else {
      var m := |ys| - 1;
      OfAppend(i, xs, ys[..m]);
      assert (xs + ys)[..|xs + ys| - 1] == xs + ys[..m];
    }
  }

  /** Deltas of different choices that arrive the other way round collect to the same thing. */
  lemma SwapNeighbours(
    xs: seq<Tagged<Delta>>, p: Tagged<Delta>, q: Tagged<Delta>, ys: seq<Tagged<Delta>>,
    a: seq<Choice>, b: seq<Choice>)
    requires p.index != q.index
    requires Collected(a, xs + [p] + [q] + ys) && Collected(b, xs + [q] + [p] + ys)
    ensures a == b
  {
    forall i
      ensures Of(i, xs + [p] + [q] + ys) == Of(i, xs + [q] + [p] + ys)
    {
      OfAppend(i, xs + [p] + [q], ys);
      OfAppend(i, xs + [q] + [p], ys);
      OfSnoc(i, xs, p);
      OfSnoc(i, xs + [p], q);
      OfSnoc(i, xs, q);
      OfSnoc(i, xs + [q], p);
    }
    InterleavingFree(a, xs + [p] + [q] + ys, b, xs + [q] + [p] + ys);
  }

  lemma SeenChoices(choices: seq<Choice>)
    ensures Seen(TaggedChoices(choices)) == set c | c in choices :: c.index
    ensures forall x | x in TaggedChoices(choices) :: x.item in choices && x.item.index == x.index
  {
    var x := TaggedChoices(choices);
    forall i | i in Seen(x)
      ensures i in set c | c in choices :: c.index
    {
      var t :| t in x && t.index == i;
      assert t.item in choices;
    }
    forall c | c in choices
      ensures c.index in Seen(x)
    {
      var k :| 0 <= k < |choices| && choices[k] == c;
      assert x[k] in x;
    }
  }
}
