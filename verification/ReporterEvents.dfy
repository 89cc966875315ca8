// The event buffer: its byte count and bound, and which arrivals it still holds.
module ReporterEvents {
  import opened Options
  import opened ReporterState

  ghost predicate Ordered(events: seq<Event>) {
    forall i, j | 0 <= i < j < |events| :: events[i].id < events[j].id
  }

  /** Each event was an arrival, and is numbered by when it arrived. */
  ghost predicate Arrived(events: seq<Event>, arrivals: seq<Event>) {
    && (forall i | 0 <= i < |arrivals| :: arrivals[i].id == i)
    && (forall e | e in events :: e.id < |arrivals| && arrivals[e.id] == e)
  }

  function OfKind(events: seq<Event>, success: bool): seq<Event> {
    if events == [] then []
    else (if events[0].Success() == success then [events[0]] else []) + OfKind(events[1..], success)
  }

  /** The buffered events of each kind are the latest arrivals of that kind. */
  ghost predicate Latest(events: seq<Event>, arrivals: seq<Event>) {
    forall success: bool :: SuffixOf(OfKind(events, success), OfKind(arrivals, success))
  }

  ghost predicate BufferOk(events: seq<Event>, size: int, arrivals: seq<Event>) {
    && size == Bytes(events)
    && |events| <= MAX_EVENTS
    && Ordered(events)
    && Arrived(events, arrivals)
    && Latest(events, arrivals)
  }

  ghost predicate EventsOk(s: Reporter) {
    BufferOk(s.events, s.eventsSize, s.log.arrivals)
  }

  /** The events in sent are at the front of the buffer. */
  ghost predicate AtFront(events: seq<Event>, sent: seq<Event>) {
    forall i, j | 0 <= i < j < |events| :: events[j] in sent ==> events[i] in sent
  }

  lemma {:induction false} BytesConcat(a: seq<Event>, b: seq<Event>)
    ensures Bytes(a + b) == Bytes(a) + Bytes(b)
  {
    if a == [] {
      assert a + b == b;
    } else {
      assert (a + b)[1..] == a[1..] + b;
      BytesConcat(a[1..], b);
    }
  }

  lemma {:induction false} KindConcat(a: seq<Event>, b: seq<Event>, success: bool)
    ensures OfKind(a + b, success) == OfKind(a, success) + OfKind(b, success)
  {
    if a == [] {
      assert a + b == b;
    } else {
      var tail := a[1..];
      var head := if a[0].Success() == success then [a[0]] else [];
      assert (a + b)[1..] == tail + b;
      KindConcat(tail, b, success);
      assert head + (OfKind(tail, success) + OfKind(b, success)) == (head + OfKind(tail, success)) + OfKind(b, success);
    }
  }

  lemma KindOne(e: Event, success: bool)
    ensures OfKind([e], success) == if e.Success() == success then [e] else []
  {
    assert [e][1..] == [];
  }

  lemma {:induction false} NoneOfKind(events: seq<Event>, success: bool)
    requires forall i | 0 <= i < |events| :: events[i].Success() != success
    ensures OfKind(events, success) == []
  {
    if events != [] {
      NoneOfKind(events[1..], success);
    }
  }

  /** Taking out the first event of its kind drops the head of that kind and nothing else. */
  lemma KindWithout(events: seq<Event>, i: nat, success: bool)
    requires i < |events|
    requires forall j | 0 <= j < i :: events[j].Success() != events[i].Success()
    ensures events[i].Success() == success ==> OfKind(events, success) != []
    ensures OfKind(events[..i] + events[i + 1..], success)
      == if events[i].Success() == success then OfKind(events, success)[1..] else OfKind(events, success)
  {
    assert events == events[..i] + ([events[i]] + events[i + 1..]);
    KindConcat(events[..i], [events[i]] + events[i + 1..], success);
    KindConcat([events[i]], events[i + 1..], success);
    KindConcat(events[..i], events[i + 1..], success);
    KindOne(events[i], success);
    if events[i].Success() == success {
      NoneOfKind(events[..i], success);
    }
  }

  lemma {:induction false} KindSuffix(events: seq<Event>, n: nat, success: bool)
    requires n <= |events|
    ensures SuffixOf(OfKind(events[n..], success), OfKind(events, success))
  {
    assert events == events[..n] + events[n..];
    KindConcat(events[..n], events[n..], success);
  }

  lemma BytesWithout(events: seq<Event>, i: nat)
    requires i < |events|
    ensures Bytes(events[..i] + events[i + 1..]) == Bytes(events) - events[i].bytes
  {
    assert events == events[..i] + ([events[i]] + events[i + 1..]);
    BytesConcat(events[..i], [events[i]] + events[i + 1..]);
    BytesConcat([events[i]], events[i + 1..]);
    BytesConcat(events[..i], events[i + 1..]);
    assert [events[i]][1..] == [];
  }

  lemma LatestWithout(events: seq<Event>, arrivals: seq<Event>, i: nat)
    requires i < |events| && Latest(events, arrivals)
    requires forall j | 0 <= j < i :: events[j].Success() != events[i].Success()
    ensures Latest(events[..i] + events[i + 1..], arrivals)
  {
    var kept := events[..i] + events[i + 1..];
    forall success: bool
      ensures SuffixOf(OfKind(kept, success), OfKind(arrivals, success))
    {
      KindWithout(events, i, success);
      assert SuffixOf(OfKind(events, success), OfKind(arrivals, success));
    }
  }

  lemma FrontWithout(events: seq<Event>, i: nat, sent: seq<Event>)
    requires i < |events|
    ensures AtFront(events, sent) ==> AtFront(events[..i] + events[i + 1..], sent)
    ensures Ordered(events) ==> Ordered(events[..i] + events[i + 1..])
  {
    var kept := events[..i] + events[i + 1..];
    assert forall j | 0 <= j < |kept| :: kept[j] == events[if j < i then j else j + 1];
  }

  lemma ArrivedWithout(events: seq<Event>, arrivals: seq<Event>, i: nat)
    requires i < |events| && Arrived(events, arrivals)
    ensures Arrived(events[..i] + events[i + 1..], arrivals)
  {
  }

  lemma WithoutOk(events: seq<Event>, size: int, arrivals: seq<Event>, i: nat, sent: seq<Event>)
    requires BufferOk(events, size, arrivals) && i < |events|
    requires forall j | 0 <= j < i :: events[j].Success() != events[i].Success()
    ensures var kept := events[..i] + events[i + 1..];
      && BufferOk(kept, size - events[i].bytes, arrivals)
      && |kept| == |events| - 1
      && (AtFront(events, sent) ==> AtFront(kept, sent))
  {
    BytesWithout(events, i);
    LatestWithout(events, arrivals, i);
    ArrivedWithout(events, arrivals, i);
    FrontWithout(events, i, sent);
  }

  lemma LatestSnoc(events: seq<Event>, arrivals: seq<Event>, e: Event)
    requires Latest(events, arrivals)
    ensures Latest(events + [e], arrivals + [e])
  {
    forall success: bool
      ensures SuffixOf(OfKind(events + [e], success), OfKind(arrivals + [e], success))
    {
      KindConcat(events, [e], success);
      KindConcat(arrivals, [e], success);
      KindOne(e, success);
      SuffixMore(OfKind(events, success), OfKind(arrivals, success), OfKind([e], success));
    }
  }

  lemma ArrivedSnoc(events: seq<Event>, arrivals: seq<Event>, e: Event)
    requires Arrived(events, arrivals) && Ordered(events) && e.id == |arrivals|
    ensures Arrived(events + [e], arrivals + [e]) && Ordered(events + [e])
  {
    assert forall i | 0 <= i < |events| :: events[i] in events;
  }

  lemma SnocOk(events: seq<Event>, size: int, arrivals: seq<Event>, e: Event, sent: seq<Event>)
    requires BufferOk(events, size, arrivals) && |events| < MAX_EVENTS
    requires e.id == |arrivals|
    requires forall x | x in sent :: x.id < |arrivals|
    ensures BufferOk(events + [e], size + e.bytes, arrivals + [e])
    ensures AtFront(events, sent) ==> AtFront(events + [e], sent)
  {
    BytesConcat(events, [e]);
    assert [e][1..] == [];
    LatestSnoc(events, arrivals, e);
    ArrivedSnoc(events, arrivals, e);
    assert e !in sent;
  }

  lemma DropEventOk(s: Reporter, sent: seq<Event>)
    requires EventsOk(s) && s.events != []
    ensures EventsOk(DropEvent(s)) && |DropEvent(s).events| < |s.events|
    ensures DropEvent(s).log.arrivals == s.log.arrivals
    ensures AtFront(s.events, sent) ==> AtFront(DropEvent(s).events, sent)
  {
    WithoutOk(s.events, s.eventsSize, s.log.arrivals, Victim(s.events), sent);
  }

  lemma PushOk(s: Reporter, e: Event, sent: seq<Event>)
    requires EventsOk(s) && |s.events| < MAX_EVENTS && e.id == |s.log.arrivals|
    requires forall x | x in sent :: x.id < |s.log.arrivals|
    ensures EventsOk(Push(s, e))
    ensures AtFront(s.events, sent) ==> AtFront(Push(s, e).events, sent)
  {
    SnocOk(s.events, s.eventsSize, s.log.arrivals, e, sent);
    var t := Push(s, e);
    BufferAlike(s.events + [e], s.eventsSize + e.bytes, s.log.arrivals + [e], t);
  }

  lemma BufferAlike(events: seq<Event>, size: int, arrivals: seq<Event>, t: Reporter)
    requires BufferOk(events, size, arrivals)
    requires t.events == events && t.eventsSize == size && t.log.arrivals == arrivals
    ensures EventsOk(t)
  {
  }

  /** Evicting a full buffer's oldest success, or its oldest event, and buffering one more keeps all of it. */
  lemma AppendEventOk(s: Reporter, e: Event, sent: seq<Event>)
    requires EventsOk(s) && e.id == |s.log.arrivals|
    requires forall x | x in sent :: x.id < |s.log.arrivals|
    ensures EventsOk(AppendEvent(s, e))
    ensures AtFront(s.events, sent) ==> AtFront(AppendEvent(s, e).events, sent)
  {
    if |s.events| >= MAX_EVENTS {
      DropEventOk(s, sent);
      PushOk(DropEvent(s), e, sent);
    } else {
      PushOk(s, e, sent);
    }
  }

  lemma FrontTail(events: seq<Event>, sent: seq<Event>)
    requires events != [] && AtFront(events, sent)
    ensures AtFront(events[1..], sent)
  {
    assert forall i | 0 <= i < |events[1..]| :: events[1..][i] == events[i + 1];
  }

  /** Removing events that are at the front leaves a suffix of the buffer. */
  lemma {:induction false} KeepSuffix(events: seq<Event>, sent: seq<Event>) returns (n: nat)
    requires AtFront(events, sent)
    ensures n <= |events| && KeepEvents(events, sent) == events[n..]
    ensures forall i | 0 <= i < |events| :: events[i] in sent <==> i < n
  {
    if events == [] {
      n := 0;
    } else if events[0] in sent {
      var tail := events[1..];
      FrontTail(events, sent);
      var k := KeepSuffix(tail, sent);
      n := k + 1;
      assert [] + KeepEvents(tail, sent) == KeepEvents(tail, sent);
      assert events[n..] == tail[k..];
      assert forall i | 1 <= i < |events| :: events[i] == tail[i - 1];
    } else {
      n := 0;
      KeepAll(events, sent);
    }
  }

  lemma {:induction false} KeepAll(events: seq<Event>, sent: seq<Event>)
    requires forall i | 0 <= i < |events| :: events[i] !in sent
    ensures KeepEvents(events, sent) == events
  {
    if events != [] {
      KeepAll(events[1..], sent);
    }
  }

  lemma SuffixOk(events: seq<Event>, size: int, arrivals: seq<Event>, n: nat)
    requires BufferOk(events, size, arrivals) && n <= |events|
    ensures BufferOk(events[n..], Bytes(events[n..]), arrivals)
  {
    var kept := events[n..];
    forall success: bool
      ensures SuffixOf(OfKind(kept, success), OfKind(arrivals, success))
    {
      KindSuffix(events, n, success);
      assert SuffixOf(OfKind(events, success), OfKind(arrivals, success));
    }
    assert forall i | 0 <= i < |kept| :: kept[i] == events[n + i];
    assert forall e | e in kept :: e in events;
  }

  lemma {:induction false} KeepMembers(events: seq<Event>, sent: seq<Event>)
    ensures forall e :: e in KeepEvents(events, sent) <==> e in events && e !in sent
  {
    if events != [] {
      KeepMembers(events[1..], sent);
      assert events == [events[0]] + events[1..];
    }
  }

  /** Acknowledging a batch whose events are at the front keeps the buffer the latest arrivals of each kind. */
  lemma RemoveEventsOk(z: Sizes, s: Reporter, b: Batch)
    requires EventsOk(s) && AtFront(s.events, b.events)
    ensures EventsOk(RemoveSelected(z, s, b))
    ensures RemoveSelected(z, s, b).log.arrivals == s.log.arrivals
    ensures forall e :: e in RemoveSelected(z, s, b).events <==> e in s.events && e !in b.events
  {
    var n := KeepSuffix(s.events, b.events);
    SuffixOk(s.events, s.eventsSize, s.log.arrivals, n);
    KeepMembers(s.events, b.events);
    BufferAlike(s.events[n..], Bytes(s.events[n..]), s.log.arrivals, RemoveSelected(z, s, b));
  }

  /** A prefix of the buffer is at the front of it. */
  lemma PrefixAtFront(events: seq<Event>, n: nat)
    requires Ordered(events) && n <= |events|
    ensures AtFront(events, events[..n])
  {
  }
}
