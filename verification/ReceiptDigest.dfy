// Which streams a receipt is accepted for, what is hashed of them, and why one
// hash stands for one sequence of events.
module ReceiptDigest {
  import opened Options
  import opened ReceiptStream

  datatype Domain = SSEData | SSEEvents | OtherDomain

  datatype Refusal =
    | IncompleteTail | BadEvent | AfterDone | BadReceipt | TwoReceipts | WrongReceipt | AfterReceipt | NamedEvent
    | UnknownDomain | NoReceipt | NoDone

  /** What is written to the hasher, and how many events it stands for. */
  datatype Digest = Digest(preimage: Bytes, events: nat)

  datatype State = State(sawDone: bool, sawReceipt: bool, digest: Digest)

  const START := State(false, false, Digest([], 0))

  /** What the hasher is given of one data event. */
  function Written(domain: Domain, e: SSEEvent): Bytes {
    (if domain == SSEEvents then e.name + [LF] else []) + e.payload + [LF]
  }

  /** One event of the stream. */
  function Take<R(==)>(domain: Domain, expected: Option<R>, embedded: Bytes -> Embedded<R>, s: State, e: SSEEvent)
    : Result<State, Refusal>
  {
    if s.sawDone then Err(AfterDone)
    else if e.Done() then Ok(s.(sawDone := true))
    else
      match embedded(e.payload)
      case Malformed => Err(BadReceipt)
      case Receipt(r) =>
        if s.sawReceipt then Err(TwoReceipts)
        else if expected != Some(r) then Err(WrongReceipt)
        else Ok(s.(sawReceipt := true))
      case NotReceipt =>
        if s.sawReceipt then Err(AfterReceipt)
        else if domain == SSEData && e.name != [] then Err(NamedEvent)
        else if domain == OtherDomain then Err(UnknownDomain)
        else Ok(s.(digest := Digest(s.digest.preimage + Written(domain, e), s.digest.events + 1)))
  }

  function Conclude(s: State): Result<Digest, Refusal> {
    if !s.sawReceipt then Err(NoReceipt) else if !s.sawDone then Err(NoDone) else Ok(s.digest)
  }

  /** The stream from offset on. */
  function DigestFrom<R(==)>(stream: Bytes, offset: nat, domain: Domain, expected: Option<R>,
                             embedded: Bytes -> Embedded<R>, s: State): Result<Digest, Refusal>
    requires offset <= |stream|
    decreases |stream| - offset
  {
    if offset == |stream| then Conclude(s)
    else
      var next := NextEvent(stream, offset);
      if next.None? then Err(IncompleteTail)
      else
        var e := Decode(stream[offset..next.value]);
        if e.None? then Err(BadEvent)
        else
          var t := Take(domain, expected, embedded, s, e.value);
          if t.Err? then Err(t.error) else DigestFrom(stream, next.value, domain, expected, embedded, t.value)
  }

  method ReceiptStreamDigest<R(==)>(stream: Bytes, domain: Domain, expected: Option<R>, embedded: Bytes -> Embedded<R>)
    returns (r: Result<Digest, Refusal>)
    ensures r == DigestFrom(stream, 0, domain, expected, embedded, START)
  {
    var preimage: Bytes := [];
    var events: nat := 0;
    var offset := 0;
    var sawDone, sawReceipt := false, false;
    while offset < |stream|
      invariant 0 <= offset <= |stream|
      invariant DigestFrom(stream, offset, domain, expected, embedded, State(sawDone, sawReceipt, Digest(preimage, events)))
        == DigestFrom(stream, 0, domain, expected, embedded, START)
    {
      var next := NextEvent(stream, offset);
      if next.None? {
        return Err(IncompleteTail);
      }
      var event := DecodeReceiptSSEEvent(stream[offset..next.value]);
      if event.None? {
        return Err(BadEvent);
      }
      var refusal;
      refusal, sawDone, sawReceipt, preimage, events :=
        TakeEvent(domain, expected, embedded, sawDone, sawReceipt, preimage, events, event.value);
      if refusal.Some? {
        return Err(refusal.value);
      }
      offset := next.value;
    }
    if !sawReceipt {
      return Err(NoReceipt);
    }
    if !sawDone {
      return Err(NoDone);
    }
    return Ok(Digest(preimage, events));
  }

  method TakeEvent<R(==)>(domain: Domain, expected: Option<R>, embedded: Bytes -> Embedded<R>, done: bool, receipted: bool,
                          written: Bytes, count: nat, event: SSEEvent)
    returns (refusal: Option<Refusal>, sawDone: bool, sawReceipt: bool, preimage: Bytes, events: nat)
    ensures var t := Take(domain, expected, embedded, State(done, receipted, Digest(written, count)), event);
      if t.Ok? then refusal == None && t.value == State(sawDone, sawReceipt, Digest(preimage, events))
      else refusal == Some(t.error)
  {
    refusal, sawDone, sawReceipt, preimage, events := None, done, receipted, written, count;
    if sawDone {
      refusal := Some(AfterDone);
      return;
    }
    if event.Done() {
      sawDone := true;
      return;
    }
    var found := embedded(event.payload);
    if found.Malformed? {
      refusal := Some(BadReceipt);
      return;
    }
    if found.Receipt? {
      if sawReceipt {
        refusal := Some(TwoReceipts);
      } else if expected != Some(found.value) {
        refusal := Some(WrongReceipt);
      } else {
        sawReceipt := true;
      }
      return;
    }
    if sawReceipt {
      refusal := Some(AfterReceipt);
      return;
    }
    match domain {
      case SSEData =>
        if event.name != [] {
          refusal := Some(NamedEvent);
          return;
        }
      case SSEEvents => preimage := preimage + (event.name + [LF]);
      case OtherDomain =>
        refusal := Some(UnknownDomain);
        return;
    }
    preimage := preimage + event.payload + [LF];
    events := events + 1;
    assert written + Written(domain, event) == preimage;
  }

  // ---- The streams that are accepted ----

  /** The events of a stream with nothing left over, each of the accepted form. */
  function Events(stream: Bytes, offset: nat): Option<seq<SSEEvent>>
    requires offset <= |stream|
    decreases |stream| - offset
  {
    if offset == |stream| then Some([])
    else
      var next := NextEvent(stream, offset);
      if next.None? then None
      else
        var e, rest := Decode(stream[offset..next.value]), Events(stream, next.value);
        if e.None? || rest.None? then None else Some([e.value] + rest.value)
  }

  /** An event that carries data of the domain. */
  predicate IsData<R(==)>(domain: Domain, embedded: Bytes -> Embedded<R>, e: SSEEvent) {
    !e.Done() && embedded(e.payload) == NotReceipt && domain != OtherDomain && (domain == SSEData ==> e.name == [])
  }

  /** Zero or more data events, the expected receipt, and the end marker. */
  ghost predicate Shaped<R>(domain: Domain, expected: Option<R>, embedded: Bytes -> Embedded<R>, events: seq<SSEEvent>) {
    var n := |events| - 2;
    && n >= 0
    && (forall i | 0 <= i < n :: IsData(domain, embedded, events[i]))
    && !events[n].Done() && embedded(events[n].payload).Receipt? && expected == Some(embedded(events[n].payload).value)
    && events[n + 1].Done()
  }

  function Preimage(domain: Domain, data: seq<SSEEvent>): Bytes {
    if data == [] then [] else Written(domain, data[0]) + Preimage(domain, data[1..])
  }

  /** The acceptor as a pass over the events. */
  function Fold<R(==)>(domain: Domain, expected: Option<R>, embedded: Bytes -> Embedded<R>, s: State, events: seq<SSEEvent>)
    : Result<Digest, Refusal>
    decreases |events|
  {
    if events == [] then Conclude(s)
    else
      var t := Take(domain, expected, embedded, s, events[0]);
      if t.Err? then Err(t.error) else Fold(domain, expected, embedded, t.value, events[1..])
  }

  lemma {:induction false} DigestIsFold<R>(stream: Bytes, offset: nat, domain: Domain, expected: Option<R>,
                                               embedded: Bytes -> Embedded<R>, s: State)
    requires offset <= |stream|
    ensures var d := DigestFrom(stream, offset, domain, expected, embedded, s);
      && (d.Ok? ==> Events(stream, offset).Some?)
      && (Events(stream, offset).Some? ==> d == Fold(domain, expected, embedded, s, Events(stream, offset).value))
    decreases |stream| - offset
  {
    if offset < |stream| {
      var next := NextEvent(stream, offset);
      if next.Some? && Decode(stream[offset..next.value]).Some? {
        var e := Decode(stream[offset..next.value]).value;
        var t := Take(domain, expected, embedded, s, e);
        if t.Ok? {
          DigestIsFold(stream, next.value, domain, expected, embedded, t.value);
        }
        var rest := Events(stream, next.value);
        if rest.Some? {
          assert ([e] + rest.value)[1..] == rest.value;
        }
      }
    }
  }

  lemma {:induction false} FoldEnded<R>(domain: Domain, expected: Option<R>, embedded: Bytes -> Embedded<R>, s: State,
                                            events: seq<SSEEvent>)
    requires s.sawReceipt
    ensures Fold(domain, expected, embedded, s, events).Ok? <==>
      if s.sawDone then events == [] else |events| == 1 && events[0].Done()
    ensures Fold(domain, expected, embedded, s, events).Ok? ==> Fold(domain, expected, embedded, s, events).value == s.digest
    decreases |events|
  {
    if events != [] && !s.sawDone && events[0].Done() {
      FoldEnded(domain, expected, embedded, s.(sawDone := true), events[1..]);
    }
  }

  lemma FoldDone<R>(domain: Domain, expected: Option<R>, embedded: Bytes -> Embedded<R>, s: State, events: seq<SSEEvent>)
    requires s.sawDone && !s.sawReceipt
    ensures Fold(domain, expected, embedded, s, events).Err?
  {
  }

  /** From any point before the receipt, acceptance is having the shape, and the digest is that of the data. */
  lemma {:induction false} FoldShaped<R>(domain: Domain, expected: Option<R>, embedded: Bytes -> Embedded<R>, s: State,
                                             events: seq<SSEEvent>)
    requires !s.sawReceipt && !s.sawDone
    ensures Fold(domain, expected, embedded, s, events).Ok? <==> Shaped(domain, expected, embedded, events)
    ensures Shaped(domain, expected, embedded, events) ==>
      Fold(domain, expected, embedded, s, events).value
        == Digest(s.digest.preimage + Preimage(domain, events[..|events| - 2]), s.digest.events + |events| - 2)
    decreases |events|
  {
    if events != [] {
      var e, rest := events[0], events[1..];
      var t := Take(domain, expected, embedded, s, e);
      if e.Done() {
        FoldDone(domain, expected, embedded, s.(sawDone := true), rest);
        ShapedFirst(domain, expected, embedded, events);
      } else if embedded(e.payload).Receipt? {
        if t.Ok? {
          FoldEnded(domain, expected, embedded, t.value, rest);
        }
        ShapedFirst(domain, expected, embedded, events);
        assert Preimage(domain, []) == [];
        assert |events| == 2 ==> events[..0] == [];
        assert s.digest.preimage + [] == s.digest.preimage;
      } else if t.Ok? {
        FoldShaped(domain, expected, embedded, t.value, rest);
        ShapedRest(domain, expected, embedded, events);
        if Shaped(domain, expected, embedded, rest) {
          var data := events[..|events| - 2];
          assert data[1..] == rest[..|rest| - 2];
          assert s.digest.preimage + Preimage(domain, data)
            == (s.digest.preimage + Written(domain, e)) + Preimage(domain, data[1..]);
        }
      } else {
        ShapedFirst(domain, expected, embedded, events);
      }
    }
  }

  /** A stream that does not start with data has the shape only if it is the receipt and the end marker. */
  lemma ShapedFirst<R>(domain: Domain, expected: Option<R>, embedded: Bytes -> Embedded<R>, events: seq<SSEEvent>)
    requires events != [] && !IsData(domain, embedded, events[0])
    ensures Shaped(domain, expected, embedded, events) <==>
      |events| == 2 && !events[0].Done() && embedded(events[0].payload).Receipt?
      && expected == Some(embedded(events[0].payload).value) && events[1].Done()
  {
  }

  lemma ShapedRest<R>(domain: Domain, expected: Option<R>, embedded: Bytes -> Embedded<R>, events: seq<SSEEvent>)
    requires events != [] && IsData(domain, embedded, events[0])
    ensures Shaped(domain, expected, embedded, events) <==> Shaped(domain, expected, embedded, events[1..])
  {
    assert forall i | 0 <= i < |events| - 1 :: events[1..][i] == events[i + 1];
    if Shaped(domain, expected, embedded, events[1..]) {
      forall i | 0 <= i < |events| - 2
        ensures IsData(domain, embedded, events[i])
      {
        assert i > 0 ==> events[i] == events[1..][i - 1];
      }
    }
  }

  /**
   * A stream is accepted exactly when it is, with nothing left over, zero or more data events of the domain, the
   * verified receipt, and the end marker; the count is that of the data events and what is hashed is their
   * concatenation in the domain's form.
   */
  lemma AcceptedIff<R>(stream: Bytes, domain: Domain, expected: Option<R>, embedded: Bytes -> Embedded<R>)
    ensures var d, events := DigestFrom(stream, 0, domain, expected, embedded, START), Events(stream, 0);
      && (d.Ok? <==> events.Some? && Shaped(domain, expected, embedded, events.value))
      && (d.Ok? ==> d.value == Digest(Preimage(domain, events.value[..|events.value| - 2]), |events.value| - 2))
  {
    DigestIsFold(stream, 0, domain, expected, embedded, START);
    if Events(stream, 0).Some? {
      var events := Events(stream, 0).value;
      FoldShaped(domain, expected, embedded, START, events);
      if Shaped(domain, expected, embedded, events) {
        assert [] + Preimage(domain, events[..|events| - 2]) == Preimage(domain, events[..|events| - 2]);
      }
    }
  }

  // ---- One preimage, one sequence of events ----

  function Terminated(pieces: seq<Bytes>): Bytes {
    if pieces == [] then [] else pieces[0] + [LF] + Terminated(pieces[1..])
  }

  ghost predicate AllClean(pieces: seq<Bytes>) {
    forall i | 0 <= i < |pieces| :: Clean(pieces[i])
  }

  lemma PrefixUnique(a: Bytes, x: Bytes, b: Bytes, y: Bytes)
    requires Clean(a) && Clean(b) && a + [LF] + x == b + [LF] + y
    ensures a == b && x == y
  {
    var whole := a + [LF] + x;
    assert whole[|a|] == LF && whole[|b|] == LF;
    assert forall i | 0 <= i < |a| :: whole[i] == a[i];
    assert forall i | 0 <= i < |b| :: whole[i] == b[i];
    assert |a| == |b|;
    assert a == whole[..|a|] && b == whole[..|b|];
    assert x == whole[|a| + 1..] && y == whole[|b| + 1..];
  }

  /** Line-feed-terminated pieces without line feeds can be told apart. */
  lemma {:induction false} TerminatedUnique(a: seq<Bytes>, b: seq<Bytes>)
    requires AllClean(a) && AllClean(b) && Terminated(a) == Terminated(b)
    ensures a == b
  {
    if a != [] && b != [] {
      PrefixUnique(a[0], Terminated(a[1..]), b[0], Terminated(b[1..]));
      TerminatedUnique(a[1..], b[1..]);
      assert a == [a[0]] + a[1..] && b == [b[0]] + b[1..];
    }
  }

  /** The pieces a domain writes for a sequence of events. */
  function Pieces(domain: Domain, data: seq<SSEEvent>): seq<Bytes> {
    if data == [] then []
    else (if domain == SSEEvents then [data[0].name, data[0].payload] else [data[0].payload]) + Pieces(domain, data[1..])
  }

  lemma TerminatedCons(a: Bytes, rest: seq<Bytes>)
    ensures Terminated([a] + rest) == a + [LF] + Terminated(rest)
    ensures Clean(a) && AllClean(rest) ==> AllClean([a] + rest)
  {
    assert ([a] + rest)[1..] == rest;
  }

  lemma WrittenPieces(domain: Domain, e: SSEEvent, rest: seq<Bytes>)
    requires Clean(e.name) && Clean(e.payload) && AllClean(rest)
    ensures var all := (if domain == SSEEvents then [e.name, e.payload] else [e.payload]) + rest;
      Terminated(all) == Written(domain, e) + Terminated(rest) && AllClean(all)
  {
    TerminatedCons(e.payload, rest);
    if domain == SSEEvents {
      TerminatedCons(e.name, [e.payload] + rest);
      assert [e.name, e.payload] + rest == [e.name] + ([e.payload] + rest);
      assert (e.name + [LF]) + (e.payload + [LF] + Terminated(rest)) == Written(domain, e) + Terminated(rest);
    } else {
      assert [] + e.payload + [LF] == e.payload + [LF];
    }
  }

  lemma {:induction false} PreimagePieces(domain: Domain, data: seq<SSEEvent>)
    requires forall i | 0 <= i < |data| :: Clean(data[i].name) && Clean(data[i].payload)
    ensures Preimage(domain, data) == Terminated(Pieces(domain, data)) && AllClean(Pieces(domain, data))
  {
    if data != [] {
      PreimagePieces(domain, data[1..]);
      WrittenPieces(domain, data[0], Pieces(domain, data[1..]));
    }
  }

  lemma {:induction false} PiecesUnique(domain: Domain, a: seq<SSEEvent>, b: seq<SSEEvent>)
    requires Pieces(domain, a) == Pieces(domain, b)
    requires domain != SSEEvents ==>
      (forall i | 0 <= i < |a| :: a[i].name == []) && (forall i | 0 <= i < |b| :: b[i].name == [])
    ensures a == b
  {
    if a != [] && b != [] {
      var k := if domain == SSEEvents then 2 else 1;
      assert Pieces(domain, a)[k..] == Pieces(domain, a[1..]) && Pieces(domain, b)[k..] == Pieces(domain, b[1..]);
      assert Pieces(domain, a)[0] == Pieces(domain, b)[0] && Pieces(domain, a)[k - 1] == Pieces(domain, b)[k - 1];
      PiecesUnique(domain, a[1..], b[1..]);
      assert a == [a[0]] + a[1..] && b == [b[0]] + b[1..];
    }
  }

  lemma {:induction false} EventsClean(stream: Bytes, offset: nat)
    requires offset <= |stream| && Events(stream, offset).Some?
    ensures forall i | 0 <= i < |Events(stream, offset).value| ::
      Clean(Events(stream, offset).value[i].name) && Clean(Events(stream, offset).value[i].payload)
    decreases |stream| - offset
  {
    if offset < |stream| {
      var next := NextEvent(stream, offset).value;
      DecodeClean(stream[offset..next]);
      EventsClean(stream, next);
    }
  }

  /** The data events of an accepted stream. */
  function DataOf(stream: Bytes): seq<SSEEvent> {
    var events := Events(stream, 0);
    if events.Some? && |events.value| >= 2 then events.value[..|events.value| - 2] else []
  }

  lemma AcceptedData<R>(stream: Bytes, domain: Domain, expected: Option<R>, embedded: Bytes -> Embedded<R>)
    requires DigestFrom(stream, 0, domain, expected, embedded, START).Ok?
    ensures var d, data := DigestFrom(stream, 0, domain, expected, embedded, START).value, DataOf(stream);
      && d == Digest(Terminated(Pieces(domain, data)), |data|) && AllClean(Pieces(domain, data))
      && (domain != SSEEvents ==> forall i | 0 <= i < |data| :: data[i].name == [])
  {
    AcceptedIff(stream, domain, expected, embedded);
    EventsClean(stream, 0);
    PreimagePieces(domain, DataOf(stream));
    forall i | 0 <= i < |DataOf(stream)|
      ensures IsData(domain, embedded, DataOf(stream)[i])
    {
      assert DataOf(stream)[i] == Events(stream, 0).value[i];
    }
  }

  /**
   * A receipt binds at most one sequence of events: two streams accepted under one domain whose hashes agree, the
   * hash telling their two preimages apart if they differ, carry the same names and payloads in the same order.
   */
  lemma ReceiptBinds<R, H>(hash: Bytes -> H, domain: Domain, embedded: Bytes -> Embedded<R>,
                                   s: Bytes, expectedS: Option<R>, t: Bytes, expectedT: Option<R>)
    requires var a, b := DigestFrom(s, 0, domain, expectedS, embedded, START), DigestFrom(t, 0, domain, expectedT, embedded, START);
      && a.Ok? && b.Ok?
      && hash(a.value.preimage) == hash(b.value.preimage)
      && (hash(a.value.preimage) == hash(b.value.preimage) ==> a.value.preimage == b.value.preimage)
    ensures DataOf(s) == DataOf(t)
    ensures DigestFrom(s, 0, domain, expectedS, embedded, START) == DigestFrom(t, 0, domain, expectedT, embedded, START)
  {
    AcceptedData(s, domain, expectedS, embedded);
    AcceptedData(t, domain, expectedT, embedded);
    TerminatedUnique(Pieces(domain, DataOf(s)), Pieces(domain, DataOf(t)));
    PiecesUnique(domain, DataOf(s), DataOf(t));
  }
}
