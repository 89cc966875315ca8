// Streams as a server writes them: every sequence of plain events can be
// spelled out, is read back as it was, and is accepted with a receipt behind it.
module ReceiptRoundTrip {
  import opened Options
  import opened ReceiptStream
  import opened ReceiptDigest

  /** Bytes that survive a line of their own. */
  predicate Plain(b: Bytes) {
    LF !in b && (b != [] ==> b[|b| - 1] != CR)
  }

  predicate PlainEvent(e: SSEEvent) {
    Plain(e.name) && Plain(e.payload)
  }

  function DataLine(payload: Bytes): Bytes {
    DATA + [SPACE] + payload
  }

  function EventLine(name: Bytes): Bytes {
    EVENT + [SPACE] + name
  }

  function Body(e: SSEEvent): Bytes {
    if e.name == [] then DataLine(e.payload) else EventLine(e.name) + [LF] + DataLine(e.payload)
  }

  function Spelled(e: SSEEvent): Bytes {
    Body(e) + LFLF
  }

  function StreamOf(events: seq<SSEEvent>): Bytes {
    if events == [] then [] else Spelled(events[0]) + StreamOf(events[1..])
  }

  // ---- One event ----

  lemma {:induction false} LinesSplit(x: Bytes, y: Bytes)
    requires LF !in x
    ensures Lines(x + [LF] + y) == [x] + Lines(y)
  {
    if x == [] {
      assert ([LF] + y)[1..] == y;
      assert x + [LF] + y == [LF] + y;
    } else {
      LinesSplit(x[1..], y);
      assert (x + [LF] + y)[1..] == x[1..] + [LF] + y;
      assert x == [x[0]] + x[1..];
    }
  }

  lemma {:induction false} LinesOne(x: Bytes)
    requires LF !in x
    ensures Lines(x) == [x]
  {
    if x != [] {
      LinesOne(x[1..]);
      assert x == [x[0]] + x[1..];
    }
  }

  lemma DataField(payload: Bytes, f: Fields)
    requires Plain(payload) && f.payload.None?
    ensures AddLine(f, DataLine(payload)) == Some(f.(payload := Some(payload)))
  {
    var line := DataLine(payload);
    assert line[|DATA|..] == [SPACE] + payload && ([SPACE] + payload)[1..] == payload;
    assert line[|line| - 1] == if payload == [] then SPACE else payload[|payload| - 1];
    assert DATA <= line;
  }

  lemma EventField(name: Bytes, f: Fields)
    requires Plain(name) && f.name.None?
    ensures AddLine(f, EventLine(name)) == Some(f.(name := Some(name)))
  {
    var line := EventLine(name);
    assert line[|EVENT|..] == [SPACE] + name && ([SPACE] + name)[1..] == name;
    assert line[|line| - 1] == if name == [] then SPACE else name[|name| - 1];
    assert EVENT <= line;
    assert line[0] != DATA[0];
  }

  lemma BodyLines(e: SSEEvent)
    requires PlainEvent(e)
    ensures Lines(Body(e)) == if e.name == [] then [DataLine(e.payload)] else [EventLine(e.name), DataLine(e.payload)]
  {
    LinesOne(DataLine(e.payload));
    if e.name != [] {
      LinesSplit(EventLine(e.name), DataLine(e.payload));
    }
  }

  lemma TwoLines(a: Bytes, b: Bytes)
    ensures AddLines([a]) == AddLine(Fields(None, None), a)
    ensures AddLines([a, b]) == if AddLines([a]).None? then None else AddLine(AddLines([a]).value, b)
  {
    assert [a][..0] == [] && [a, b][..1] == [a];
    assert AddLines([]) == Some(Fields(None, None));
  }

  lemma SpelledBody(e: SSEEvent)
    ensures BodyOf(Spelled(e)) == Some(Body(e))
  {
    var raw := Spelled(e);
    var n := |Body(e)|;
    assert raw[n] == 10 && raw[n + 1] == 10;
    assert raw[n..] == LFLF && raw[..n] == Body(e);
    SuffixByte(raw);
  }

  lemma SuffixByte(raw: Bytes)
    requires |raw| >= 4
    ensures HasSuffix(raw, CRLFCRLF) ==> raw[|raw| - 2] == CR
  {
    assert raw[|raw| - 4..][2] == raw[|raw| - 2];
  }

  /** What is spelled out is read back. */
  lemma DecodeSpelled(e: SSEEvent)
    requires PlainEvent(e)
    ensures Decode(Spelled(e)) == Some(e)
  {
    SpelledBody(e);
    BodyLines(e);
    var none := Fields(None, None);
    if e.name == [] {
      TwoLines(DataLine(e.payload), []);
      DataField(e.payload, none);
    } else {
      TwoLines(EventLine(e.name), DataLine(e.payload));
      EventField(e.name, none);
      DataField(e.payload, none.(name := Some(e.name)));
    }
  }

  // ---- Where it ends ----

  lemma AtIndex(data: Bytes, pattern: Bytes, i: nat, k: nat)
    requires At(data, pattern, i) && k < |pattern|
    ensures data[i + k] == pattern[k]
  {
    assert data[i..i + |pattern|][k] == data[i + k];
  }

  lemma DataLineByte(payload: Bytes, j: nat)
    requires Plain(payload) && j < |DataLine(payload)|
    ensures DataLine(payload)[j] != LF && |DataLine(payload)| >= 6
    ensures DataLine(payload)[0] == 100 && DataLine(payload)[2] == 116
  {
    if j >= 6 {
      assert DataLine(payload)[j] == payload[j - 6];
    }
  }

  lemma EventLineByte(name: Bytes, j: nat)
    requires Plain(name) && j < |EventLine(name)|
    ensures EventLine(name)[j] != LF
  {
    if j >= 7 {
      assert EventLine(name)[j] == name[j - 7];
    }
  }

  /** The only line feed before the blank line is the one between the two fields. */
  lemma LineFeeds(e: SSEEvent, j: nat)
    requires PlainEvent(e) && j < |Body(e)| && Body(e)[j] == LF
    ensures e.name != [] && j == |EventLine(e.name)| && j + 6 <= |Body(e)| && Body(e)[j + 1] == 100 && Body(e)[j + 3] == 116
  {
    var first, second := EventLine(e.name), DataLine(e.payload);
    DataLineByte(e.payload, 0);
    if e.name == [] {
      DataLineByte(e.payload, j);
    } else if j < |first| {
      EventLineByte(e.name, j);
    } else if j > |first| {
      DataLineByte(e.payload, j - |first| - 1);
    }
  }

  lemma NoBlankLine(e: SSEEvent, j: nat)
    requires PlainEvent(e) && j < |Body(e)|
    ensures !At(Spelled(e), LFLF, j) && !At(Spelled(e), CRLFCRLF, j)
  {
    var raw, body := Spelled(e), Body(e);
    assert forall k | 0 <= k < |body| :: raw[k] == body[k];
    if At(raw, LFLF, j) {
      AtIndex(raw, LFLF, j, 0);
      AtIndex(raw, LFLF, j, 1);
      LineFeeds(e, j);
    }
    if At(raw, CRLFCRLF, j) {
      AtIndex(raw, CRLFCRLF, j, 1);
      AtIndex(raw, CRLFCRLF, j, 2);
      AtIndex(raw, CRLFCRLF, j, 3);
      if j + 1 < |body| {
        LineFeeds(e, j + 1);
      }
    }
  }

  lemma SpelledEnds(e: SSEEvent)
    requires PlainEvent(e)
    ensures Ends(Spelled(e), 0, |Body(e)|, 2)
  {
    assert Spelled(e)[|Body(e)|..|Body(e)| + 2] == LFLF;
    forall j | 0 <= j < |Body(e)|
      ensures !At(Spelled(e), LFLF, j) && !At(Spelled(e), CRLFCRLF, j)
    {
      NoBlankLine(e, j);
    }
  }

  lemma AtShifts(before: Bytes, data: Bytes, pattern: Bytes, i: nat)
    ensures At(before + data, pattern, |before| + i) == At(data, pattern, i)
  {
    if i + |pattern| <= |data| {
      assert (before + data)[|before| + i..|before| + i + |pattern|] == data[i..i + |pattern|];
    }
  }

  lemma EndsShifts(before: Bytes, data: Bytes, i: nat, n: nat)
    requires Ends(data, 0, i, n)
    ensures Ends(before + data, |before|, |before| + i, n)
  {
    AtShifts(before, data, if n == 2 then LFLF else CRLFCRLF, i);
    forall j | |before| <= j < |before| + i
      ensures !At(before + data, LFLF, j) && !At(before + data, CRLFCRLF, j)
    {
      AtShifts(before, data, LFLF, j - |before|);
      AtShifts(before, data, CRLFCRLF, j - |before|);
    }
  }

  // ---- Whole streams ----

  lemma NextRaw(before: Bytes, raw: Bytes, rest: Bytes, i: nat)
    requires Ends(raw, 0, i, 2) && |raw| == i + 2
    ensures NextEvent(before + (raw + rest), |before|) == Some(|before| + |raw|)
  {
    EndsExtends(raw, rest, 0, i, 2);
    EndsShifts(before, raw + rest, i, 2);
    EndsNext(before + (raw + rest), |before|, |before| + i, 2);
  }

  lemma EventsCons(stream: Bytes, offset: nat, next: nat, e: SSEEvent, rest: seq<SSEEvent>)
    requires offset <= |stream| && NextEvent(stream, offset) == Some(next)
    requires Decode(stream[offset..next]) == Some(e) && Events(stream, next) == Some(rest)
    ensures Events(stream, offset) == Some([e] + rest)
  {
  }

  lemma NextAt(stream: Bytes, offset: nat, raw: Bytes, rest: Bytes, i: nat)
    requires Ends(raw, 0, i, 2) && |raw| == i + 2
    requires offset <= |stream| && stream[offset..] == raw + rest
    ensures NextEvent(stream, offset) == Some(offset + |raw|)
  {
    assert stream == stream[..offset] + (raw + rest);
    NextRaw(stream[..offset], raw, rest, i);
  }

  lemma TailOf(stream: Bytes, offset: nat, raw: Bytes, rest: Bytes)
    requires offset <= |stream| && stream[offset..] == raw + rest
    ensures offset + |raw| <= |stream| && stream[offset..offset + |raw|] == raw && stream[offset + |raw|..] == rest
  {
    assert stream[offset..offset + |raw|] == stream[offset..][..|raw|];
    assert stream[offset + |raw|..] == stream[offset..][|raw|..];
  }

  lemma FirstSpelled(stream: Bytes, offset: nat, raw: Bytes, e: SSEEvent, rest: Bytes)
    requires PlainEvent(e) && raw == Spelled(e) && offset <= |stream| && stream[offset..] == raw + rest
    ensures offset < offset + |raw| <= |stream| && stream[offset + |raw|..] == rest
    ensures NextEvent(stream, offset) == Some(offset + |raw|) && Decode(stream[offset..offset + |raw|]) == Some(e)
  {
    SpelledEnds(e);
    TailOf(stream, offset, raw, rest);
    NextAt(stream, offset, raw, rest, |Body(e)|);
    DecodeSpelled(e);
  }

  lemma StreamCons(events: seq<SSEEvent>)
    requires events != []
    ensures StreamOf(events) == Spelled(events[0]) + StreamOf(events[1..])
  {
  }

  lemma {:induction false} EventsSpelled(stream: Bytes, offset: nat, events: seq<SSEEvent>)
    requires forall i | 0 <= i < |events| :: PlainEvent(events[i])
    requires offset <= |stream| && stream[offset..] == StreamOf(events)
    ensures Events(stream, offset) == Some(events)
    decreases |events|
  {
    if events == [] {
      EventsNone(stream, offset);
    } else {
      var e, rest := events[0], events[1..];
      StreamCons(events);
      var raw := Spelled(e);
      FirstSpelled(stream, offset, raw, e, StreamOf(rest));
      var next := offset + |raw|;
      EventsSpelled(stream, next, rest);
      EventsCons(stream, offset, next, e, rest);
      assert events == [e] + rest;
    }
  }

  lemma EventsNone(stream: Bytes, offset: nat)
    requires offset <= |stream| && stream[offset..] == []
    ensures Events(stream, offset) == Some([])
  {
    assert |stream[offset..]| == |stream| - offset;
  }

  /** Reading back the spelling of any plain events gives those events, with nothing left over. */
  lemma RoundTrip(events: seq<SSEEvent>)
    requires forall i | 0 <= i < |events| :: PlainEvent(events[i])
    ensures Events(StreamOf(events), 0) == Some(events)
  {
    var stream := StreamOf(events);
    assert stream[0..] == stream;
    EventsSpelled(stream, 0, events);
  }

  lemma DataShaped<R>(data: seq<SSEEvent>, receipt: SSEEvent, domain: Domain, embedded: Bytes -> Embedded<R>)
    requires forall i | 0 <= i < |data| :: IsData(domain, embedded, data[i])
    requires !receipt.Done() && embedded(receipt.payload).Receipt?
    ensures var events := data + [receipt, SSEEvent([], DONE)];
      Shaped(domain, Some(embedded(receipt.payload).value), embedded, events) && events[..|events| - 2] == data
  {
    var events := data + [receipt, SSEEvent([], DONE)];
    assert events[|data|] == receipt && events[|data| + 1] == SSEEvent([], DONE);
    assert forall i | 0 <= i < |data| :: events[i] == data[i];
  }

  /** Any plain data events of a domain, followed by the verified receipt and the end marker, are accepted and counted. */
  lemma SpelledAccepted<R>(data: seq<SSEEvent>, receipt: SSEEvent, domain: Domain, embedded: Bytes -> Embedded<R>)
    requires forall i | 0 <= i < |data| :: PlainEvent(data[i]) && IsData(domain, embedded, data[i])
    requires PlainEvent(receipt) && !receipt.Done() && embedded(receipt.payload).Receipt?
    ensures var stream := StreamOf(data + [receipt, SSEEvent([], DONE)]);
      DigestFrom(stream, 0, domain, Some(embedded(receipt.payload).value), embedded, START)
        == Ok(Digest(Preimage(domain, data), |data|))
  {
    var events := data + [receipt, SSEEvent([], DONE)];
    PlainAll(data, receipt);
    RoundTrip(events);
    AcceptedIff(StreamOf(events), domain, Some(embedded(receipt.payload).value), embedded);
    DataShaped(data, receipt, domain, embedded);
  }

  lemma PlainAll(data: seq<SSEEvent>, receipt: SSEEvent)
    requires PlainEvent(receipt) && forall i | 0 <= i < |data| :: PlainEvent(data[i])
    ensures forall i | 0 <= i < |data| + 2 :: PlainEvent((data + [receipt, SSEEvent([], DONE)])[i])
  {
  }
}
