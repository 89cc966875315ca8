// Framing of a captured event stream: raw events, their fields, and what an
// incremental scan finds in it.
module ReceiptStream {
  import opened Options

  type byte = b: int | 0 <= b < 256
  type Bytes = seq<byte>

  const LF: byte := 10
  const CR: byte := 13
  const SPACE: byte := 32
  const LFLF: Bytes := [10, 10]
  const CRLFCRLF: Bytes := [13, 10, 13, 10]
  const DATA: Bytes := [100, 97, 116, 97, 58]         // data:
  const EVENT: Bytes := [101, 118, 101, 110, 116, 58] // event:
  const DONE: Bytes := [91, 68, 79, 78, 69, 93]       // [DONE]

  // ---- Finding the end of an event ----

  predicate At(data: Bytes, pattern: Bytes, i: nat) {
    i + |pattern| <= |data| && data[i..i + |pattern|] == pattern
  }

  /** The first place at or after from where the pattern stands, or None. */
  function Index(data: Bytes, pattern: Bytes, from: nat): (r: Option<nat>)
    requires from <= |data|
    ensures r.Some? ==> from <= r.value && At(data, pattern, r.value) && r.value <= |data|
    ensures r.Some? ==> forall i | from <= i < r.value :: !At(data, pattern, i)
    ensures r.None? ==> forall i | from <= i <= |data| :: !At(data, pattern, i)
    decreases |data| - from
  {
    if At(data, pattern, from) then Some(from)
    else if from == |data| then None
    else Index(data, pattern, from + 1)
  }

  /** Where the event starting at offset ends, its blank line included; None while it is incomplete. */
  function NextEvent(data: Bytes, offset: nat): (r: Option<nat>)
    requires offset <= |data|
    ensures r.Some? ==> offset < r.value <= |data|
  {
    var lf, crlf := Index(data, LFLF, offset), Index(data, CRLFCRLF, offset);
    if lf.Some? && (crlf.None? || lf.value < crlf.value) then Some(lf.value + 2)
    else if crlf.Some? then Some(crlf.value + 4)
    else None
  }

  /** Where the delimiter of an event stands, and its length. */
  ghost predicate Ends(data: Bytes, offset: nat, i: nat, n: nat) {
    && offset <= i
    && ((n == 2 && At(data, LFLF, i)) || (n == 4 && At(data, CRLFCRLF, i)))
    && (forall j | offset <= j < i :: !At(data, LFLF, j) && !At(data, CRLFCRLF, j))
  }

  lemma NextEnds(data: Bytes, offset: nat) returns (i: nat, n: nat)
    requires offset <= |data| && NextEvent(data, offset).Some?
    ensures Ends(data, offset, i, n) && NextEvent(data, offset) == Some(i + n)
  {
    var lf, crlf := Index(data, LFLF, offset), Index(data, CRLFCRLF, offset);
    if lf.Some? && (crlf.None? || lf.value < crlf.value) {
      i, n := lf.value, 2;
    } else {
      i, n := crlf.value, 4;
      NotBoth(data, i);
    }
  }

  lemma AtBytes(data: Bytes, i: nat)
    ensures At(data, LFLF, i) ==> data[i] == 10 && data[i + 1] == 10
    ensures At(data, CRLFCRLF, i) ==> data[i] == 13 && data[i + 1] == 10 && data[i + 2] == 13 && data[i + 3] == 10
  {
    if At(data, LFLF, i) {
      assert data[i] == data[i..i + 2][0] && data[i + 1] == data[i..i + 2][1];
    }
    if At(data, CRLFCRLF, i) {
      var d := data[i..i + 4];
      assert data[i] == d[0] && data[i + 1] == d[1] && data[i + 2] == d[2] && data[i + 3] == d[3];
    }
  }

  lemma EndsNext(data: Bytes, offset: nat, i: nat, n: nat)
    requires offset <= |data| && Ends(data, offset, i, n)
    ensures NextEvent(data, offset) == Some(i + n)
  {
    var lf, crlf := Index(data, LFLF, offset), Index(data, CRLFCRLF, offset);
    NotBoth(data, i);
    if n == 2 {
      assert lf.Some? && lf.value == i;
    } else {
      assert crlf.Some? && crlf.value == i;
    }
  }

  lemma NotBoth(data: Bytes, i: nat)
    ensures !(At(data, LFLF, i) && At(data, CRLFCRLF, i))
  {
    AtBytes(data, i);
  }

  lemma AtExtends(data: Bytes, more: Bytes, pattern: Bytes, i: nat)
    requires i + |pattern| <= |data|
    ensures At(data + more, pattern, i) == At(data, pattern, i)
  {
    assert (data + more)[i..i + |pattern|] == data[i..i + |pattern|];
  }

  /** The earliest delimiter stays the earliest whatever bytes follow. */
  lemma EndsExtends(data: Bytes, more: Bytes, offset: nat, i: nat, n: nat)
    requires Ends(data, offset, i, n)
    ensures Ends(data + more, offset, i, n)
  {
    AtExtends(data, more, if n == 2 then LFLF else CRLFCRLF, i);
    forall j | offset <= j < i
      ensures !At(data + more, LFLF, j) && !At(data + more, CRLFCRLF, j)
    {
      AtExtends(data, more, LFLF, j);
      if j + 4 <= |data| {
        AtExtends(data, more, CRLFCRLF, j);
      } else {
        // This close to the end the delimiter found is "\n\n" one byte on, so no "\r\n\r\n" can start here.
        assert n == 2 && j + 3 == |data| && i == j + 1;
        AtBytes(data, i);
        AtBytes(data + more, j);
        assert (data + more)[j + 2] == data[i + 1];
      }
    }
  }

  lemma NextExtends(data: Bytes, more: Bytes, offset: nat)
    requires offset <= |data| && NextEvent(data, offset).Some?
    ensures NextEvent(data + more, offset) == NextEvent(data, offset)
  {
    var i, n := NextEnds(data, offset);
    EndsExtends(data, more, offset, i, n);
    EndsNext(data + more, offset, i, n);
  }

  // ---- Scanning ----

  /** The complete events from offset on, and where the first incomplete one starts. */
  datatype Scanned = Scanned(events: seq<Bytes>, end: nat)

  function Scan(data: Bytes, offset: nat): (r: Scanned)
    requires offset <= |data|
    ensures offset <= r.end <= |data|
    decreases |data| - offset
  {
    var next := NextEvent(data, offset);
    if next.None? then Scanned([], offset)
    else
      var rest := Scan(data, next.value);
      Scanned([data[offset..next.value]] + rest.events, rest.end)
  }

  /** Scanning on from where an earlier scan stopped finds what one scan of the whole would. */
  lemma {:induction false} ScanResumes(data: Bytes, more: Bytes, offset: nat)
    requires offset <= |data|
    ensures Scan(data + more, offset) == Resumed(Scan(data, offset), Scan(data + more, Scan(data, offset).end))
    decreases |data| - offset
  {
    var next := NextEvent(data, offset);
    if next.None? {
      assert Resumed(Scanned([], offset), Scan(data + more, offset)) == Scan(data + more, offset);
    } else {
      NextExtends(data, more, offset);
      ScanOne(data, offset, next.value);
      ScanOne(data + more, offset, next.value);
      ScanResumes(data, more, next.value);
      assert (data + more)[offset..next.value] == data[offset..next.value];
      ResumedFirst(data[offset..next.value], Scan(data, next.value), Scan(data + more, Scan(data, next.value).end));
    }
  }

  /** A scan carried on by another. */
  function Resumed(s: Scanned, t: Scanned): Scanned {
    Scanned(s.events + t.events, t.end)
  }

  function First(raw: Bytes, s: Scanned): Scanned {
    Scanned([raw] + s.events, s.end)
  }

  lemma ResumedFirst(raw: Bytes, s: Scanned, t: Scanned)
    ensures Resumed(First(raw, s), t) == First(raw, Resumed(s, t))
  {
  }

  lemma ScanOne(data: Bytes, offset: nat, next: nat)
    requires offset <= |data| && NextEvent(data, offset) == Some(next)
    ensures Scan(data, offset) == First(data[offset..next], Scan(data, next))
  {
  }

  // ---- Fields of an event ----

  datatype SSEEvent = SSEEvent(name: Bytes, payload: Bytes)
  {
    predicate Done() {
      payload == DONE
    }
  }

  /** The pieces between line feeds; there is always at least one. */
  function Lines(body: Bytes): (r: seq<Bytes>)
    ensures |r| >= 1
    ensures forall i | 0 <= i < |r| :: LF !in r[i]
  {
    if body == [] then [[]]
    else
      var rest := Lines(body[1..]);
      if body[0] == LF then [[]] + rest else [[body[0]] + rest[0]] + rest[1..]
  }

  predicate HasPrefix(line: Bytes, prefix: Bytes) {
    prefix <= line
  }

  predicate HasSuffix(raw: Bytes, suffix: Bytes) {
    |suffix| <= |raw| && raw[|raw| - |suffix|..] == suffix
  }

  function TrimCR(line: Bytes): Bytes {
    if line != [] && line[|line| - 1] == CR then line[..|line| - 1] else line
  }

  /** A field's value: what follows the colon, less one leading space. */
  function Value(line: Bytes, field: Bytes): Bytes
    requires HasPrefix(line, field)
  {
    var v := line[|field|..];
    if v != [] && v[0] == SPACE then v[1..] else v
  }

  /** The fields seen so far. */
  datatype Fields = Fields(name: Option<Bytes>, payload: Option<Bytes>)

  /** One line more, or None when it repeats a field or is not one. */
  function AddLine(f: Fields, given: Bytes): Option<Fields> {
    var line := TrimCR(given);
    if HasPrefix(line, DATA) then if f.payload.Some? then None else Some(f.(payload := Some(Value(line, DATA))))
    else if HasPrefix(line, EVENT) then if f.name.Some? then None else Some(f.(name := Some(Value(line, EVENT))))
    else None
  }

  function AddLines(lines: seq<Bytes>): Option<Fields> {
    if lines == [] then Some(Fields(None, None))
    else
      var before := AddLines(lines[..|lines| - 1]);
      if before.None? then None else AddLine(before.value, lines[|lines| - 1])
  }

  function BodyOf(raw: Bytes): Option<Bytes> {
    if HasSuffix(raw, CRLFCRLF) then Some(raw[..|raw| - 4])
    else if HasSuffix(raw, LFLF) then Some(raw[..|raw| - 2])
    else None
  }

  /** The event a raw event spells, or None when it is not of the accepted form. */
  function Decode(raw: Bytes): Option<SSEEvent> {
    var body := BodyOf(raw);
    if body.None? then None
    else
      var f := AddLines(Lines(body.value));
      if f.None? || f.value.payload.None? then None
      else Some(SSEEvent(if f.value.name.Some? then f.value.name.value else [], f.value.payload.value))
  }

  predicate Clean(b: Bytes) {
    LF !in b
  }

  lemma {:induction false} AddLinesClean(lines: seq<Bytes>)
    requires forall i | 0 <= i < |lines| :: LF !in lines[i]
    ensures var f := AddLines(lines);
      f.Some? ==> (f.value.name.Some? ==> Clean(f.value.name.value)) && (f.value.payload.Some? ==> Clean(f.value.payload.value))
  {
    if lines != [] {
      AddLinesClean(lines[..|lines| - 1]);
      assert LF !in lines[|lines| - 1];
    }
  }

  /** No decoded name or payload contains a line feed. */
  lemma DecodeClean(raw: Bytes)
    ensures Decode(raw).Some? ==> Clean(Decode(raw).value.name) && Clean(Decode(raw).value.payload)
  {
    if BodyOf(raw).Some? {
      AddLinesClean(Lines(BodyOf(raw).value));
    }
  }

  method DecodeReceiptSSEEvent(raw: Bytes) returns (event: Option<SSEEvent>)
    ensures event == Decode(raw)
  {
    var body := BodyOf(raw);
    if body.None? {
      return None;
    }
    var name, payload: Option<Bytes> := None, None;
    var lines := Lines(body.value);
    for n := 0 to |lines|
      invariant AddLines(lines[..n]) == Some(Fields(name, payload))
    {
      assert lines[..n + 1][..n] == lines[..n];
      Failing(lines, n + 1);
      var line := TrimCR(lines[n]);
      if HasPrefix(line, DATA) {
        if payload.Some? {
          return None;
        }
        payload := Some(Value(line, DATA));
      } else if HasPrefix(line, EVENT) {
        if name.Some? {
          return None;
        }
        name := Some(Value(line, EVENT));
      } else {
        return None;
      }
    }
    assert lines[..|lines|] == lines;
    if payload.None? {
      return None;
    }
    return Some(SSEEvent(if name.Some? then name.value else [], payload.value));
  }

  lemma {:induction false} Failing(lines: seq<Bytes>, n: nat)
    requires n <= |lines|
    ensures AddLines(lines[..n]).None? ==> AddLines(lines).None?
    decreases |lines| - n
  {
    if n == |lines| {
      assert lines[..n] == lines;
    } else {
      assert lines[..n + 1][..n] == lines[..n];
      Failing(lines, n + 1);
    }
  }

  // ---- Capturing a stream as it is read ----

  /** What a payload says about receipts: nothing, something that is not one, or one. */
  datatype Embedded<R> = NotReceipt | Malformed | Receipt(value: R)

  function ReceiptIn<R>(embedded: Bytes -> Embedded<R>, raw: Bytes): Option<R> {
    var e := Decode(raw);
    if e.Some? && embedded(e.value.payload).Receipt? then Some(embedded(e.value.payload).value) else None
  }

  /** The last receipt among the events, or the one known before. */
  function LastReceipt<R>(embedded: Bytes -> Embedded<R>, events: seq<Bytes>, known: Option<R>): Option<R> {
    if events == [] then known
    else
      var last := ReceiptIn(embedded, events[|events| - 1]);
      if last.Some? then last else LastReceipt(embedded, events[..|events| - 1], known)
  }

  datatype Capture<R> = Capture(wire: Bytes, scanned: nat, receipt: Option<R>)

  /** What one scan of the whole stream finds. */
  function CaptureOf<R>(embedded: Bytes -> Embedded<R>, wire: Bytes): Capture<R> {
    Capture(wire, Scan(wire, 0).end, LastReceipt(embedded, Scan(wire, 0).events, None))
  }

  lemma {:induction false} LastReceiptConcat<R>(embedded: Bytes -> Embedded<R>, a: seq<Bytes>, b: seq<Bytes>, known: Option<R>)
    ensures LastReceipt(embedded, a + b, known) == LastReceipt(embedded, b, LastReceipt(embedded, a, known))
  {
    if b == [] {
      assert a + b == a;
    } else {
      assert (a + b)[..|a + b| - 1] == a + b[..|b| - 1];
      LastReceiptConcat(embedded, a, b[..|b| - 1], known);
    }
  }

  lemma LastReceiptOne<R>(embedded: Bytes -> Embedded<R>, raw: Bytes, known: Option<R>)
    ensures LastReceipt(embedded, [raw], known)
      == if ReceiptIn(embedded, raw).Some? then ReceiptIn(embedded, raw) else known
  {
  }

  function Concat(chunks: seq<Bytes>): Bytes {
    if chunks == [] then [] else Concat(chunks[..|chunks| - 1]) + chunks[|chunks| - 1]
  }

  class ReceiptCapture<R> {
    const embedded: Bytes -> Embedded<R>
    var wire: Bytes
    var scanned: nat
    var receipt: Option<R>

    ghost function View(): Capture<R>
      reads this
    {
      Capture(wire, scanned, receipt)
    }

    constructor (embedded: Bytes -> Embedded<R>)
      ensures this.embedded == embedded && View() == CaptureOf(embedded, [])
    {
      this.embedded := embedded;
      wire, scanned, receipt := [], 0, None;
    }

    /** The source returned these bytes; they are kept, and the events they complete are looked at. */
    method Read(bytes: Bytes)
      requires View() == CaptureOf(embedded, wire)
      modifies this
      ensures wire == old(wire) + bytes && View() == CaptureOf(embedded, wire)
    {
      if |bytes| > 0 {
        ghost var before := Scan(wire, 0);
        ScanResumes(wire, bytes, 0);
        LastReceiptConcat(embedded, before.events, Scan(wire + bytes, before.end).events, None);
        wire := wire + bytes;
        RefreshReceipt();
      } else {
        assert wire + bytes == wire;
      }
    }

    method RefreshReceipt()
      requires scanned <= |wire|
      modifies this`scanned, this`receipt
      ensures var s := Scan(wire, old(scanned));
        scanned == s.end && receipt == LastReceipt(embedded, s.events, old(receipt))
    {
      ghost var whole := Scan(wire, scanned);
      ghost var seen: seq<Bytes> := [];
      var offset := scanned;
      while offset < |wire|
        invariant offset == scanned <= |wire|
        invariant whole == Scanned(seen + Scan(wire, offset).events, Scan(wire, offset).end)
        invariant receipt == LastReceipt(embedded, seen, old(receipt))
        decreases |wire| - offset
      {
        var next := NextEvent(wire, offset);
        if next.None? {
          assert whole.events == seen;
          return;
        }
        var raw := wire[offset..next.value];
        ScanStep(wire, offset, seen);
        LastReceiptConcat(embedded, seen, [raw], old(receipt));
        LastReceiptOne(embedded, raw, receipt);
        seen := seen + [raw];
        offset := next.value;
        scanned := next.value;
        var event := DecodeReceiptSSEEvent(raw);
        if event.Some? {
          var found := embedded(event.value.payload);
          if found.Receipt? {
            receipt := Some(found.value);
          }
        }
      }
      NothingLeft(wire);
      assert whole.events == seen;
    }
  }

  lemma ScanStep(wire: Bytes, offset: nat, seen: seq<Bytes>)
    requires offset <= |wire| && NextEvent(wire, offset).Some?
    ensures var next := NextEvent(wire, offset).value;
      && Scan(wire, offset).end == Scan(wire, next).end
      && seen + Scan(wire, offset).events == (seen + [wire[offset..next]]) + Scan(wire, next).events
  {
  }

  lemma NothingLeft(wire: Bytes)
    ensures Scan(wire, |wire|) == Scanned([], |wire|)
  {
  }

  /** However the source splits the stream into reads, the capture ends up as one scan of the whole leaves it. */
  method ReadAll<R>(embedded: Bytes -> Embedded<R>, chunks: seq<Bytes>) returns (capture: ReceiptCapture<R>)
    ensures capture.embedded == embedded && capture.View() == CaptureOf(embedded, Concat(chunks))
  {
    capture := new ReceiptCapture(embedded);
    for n := 0 to |chunks|
      invariant fresh(capture) && capture.embedded == embedded
      invariant capture.View() == CaptureOf(embedded, Concat(chunks[..n]))
    {
      assert chunks[..n + 1][..n] == chunks[..n];
      capture.Read(chunks[n]);
    }
    assert chunks[..|chunks|] == chunks;
  }
}
