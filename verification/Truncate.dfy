// Bounding an error message to a number of bytes without splitting a UTF-8
// character (section 4 of RFC 3629) at the cut.
module Truncate {
  import opened Options
  import opened ReceiptStream

  /** utf8.RuneStart: not a continuation byte. */
  predicate RuneStart(b: byte) {
    b < 128 || 192 <= b
  }

  predicate Tail(b: byte) {
    128 <= b < 192
  }

  /** The second byte a three- or four-byte character may have after this first one. */
  predicate Second(first: byte, b: byte) {
    (if first == 224 then 160 else if first == 240 then 144 else 128) <= b
    && b <= (if first == 237 then 159 else if first == 244 then 143 else 191)
  }

  /** Bytes of the well-formed character at the front; 0 when there is none. */
  function Width(s: Bytes): (n: nat)
    ensures n <= 4 && n <= |s|
  {
    if s == [] then 0
    else if s[0] < 128 then 1
    else if 194 <= s[0] <= 223 && |s| >= 2 && Tail(s[1]) then 2
    else if 224 <= s[0] <= 239 && |s| >= 3 && Second(s[0], s[1]) && Tail(s[2]) then 3
    else if 240 <= s[0] <= 244 && |s| >= 4 && Second(s[0], s[1]) && Tail(s[2]) && Tail(s[3]) then 4
    else 0
  }

  /** utf8.DecodeRuneInString's size: a malformed byte is a character of its own. */
  function DecodeSize(s: Bytes): nat {
    if s == [] then 0 else if Width(s) == 0 then 1 else Width(s)
  }

  predicate Utf8(s: Bytes) {
    s == [] || (Width(s) > 0 && Utf8(s[Width(s)..]))
  }

  /** A well-formed character starts at `s`, before the cut, and ends after it. */
  predicate Straddles(value: Bytes, limit: nat, s: nat) {
    s < |value| && s < limit < s + Width(value[s..])
  }

  /** What a truncation keeps: everything up to the cut but the character the cut would split. */
  ghost function Cut(value: Bytes, limit: nat): (n: nat)
    ensures n <= |value| && n <= limit
  {
    if |value| <= limit then |value|
    else if exists s: nat :: Straddles(value, limit, s) then
      var s: nat :| Straddles(value, limit, s);
      s
    else limit
  }

  ghost function Truncated(value: Bytes, limit: nat): Bytes {
    value[..Cut(value, limit)]
  }

  // ---- Characters at the cut ----

  lemma Inside(value: Bytes, s: nat, k: nat)
    requires s < |value| && s < k < s + Width(value[s..])
    ensures k < |value| && Tail(value[k]) && Width(value[k..]) == 0
    ensures !RuneStart(value[k]) && RuneStart(value[s])
  {
    var c := value[s..];
    assert c[k - s] == value[k] && c[0] == value[s];
    assert c[1] == value[s + 1];
    assert value[k..][0] == value[k];
  }

  /** At most one character crosses the cut. */
  lemma StraddlerUnique(value: Bytes, limit: nat, s: nat, t: nat)
    requires Straddles(value, limit, s) && Straddles(value, limit, t)
    ensures s == t
  {
    if s < t {
      Inside(value, s, t);
    } else if t < s {
      Inside(value, t, s);
    }
  }

  lemma CutAt(value: Bytes, limit: nat, s: nat)
    requires Straddles(value, limit, s)
    ensures Cut(value, limit) == s
  {
    var t := Cut(value, limit);
    assert |value| > limit;
    assert Straddles(value, limit, t);
    StraddlerUnique(value, limit, s, t);
  }

  /** truncateString: walks back at most three bytes. */
  method TruncateString(value: Bytes, limit: nat) returns (r: Bytes)
    ensures r == Truncated(value, limit)
  {
    if |value| <= limit {
      return value;
    }
    var start := limit - 1;
    while start >= 0 && limit - start < 4
      invariant -1 <= start < limit
      invariant forall k :: start < k < limit ==> !RuneStart(value[k])
    {
      if !RuneStart(value[start]) {
        start := start - 1;
        continue;
      }
      var size := DecodeSize(value[start..]);
      if start + size > limit {
        CutAt(value, limit, start);
        return value[..start];
      }
      break;
    }
    forall s: nat | Straddles(value, limit, s)
      ensures false
    {
      NoStraddler(value, limit, start, s);
    }
    return value[..limit];
  }

  lemma NoStraddler(value: Bytes, limit: nat, start: int, s: nat)
    requires |value| > limit && -1 <= start < limit
    requires forall k :: start < k < limit ==> !RuneStart(value[k])
    requires start < 0 || limit - start >= 4
      || (RuneStart(value[start]) && start + DecodeSize(value[start..]) <= limit)
    ensures !Straddles(value, limit, s)
  {
    if Straddles(value, limit, s) {
      Inside(value, s, limit);
      if s < start && limit - start < 4 {
        Inside(value, s, start);
      }
    }
  }

  // ---- How much is lost, and when ----

  /** A prefix, at most `limit` bytes, within three bytes of what fits. */
  lemma TruncatedBounds(value: Bytes, limit: nat)
    ensures Truncated(value, limit) <= value
    ensures Min(|value|, limit) - 3 <= |Truncated(value, limit)| <= limit
    ensures Truncated(value, limit) == value <==> |value| <= limit
  {
  }

  /** Bytes short of the limit are given up exactly when a well-formed character crosses it. */
  lemma ShortIff(value: Bytes, limit: nat)
    requires |value| > limit
    ensures |Truncated(value, limit)| < limit <==> exists s: nat :: Straddles(value, limit, s)
  {
  }

  // ---- Well-formed text ----

  lemma WidthPrefix(s: Bytes, t: Bytes)
    requires s <= t && Width(s) > 0
    ensures Width(t) == Width(s)
  {
    assert forall i | 0 <= i < |s| :: s[i] == t[i];
  }

  /** Past the first character, a prefix is well formed when what is left of it is. */
  lemma Utf8Beyond(value: Bytes, n: nat)
    requires 0 < Width(value) && n <= |value|
    ensures n > 0 && Utf8(value[..n]) ==> Width(value) <= n
    ensures Width(value) <= n ==> (Utf8(value[..n]) <==> Utf8(value[Width(value)..][..n - Width(value)]))
  {
    var w := Width(value);
    var front := value[..n];
    if w <= n {
      WidthOfCut(value, n);
      assert front[w..] == value[w..][..n - w];
    } else if n > 0 && Width(front) > 0 {
      WidthPrefix(front, value);
    }
  }

  /** Every place in well-formed text is between two characters or within one. */
  lemma {:induction false} Boundary(value: Bytes, k: nat) returns (s: nat)
    requires Utf8(value) && k <= |value|
    ensures s <= k && Utf8(value[..s])
    ensures s == k || k < s + Width(value[s..])
    decreases |value|
  {
    var w := Width(value);
    if k == 0 || k < w {
      s := 0;
      assert value[0..] == value;
    } else {
      var t := Boundary(value[w..], k - w);
      s := t + w;
      Utf8Beyond(value, s);
      assert value[w..][t..] == value[s..];
    }
  }

  lemma FirstEndsWithin(value: Bytes, n: nat, s: nat)
    requires s < n <= |value| && 0 < Width(value) <= n && s < Width(value)
    ensures s + Width(value[s..]) <= n
  {
    assert value[0..] == value;
    if 0 < s {
      Inside(value, 0, s);
    }
  }

  lemma FrontWidth(value: Bytes, n: nat)
    requires 0 < n <= |value| && Utf8(value[..n])
    ensures 0 < Width(value) <= n && Utf8(value[Width(value)..][..n - Width(value)])
  {
    WidthPrefix(value[..n], value);
    assert value[..n][Width(value)..] == value[Width(value)..][..n - Width(value)];
  }

  /** A character that starts within a well-formed prefix ends within it. */
  lemma {:induction false} EndsWithin(value: Bytes, n: nat, s: nat)
    requires s < n <= |value| && Utf8(value[..n])
    ensures s + Width(value[s..]) <= n
    decreases |value|
  {
    FrontWidth(value, n);
    var w := Width(value);
    if s < w {
      FirstEndsWithin(value, n, s);
    } else {
      assert value[w..][s - w..] == value[s..];
      EndsWithin(value[w..], n - w, s - w);
    }
  }

  lemma CutWellFormed(value: Bytes, limit: nat)
    requires Utf8(value)
    ensures Utf8(Truncated(value, limit))
  {
    if |value| <= limit {
      assert value[..|value|] == value;
    } else {
      var s := Boundary(value, limit);
      if s < limit {
        CutAt(value, limit, s);
      } else {
        forall t: nat | Straddles(value, limit, t)
          ensures false
        {
          EndsWithin(value, limit, t);
        }
      }
    }
  }

  lemma CutLongest(value: Bytes, limit: nat, n: nat)
    requires n <= limit && n <= |value| && Utf8(value[..n])
    ensures n <= Cut(value, limit)
  {
    var s := Cut(value, limit);
    if s < n {
      EndsWithin(value, n, s);
    }
  }

  lemma WidthOfCut(value: Bytes, n: nat)
    requires Width(value) <= n <= |value|
    ensures Width(value[..n]) == Width(value)
  {
    assert forall i | 0 <= i < n :: value[..n][i] == value[i];
  }

  /** Of well-formed text, truncation keeps the longest well-formed prefix that fits. */
  lemma LongestPrefix(value: Bytes, limit: nat, n: nat)
    requires Utf8(value)
    ensures Utf8(Truncated(value, limit)) && Truncated(value, limit) <= value
    ensures |Truncated(value, limit)| <= limit
    ensures n <= limit && n <= |value| && Utf8(value[..n]) ==> n <= |Truncated(value, limit)|
  {
    CutWellFormed(value, limit);
    if n <= limit && n <= |value| && Utf8(value[..n]) {
      CutLongest(value, limit, n);
    }
  }

  // ---- Truncating twice ----

  lemma WidthLocal(s: Bytes, t: Bytes)
    requires |s| >= 4 && |t| >= 4 && s[..4] == t[..4]
    ensures Width(s) == Width(t)
  {
    assert forall i | 0 <= i < 4 :: s[i] == s[..4][i] && t[i] == t[..4][i];
  }

  /** The cut is settled by the first `limit + 3` bytes. */
  lemma CutLocal(s: Bytes, t: Bytes, limit: nat)
    requires |s| >= limit + 3 && |t| >= limit + 3 && s[..limit + 3] == t[..limit + 3]
    requires |s| > limit && |t| > limit
    ensures Truncated(s, limit) == Truncated(t, limit)
  {
    forall k: nat | k < limit
      ensures Straddles(s, limit, k) <==> Straddles(t, limit, k)
    {
      assert s[k..][..4] == s[..limit + 3][k..k + 4];
      assert t[k..][..4] == t[..limit + 3][k..k + 4];
      WidthLocal(s[k..], t[k..]);
    }
    if k: nat :| Straddles(s, limit, k) {
      CutAt(s, limit, k);
      CutAt(t, limit, k);
    }
    var n := Cut(s, limit);
    assert Cut(t, limit) == n;
    assert s[..n] == s[..limit + 3][..n];
    assert t[..n] == t[..limit + 3][..n];
  }

  /** Truncating a detail first, then the whole with at least six more bytes in front, is truncating once. */
  lemma NestedTruncation(prefix: Bytes, detail: Bytes, limit: nat)
    requires |prefix| >= 6
    ensures Truncated(prefix + Truncated(detail, limit), limit) == Truncated(prefix + detail, limit)
  {
    if |detail| > limit {
      TruncatedBounds(detail, limit);
      var r := Truncated(detail, limit);
      var s, t := prefix + r, prefix + detail;
      assert |s| >= limit + 3 && s == t[..|s|];
      assert s[..limit + 3] == t[..limit + 3];
      CutLocal(s, t, limit);
    } else {
      assert Truncated(detail, limit) == detail;
    }
  }

  // ---- The transport error's message ----

  const LIMIT: nat := 2048

  /** "TrustedRouter endpoint unavailable: " */
  const PREFIX: Bytes := [
    84, 114, 117, 115, 116, 101, 100, 82, 111, 117, 116, 101, 114, 32,
    101, 110, 100, 112, 111, 105, 110, 116, 32,
    117, 110, 97, 118, 97, 105, 108, 97, 98, 108, 101, 58, 32]

  /** "unknown transport error" */
  const UNKNOWN: Bytes := [
    117, 110, 107, 110, 111, 119, 110, 32, 116, 114, 97, 110, 115, 112, 111, 114, 116, 32, 101, 114, 114, 111, 114]

  /** "unprintable transport error" */
  const UNPRINTABLE: Bytes := [
    117, 110, 112, 114, 105, 110, 116, 97, 98, 108, 101, 32,
    116, 114, 97, 110, 115, 112, 111, 114, 116, 32, 101, 114, 114, 111, 114]

  /** What rendering the caller's error does: nothing to render, a panic, or some bytes. */
  datatype Rendering = NoError | Panics | Text(bytes: Bytes)

  function Full(e: Rendering): Bytes {
    match e
    case NoError => UNKNOWN
    case Panics => UNPRINTABLE
    case Text(bytes) => bytes
  }

  method SafeErrorMessage(e: Rendering) returns (message: Bytes)
    ensures message == Truncated(Full(e), LIMIT)
  {
    match e
    case NoError => message := UNKNOWN;
    case Panics => message := UNPRINTABLE;
    case Text(bytes) => message := TruncateString(bytes, LIMIT);
  }

  /** One truncation of the prefix and the whole detail; never over the limit, and well formed when the detail is. */
  method TransportRetryError(e: Rendering) returns (message: Bytes)
    ensures message == Truncated(PREFIX + Full(e), LIMIT)
    ensures |message| <= LIMIT && PREFIX <= message
    ensures Utf8(Full(e)) ==> Utf8(message)
  {
    var detail := SafeErrorMessage(e);
    message := TruncateString(PREFIX + detail, LIMIT);
    NestedTruncation(PREFIX, Full(e), LIMIT);
    MessageShape(PREFIX, Full(e), LIMIT);
  }

  lemma {:induction false} AsciiFront(front: Bytes, s: Bytes)
    requires forall i | 0 <= i < |front| :: front[i] < 128
    ensures Utf8(front + s) <==> Utf8(s)
  {
    if front == [] {
      assert front + s == s;
    } else {
      AsciiFront(front[1..], s);
      assert (front + s)[1..] == front[1..] + s;
    }
  }

  lemma MessageShape(prefix: Bytes, full: Bytes, limit: nat)
    requires |prefix| + 3 <= limit && forall i | 0 <= i < |prefix| :: prefix[i] < 128
    ensures prefix <= Truncated(prefix + full, limit)
    ensures Utf8(full) ==> Utf8(Truncated(prefix + full, limit))
  {
    var whole := prefix + full;
    TruncatedBounds(whole, limit);
    AsciiFront(prefix, full);
    if Utf8(full) {
      CutWellFormed(whole, limit);
    }
  }
}
