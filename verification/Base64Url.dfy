// Unpadded base64url (sections 5 and 3.5 of RFC 4648), as the receipt decoder
// accepts it: only the canonical spelling of a non-empty byte string.
module Base64Url {
  import opened Options
  import opened ReceiptStream

  type digit = d: int | 0 <= d < 64

  function Symbol(d: digit): char {
    if d < 26 then ('A' as int + d) as char
    else if d < 52 then ('a' as int + (d - 26)) as char
    else if d < 62 then ('0' as int + (d - 52)) as char
    else if d == 62 then '-' else '_'
  }

  predicate InAlphabet(c: char) {
    'A' <= c <= 'Z' || 'a' <= c <= 'z' || '0' <= c <= '9' || c == '_' || c == '-'
  }

  function DigitOf(c: char): digit
    requires InAlphabet(c)
  {
    if 'A' <= c <= 'Z' then c as int - 'A' as int
    else if 'a' <= c <= 'z' then c as int - 'a' as int + 26
    else if '0' <= c <= '9' then c as int - '0' as int + 52
    else if c == '-' then 62 else 63
  }

  lemma SymbolDigit(d: digit, c: char)
    ensures InAlphabet(Symbol(d)) && DigitOf(Symbol(d)) == d
    ensures InAlphabet(c) ==> Symbol(DigitOf(c)) == c
  {
  }

  function Symbols(ds: seq<digit>): (r: string)
    ensures |r| == |ds| && forall i | 0 <= i < |ds| :: r[i] == Symbol(ds[i])
  {
    seq(|ds|, i requires 0 <= i < |ds| => Symbol(ds[i]))
  }

  /** The six-bit digits of a byte string; a short last group is filled with zero bits. */
  function Digits(b: Bytes): seq<digit> {
    if b == [] then []
    else if |b| == 1 then [b[0] / 4, (b[0] % 4) * 16]
    else if |b| == 2 then [b[0] / 4, (b[0] % 4) * 16 + b[1] / 16, (b[1] % 16) * 4]
    else [b[0] / 4, (b[0] % 4) * 16 + b[1] / 16, (b[1] % 16) * 4 + b[2] / 64, b[2] % 64] + Digits(b[3..])
  }

  function Encode(b: Bytes): string {
    Symbols(Digits(b))
  }

  function Low(a: digit, b: digit): byte { a * 4 + b / 16 }

  function Mid(b: digit, c: digit): byte { (b % 16) * 16 + c / 4 }

  function High(c: digit, d: digit): byte { (c % 4) * 64 + d }

  /** The library decoder: it drops the bits a short last group leaves over, and refuses a lone digit. */
  function LaxBytes(ds: seq<digit>): Option<Bytes> {
    if ds == [] then Some([])
    else if |ds| == 1 then None
    else if |ds| == 2 then Some([Low(ds[0], ds[1])])
    else if |ds| == 3 then Some([Low(ds[0], ds[1]), Mid(ds[1], ds[2])])
    else
      var rest := LaxBytes(ds[4..]);
      if rest.None? then None
      else Some([Low(ds[0], ds[1]), Mid(ds[1], ds[2]), High(ds[2], ds[3])] + rest.value)
  }

  function DigitsOf(value: string): (r: seq<digit>)
    requires forall c | c in value :: InAlphabet(c)
    ensures |r| == |value| && forall i | 0 <= i < |value| :: r[i] == DigitOf(value[i])
  {
    seq(|value|, i requires 0 <= i < |value| => DigitOf(value[i]))
  }

  /** The decoder: the alphabet only, and only a spelling that encoding gives back. */
  function Decode(value: string): Option<Bytes> {
    if value == "" || '=' in value || exists c :: c in value && !InAlphabet(c) then None
    else
      var b := LaxBytes(DigitsOf(value));
      if b.None? || Encode(b.value) != value then None else b
  }

  method ReceiptB64URLDecode(value: string) returns (r: Option<Bytes>)
    ensures r == Decode(value)
  {
    if value == "" || '=' in value {
      return None;
    }
    for i := 0 to |value|
      invariant forall j | 0 <= j < i :: InAlphabet(value[j])
    {
      var c := value[i];
      if (c < 'A' || c > 'Z') && (c < 'a' || c > 'z') && (c < '0' || c > '9') && c != '_' && c != '-' {
        assert c in value && !InAlphabet(c);
        return None;
      }
    }
    var b := LaxBytes(DigitsOf(value));
    if b.None? || Encode(b.value) != value {
      return None;
    }
    return b;
  }

  // ---- Decoding undoes encoding ----

  lemma OneByte(a: byte)
    ensures (a / 4) * 4 + ((a % 4) * 16) / 16 == a
  {
  }

  lemma TwoBytes(a: byte, b: byte)
    ensures var m := (a % 4) * 16 + b / 16;
      (a / 4) * 4 + m / 16 == a && (m % 16) * 16 + ((b % 16) * 4) / 4 == b
  {
    assert ((a % 4) * 16 + b / 16) / 16 == a % 4;
    assert ((a % 4) * 16 + b / 16) % 16 == b / 16;
  }

  lemma ThreeBytes(a: byte, b: byte, c: byte)
    ensures var m, n := (a % 4) * 16 + b / 16, (b % 16) * 4 + c / 64;
      (a / 4) * 4 + m / 16 == a && (m % 16) * 16 + n / 4 == b && (n % 4) * 64 + c % 64 == c
  {
    assert ((a % 4) * 16 + b / 16) / 16 == a % 4;
    assert ((a % 4) * 16 + b / 16) % 16 == b / 16;
    assert ((b % 16) * 4 + c / 64) / 4 == b % 16;
    assert ((b % 16) * 4 + c / 64) % 4 == c / 64;
  }

  lemma LaxOne(a: byte)
    ensures LaxBytes(Digits([a])) == Some([a])
  {
    OneByte(a);
    var ds: seq<digit> := [a / 4, (a % 4) * 16];
    assert Digits([a]) == ds;
    assert LaxBytes(ds) == Some([Low(ds[0], ds[1])]);
  }

  lemma LaxTwo(a: byte, b: byte)
    ensures LaxBytes(Digits([a, b])) == Some([a, b])
  {
    TwoBytes(a, b);
    var ds: seq<digit> := [a / 4, (a % 4) * 16 + b / 16, (b % 16) * 4];
    assert Digits([a, b]) == ds;
    assert LaxBytes(ds) == Some([Low(ds[0], ds[1]), Mid(ds[1], ds[2])]);
  }

  lemma LaxThree(a: byte, b: byte, c: byte, rest: Bytes)
    requires LaxBytes(Digits(rest)) == Some(rest)
    ensures LaxBytes(Digits([a, b, c] + rest)) == Some([a, b, c] + rest)
  {
    ThreeBytes(a, b, c);
    var whole := [a, b, c] + rest;
    assert whole[3..] == rest;
    var four: seq<digit> := [a / 4, (a % 4) * 16 + b / 16, (b % 16) * 4 + c / 64, c % 64];
    var ds := four + Digits(rest);
    assert Digits(whole) == ds;
    assert ds[4..] == Digits(rest);
    assert LaxBytes(ds) == Some([Low(ds[0], ds[1]), Mid(ds[1], ds[2]), High(ds[2], ds[3])] + rest);
  }

  lemma {:induction false} LaxDigits(b: Bytes)
    ensures LaxBytes(Digits(b)) == Some(b)
  {
    if |b| == 1 {
      assert b == [b[0]];
      LaxOne(b[0]);
    } else if |b| == 2 {
      assert b == [b[0], b[1]];
      LaxTwo(b[0], b[1]);
    } else if |b| >= 3 {
      LaxDigits(b[3..]);
      assert b == [b[0], b[1], b[2]] + b[3..];
      LaxThree(b[0], b[1], b[2], b[3..]);
    }
  }

  lemma SymbolsDigits(ds: seq<digit>)
    ensures forall c | c in Symbols(ds) :: InAlphabet(c)
    ensures DigitsOf(Symbols(ds)) == ds
    ensures '=' !in Symbols(ds)
  {
    forall i | 0 <= i < |ds|
      ensures InAlphabet(Symbols(ds)[i]) && DigitOf(Symbols(ds)[i]) == ds[i]
    {
      SymbolDigit(ds[i], 'A');
    }
  }

  /** Decoding the encoding of a non-empty byte string gives it back. */
  lemma DecodeEncode(b: Bytes)
    requires b != []
    ensures Decode(Encode(b)) == Some(b)
  {
    LaxDigits(b);
    SymbolsDigits(Digits(b));
  }

  /** Exactly the encodings of non-empty byte strings are accepted. */
  lemma AcceptedIff(value: string)
    ensures Decode(value).Some? <==> exists b: Bytes :: b != [] && Encode(b) == value
  {
    if Decode(value).Some? {
      var b := Decode(value).value;
      assert Encode(b) == value;
      assert b != [];
    }
    forall b: Bytes | b != [] && Encode(b) == value
      ensures Decode(value).Some?
    {
      DecodeEncode(b);
    }
  }

  /** No two accepted strings decode to the same bytes, and encoding gives each back. */
  lemma DecodeInjective(s: string, t: string)
    requires Decode(s).Some? && Decode(t).Some?
    ensures Decode(s) == Decode(t) <==> s == t
    ensures Encode(Decode(s).value) == s
  {
  }

  // ---- The condition a caller can check ----

  /** No lone last digit, and no bits left over in a short last group. */
  predicate NoLeftover(ds: seq<digit>) {
    var n := |ds| % 4;
    n != 1 && (n == 2 ==> ds[|ds| - 1] % 16 == 0) && (n == 3 ==> ds[|ds| - 1] % 4 == 0)
  }

  lemma FourDigits(a: digit, b: digit, c: digit, d: digit)
    ensures var x, y, z := Low(a, b), Mid(b, c), High(c, d);
      x / 4 == a && (x % 4) * 16 + y / 16 == b && (y % 16) * 4 + z / 64 == c && z % 64 == d
  {
    assert (a * 4 + b / 16) / 4 == a && (a * 4 + b / 16) % 4 == b / 16;
    assert ((b % 16) * 16 + c / 4) / 16 == b % 16 && ((b % 16) * 16 + c / 4) % 16 == c / 4;
    assert ((c % 4) * 64 + d) / 64 == c % 4 && ((c % 4) * 64 + d) % 64 == d;
  }

  lemma ThreeDigits(a: digit, b: digit, c: digit)
    ensures var x, y := Low(a, b), Mid(b, c);
      x / 4 == a && (x % 4) * 16 + y / 16 == b && ((y % 16) * 4 == c <==> c % 4 == 0)
  {
    assert (a * 4 + b / 16) / 4 == a && (a * 4 + b / 16) % 4 == b / 16;
    assert ((b % 16) * 16 + c / 4) / 16 == b % 16 && ((b % 16) * 16 + c / 4) % 16 == c / 4;
  }

  /** Some spelling in digits is the one encoding gives. */
  predicate Canonical(ds: seq<digit>) {
    LaxBytes(ds).Some? && Digits(LaxBytes(ds).value) == ds
  }

  lemma CanonicalTwo(a: digit, b: digit)
    ensures Canonical([a, b]) <==> b % 16 == 0
  {
    var ds := [a, b];
    var x := Low(a, b);
    assert LaxBytes(ds) == Some([x]);
    assert x / 4 == a && x % 4 == b / 16;
    assert Digits([x]) == [x / 4, (x % 4) * 16];
  }

  lemma CanonicalThree(a: digit, b: digit, c: digit)
    ensures Canonical([a, b, c]) <==> c % 4 == 0
  {
    var ds := [a, b, c];
    var x, y := Low(a, b), Mid(b, c);
    ThreeDigits(a, b, c);
    assert LaxBytes(ds) == Some([x, y]);
    assert Digits([x, y]) == [x / 4, (x % 4) * 16 + y / 16, (y % 16) * 4];
  }

  lemma CanonicalFour(a: digit, b: digit, c: digit, d: digit, rest: seq<digit>)
    ensures Canonical([a, b, c, d] + rest) <==> Canonical(rest)
  {
    var ds := [a, b, c, d] + rest;
    assert ds[4..] == rest;
    if LaxBytes(rest).Some? {
      var tail := LaxBytes(rest).value;
      var x, y, z := Low(a, b), Mid(b, c), High(c, d);
      var whole := [x, y, z] + tail;
      assert LaxBytes(ds) == Some(whole);
      assert whole[3..] == tail;
      FourDigits(a, b, c, d);
      assert Digits(whole) == [a, b, c, d] + Digits(tail);
      assert Digits(whole)[4..] == Digits(tail);
    }
  }

  lemma {:induction false} CanonicalIff(ds: seq<digit>)
    ensures Canonical(ds) <==> NoLeftover(ds)
  {
    if |ds| == 2 {
      assert ds == [ds[0], ds[1]];
      CanonicalTwo(ds[0], ds[1]);
    } else if |ds| == 3 {
      assert ds == [ds[0], ds[1], ds[2]];
      CanonicalThree(ds[0], ds[1], ds[2]);
    } else if |ds| >= 4 {
      var rest := ds[4..];
      CanonicalIff(rest);
      assert ds == [ds[0], ds[1], ds[2], ds[3]] + rest;
      CanonicalFour(ds[0], ds[1], ds[2], ds[3], rest);
      NoLeftoverTail(ds);
    }
  }

  lemma NoLeftoverTail(ds: seq<digit>)
    requires |ds| >= 4
    ensures NoLeftover(ds) <==> NoLeftover(ds[4..])
  {
    var rest := ds[4..];
    assert |ds| % 4 == |rest| % 4;
    assert rest != [] ==> rest[|rest| - 1] == ds[|ds| - 1];
  }

  /** Acceptance, spelled out: non-empty, only the alphabet, no lone digit, and zero bits at the end of a short group. */
  lemma AcceptedSpelling(value: string)
    ensures Decode(value).Some? <==>
      value != "" && (forall c | c in value :: InAlphabet(c)) && NoLeftover(DigitsOf(value))
  {
    if value != "" && forall c | c in value :: InAlphabet(c) {
      var ds := DigitsOf(value);
      CanonicalIff(ds);
      assert Symbols(ds) == value by {
        forall i | 0 <= i < |value|
          ensures Symbols(ds)[i] == value[i]
        {
          assert value[i] in value;
          SymbolDigit(0, value[i]);
        }
      }
      if LaxBytes(ds).Some? {
        var es := Digits(LaxBytes(ds).value);
        SymbolsDigits(es);
        SymbolsDigits(ds);
        assert Symbols(es) == Symbols(ds) <==> es == ds;
      }
    }
  }
}
