/** Base64 as section 4 of RFC 4648 gives it: the codec under `encode` and `decode`
    in gateway/pa_gateway.py and backend/src/tm1/gateway/relay.py. */
module Base64 {
  import opened Prelude

  type byte = x: int | 0 <= x < 256
  type sextet = x: int | 0 <= x < 64

  const PAD := '='

  function Symbol(v: sextet): char {
    if v < 26 then 'A' + v as char
    else if v < 52 then 'a' + (v - 26) as char
    else if v < 62 then '0' + (v - 52) as char
    else if v == 62 then '+' else '/'
  }

  function ValueOf(c: char): Option<sextet> {
    if 'A' <= c <= 'Z' then Some((c - 'A') as int)
    else if 'a' <= c <= 'z' then Some((c - 'a') as int + 26)
    else if '0' <= c <= '9' then Some((c - '0') as int + 52)
    else if c == '+' then Some(62)
    else if c == '/' then Some(63)
    else None
  }

  lemma SymbolHasItsValue(v: sextet)
    ensures ValueOf(Symbol(v)) == Some(v) && Symbol(v) != PAD
  {
  }

  // A quantum of 24 bits is three bytes and four sextets.

  function Bits(a: byte, b: byte, c: byte): nat {
    (a * 256 + b) * 256 + c
  }

  function Quad(n: nat): string
    requires n < 0x1000000
  {
    [Symbol(n / 64 / 64 / 64), Symbol(n / 64 / 64 % 64), Symbol(n / 64 % 64), Symbol(n % 64)]
  }

  /** The quantum four symbols stand for. */
  function Unquad(t: string): (n: Option<nat>)
    requires |t| == 4
    ensures n.Some? ==> n.value < 0x1000000
  {
    var a, b, c, d := ValueOf(t[0]), ValueOf(t[1]), ValueOf(t[2]), ValueOf(t[3]);
    if a.None? || b.None? || c.None? || d.None? then None
    else Some(((a.value * 64 + b.value) * 64 + c.value) * 64 + d.value)
  }

  function Encode(data: seq<byte>): string {
    if data == [] then ""
    else if |data| == 1 then Quad(Bits(data[0], 0, 0))[..2] + [PAD, PAD]
    else if |data| == 2 then Quad(Bits(data[0], data[1], 0))[..3] + [PAD]
    else Quad(Bits(data[0], data[1], data[2])) + Encode(data[3..])
  }

  function First(n: nat): byte
    requires n < 0x1000000
  {
    n / 256 / 256
  }

  function Second(n: nat): byte {
    n / 256 % 256
  }

  function Third(n: nat): byte {
    n % 256
  }

  /** The bytes a final quantum gives: one when it ends "==", two when it ends "=". */
  function DecodeLast(t: string): Option<seq<byte>>
    requires |t| == 4
  {
    if t[3] != PAD then
      var n := Unquad(t);
      if n.None? then None else Some([First(n.value), Second(n.value), Third(n.value)])
    else if t[2] != PAD then
      var n := Unquad(t[..3] + [Symbol(0)]);
      if n.None? then None else Some([First(n.value), Second(n.value)])
    else
      var n := Unquad(t[..2] + [Symbol(0), Symbol(0)]);
      if n.None? then None else Some([First(n.value)])
  }

  function Decode(text: string): Option<seq<byte>> {
    if text == "" then Some([])
    else if |text| < 4 then None
    else if |text| == 4 then DecodeLast(text)
    else
      var n, rest := Unquad(text[..4]), Decode(text[4..]);
      if n.None? || rest.None? then None
      else Some([First(n.value), Second(n.value), Third(n.value)] + rest.value)
  }

  lemma QuadRoundTrip(n: nat)
    requires n < 0x1000000
    ensures Unquad(Quad(n)) == Some(n)
    ensures forall i :: 0 <= i < 4 ==> Quad(n)[i] != PAD
  {
    hide Symbol, ValueOf;
    var top, high, low := n / 64 / 64 / 64, n / 64 / 64, n / 64;
    SymbolHasItsValue(top);
    SymbolHasItsValue(high % 64);
    SymbolHasItsValue(low % 64);
    SymbolHasItsValue(n % 64);
  }

  lemma BitsRoundTrip(a: byte, b: byte, c: byte)
    ensures Bits(a, b, c) < 0x1000000
    ensures First(Bits(a, b, c)) == a && Second(Bits(a, b, c)) == b && Third(Bits(a, b, c)) == c
  {
    assert Bits(a, b, c) / 256 == a * 256 + b;
  }

  /** The symbols a padded quantum leaves out stand for zero bits. */
  lemma DroppedSymbols(n: nat)
    requires n < 0x1000000
    ensures n % 256 == 0 ==> Quad(n)[3] == Symbol(0)
    ensures n % 65536 == 0 ==> Quad(n)[2] == Symbol(0)
  {
    hide Symbol;
    var low, high := n / 256, n / 65536;
    if n % 256 == 0 { assert n == 64 * (4 * low); }
    if n % 65536 == 0 { assert n == 64 * (64 * (16 * high)) && n / 64 == 64 * (16 * high); }
  }

  /** One byte needs two symbols, two need three. */
  lemma PaddedRoundTrip(data: seq<byte>)
    requires 1 <= |data| <= 2
    ensures |Encode(data)| == 4 && DecodeLast(Encode(data)) == Some(data)
  {
    hide Symbol, Unquad, Quad, Bits, First, Second, Third;
    var a, b := data[0], if |data| > 1 then data[1] else 0;
    var n := Bits(a, b, 0);
    BitsRoundTrip(a, b, 0);
    QuadRoundTrip(n);
    DroppedSymbols(n);
    ZeroBits(a, b);
    QuadLength(n);
    if |data| == 1 {
      assert Encode(data)[..2] + [Symbol(0), Symbol(0)] == Quad(n);
      assert data == [a];
    } else {
      assert Encode(data)[..3] + [Symbol(0)] == Quad(n);
      assert Encode(data)[2] == Quad(n)[2];
      assert data == [a, b];
    }
  }

  lemma QuadLength(n: nat)
    requires n < 0x1000000
    ensures |Quad(n)| == 4
  {
  }

  lemma ZeroBits(a: byte, b: byte)
    ensures Bits(a, b, 0) % 256 == 0
    ensures b == 0 ==> Bits(a, b, 0) % 65536 == 0
  {
    if b == 0 { assert Bits(a, b, 0) == a * 65536; }
  }

  lemma {:induction false} Base64RoundTrip(data: seq<byte>)
    ensures Decode(Encode(data)) == Some(data)
    ensures |Encode(data)| == (|data| + 2) / 3 * 4
    decreases |data|
  {
    hide Decode, Encode, DecodeLast;
    if data == [] {
      NothingEncoded();
    } else if |data| <= 2 {
      PaddedRoundTrip(data);
      PaddedDecodesLast(data);
    } else {
      FullQuantumRoundTrip(data);
      Base64RoundTrip(data[3..]);
      FullQuantumLength(data);
    }
  }

  lemma NothingEncoded()
    ensures Encode([]) == "" && Decode("") == Some([])
  {
  }

  lemma PaddedDecodesLast(data: seq<byte>)
    requires |Encode(data)| == 4
    ensures Decode(Encode(data)) == DecodeLast(Encode(data))
  {
  }

  lemma FullQuantumLength(data: seq<byte>)
    requires |data| >= 3
    ensures |Encode(data)| == 4 + |Encode(data[3..])|
    ensures (|data| + 2) / 3 == 1 + (|data[3..]| + 2) / 3
  {
  }

  lemma FullQuantumRoundTrip(data: seq<byte>)
    requires |data| >= 3
    ensures Decode(Encode(data[3..])) == Some(data[3..]) ==> Decode(Encode(data)) == Some(data)
  {
    hide Symbol, Unquad, Quad, Bits, First, Second, Third, Encode, Decode;
    var n, rest := Bits(data[0], data[1], data[2]), Encode(data[3..]);
    BitsRoundTrip(data[0], data[1], data[2]);
    QuadRoundTrip(n);
    QuadLength(n);
    EncodeStep(data);
    assert data == [data[0], data[1], data[2]] + data[3..];
    DecodeStep(Quad(n), rest);
  }

  lemma EncodeStep(data: seq<byte>)
    requires |data| >= 3
    ensures Bits(data[0], data[1], data[2]) < 0x1000000
    ensures Encode(data) == Quad(Bits(data[0], data[1], data[2])) + Encode(data[3..])
  {
    hide Quad;
  }

  /** Decoding one full quantum and then the rest. */
  lemma DecodeStep(quad: string, rest: string)
    requires |quad| == 4 && quad[3] != PAD && Unquad(quad).Some?
    ensures Decode(quad + rest) ==
      match Decode(rest)
      case Some(later) => Some([First(Unquad(quad).value), Second(Unquad(quad).value), Third(Unquad(quad).value)] + later)
      case None => None
  {
    hide Unquad, First, Second, Third;
    if rest == "" {
      assert quad + rest == quad;
      var n := Unquad(quad).value;
      assert [First(n), Second(n), Third(n)] + [] == [First(n), Second(n), Third(n)];
    } else {
      assert (quad + rest)[..4] == quad && (quad + rest)[4..] == rest;
    }
  }

  /** Table 1 of RFC 4648: five runs of symbols. */
  lemma SymbolTable()
    ensures Symbol(0) == 'A' && Symbol(25) == 'Z' && Symbol(26) == 'a' && Symbol(51) == 'z'
    ensures Symbol(52) == '0' && Symbol(61) == '9' && Symbol(62) == '+' && Symbol(63) == '/'
    ensures forall v: sextet :: v !in {0, 26, 52, 62, 63} ==> Symbol(v) as int == Symbol(v - 1) as int + 1
  {
  }

  /** Vectors from section 10 of RFC 4648: "f", "fo" and "foo". */
  lemma TestVectors()
    ensures Encode([102]) == "Zg==" && Encode([102, 111]) == "Zm8=" && Encode([102, 111, 111]) == "Zm9v"
  {
    assert Encode([102]) == "Zg==" by { FourSymbols(102, 0, 0, 25, 32, 0, 0); }
    assert Encode([102, 111]) == "Zm8=" by { FourSymbols(102, 111, 0, 25, 38, 60, 0); }
    assert Encode([102, 111, 111]) == "Zm9v" by {
      FourSymbols(102, 111, 111, 25, 38, 61, 47);
      assert Encode([102, 111, 111][3..]) == "";
    }
  }

  lemma FourSymbols(a: byte, b: byte, c: byte, i: sextet, j: sextet, k: sextet, l: sextet)
    requires Bits(a, b, c) == ((i * 64 + j) * 64 + k) * 64 + l
    ensures Bits(a, b, c) < 0x1000000
    ensures Quad(Bits(a, b, c)) == [Symbol(i), Symbol(j), Symbol(k), Symbol(l)]
  {
    hide Symbol;
    var n := Bits(a, b, c);
    assert n / 64 == (i * 64 + j) * 64 + k;
    assert n / 64 / 64 == i * 64 + j;
  }
}
