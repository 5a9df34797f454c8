/** Recursive-length-prefix encoding (`devnet/frametx.py`, Appendix B of the Ethereum
    Yellow Paper), below the length limit of 2^64 bytes, with the decoder that
    inverts it. */
module Rlp {
  import opened Wrappers
  import opened Powers
  import opened Bytes

  function BitLength(n: nat): nat {
    if n == 0 then 0 else 1 + BitLength(n / 2)
  }

  /** `n.to_bytes((n.bit_length() + 7) // 8, "big")` */
  function Minimal(n: nat): seq<Byte> {
    ToBE(n, (BitLength(n) + 7) / 8)
  }

  // ---- minimal integers ----

  lemma {:induction false} BitLengthBounds(n: nat)
    ensures n < Pow2(BitLength(n))
    ensures n > 0 ==> Pow2(BitLength(n) - 1) <= n
  {
    if n == 0 {
    } else {
      BitLengthBounds(n / 2);
    }
  }

  lemma {:induction false} Pow2Mono(a: nat, b: nat)
    requires a <= b
    ensures Pow2(a) <= Pow2(b)
  {
    if a == b {
    } else {
      Pow2Mono(a, b - 1);
    }
  }

  /** The bytes hold the number, with no leading zero. */
  lemma MinimalFits(n: nat)
    ensures n < Pow256(|Minimal(n)|)
    ensures n > 0 ==> |Minimal(n)| > 0 && Pow256(|Minimal(n)| - 1) <= n
  {
    var k := |Minimal(n)|;
    BitLengthBounds(n);
    Pow256IsPow2(k);
    Pow2Mono(BitLength(n), 8 * k);
    if n > 0 {
      Pow256IsPow2(k - 1);
      Pow2Mono(8 * (k - 1), BitLength(n) - 1);
    }
  }

  /** `Minimal` is inverted by reading all its bytes. */
  lemma MinimalReads(n: nat)
    ensures ReadBE(Minimal(n), 0, |Minimal(n)|) == n
  {
    MinimalFits(n);
    ReadBack(Minimal(n), 0, n, |Minimal(n)|);
  }

  lemma {:induction false} Pow256Mono(a: nat, b: nat)
    requires a <= b
    ensures Pow256(a) <= Pow256(b)
  {
    if a == b {
    } else {
      Pow256Mono(a, b - 1);
    }
  }

  /** A number below 2^64 takes at most eight bytes. */
  lemma EightBytes(n: nat)
    requires n < WORD64
    ensures |Minimal(n)| <= 8 && (n > 0 ==> |Minimal(n)| >= 1)
  {
    MinimalFits(n);
    var k := |Minimal(n)|;
    if k > 8 {
      Pow256Mono(8, k - 1);
      Pow256Values(8);
    }
  }

  // ---- strings, lists and integers ----

  /** The byte in front of the length bytes is one byte: what `bytes([...])` demands. */
  predicate Writable(short: nat, n: nat) {
    n < 56 || short + 55 + |Minimal(n)| < 256
  }

  /** The prefix of a payload of `n` bytes. */
  function Header(short: nat, n: nat): seq<Byte>
    requires Writable(short, n) && (short == 0x80 || short == 0xc0)
  {
    if n < 56 then [short + n] else [short + 55 + |Minimal(n)|] + Minimal(n)
  }

  /** Both prefixes can be written for every payload below 2^64 bytes. */
  lemma ShortIsWritable(n: nat)
    requires n < WORD64
    ensures Writable(0x80, n) && Writable(0xc0, n)
  {
    EightBytes(n);
  }

  /** The limit is sharp.  From 2^64 bytes on, a list's prefix cannot be written at all, and
      a string's, where it can, begins with a byte of the list range. */
  lemma BeyondTheLimit(n: nat)
    requires n >= WORD64
    ensures !Writable(0xc0, n)
    ensures Writable(0x80, n) ==> Header(0x80, n)[0] >= 0xc0
  {
    MinimalFits(n);
    var k := |Minimal(n)|;
    Pow256Values(8);
    if k < 9 { Pow256Mono(k, 8); }
  }

  function RlpBytes(b: seq<Byte>): seq<Byte>
    requires |b| < WORD64
  {
    ShortIsWritable(|b|);
    if |b| == 1 && b[0] < 0x80 then b else Header(0x80, |b|) + b
  }

  function Join(items: seq<seq<Byte>>): seq<Byte> {
    if items == [] then [] else items[0] + Join(items[1..])
  }

  function RlpList(items: seq<seq<Byte>>): seq<Byte>
    requires |Join(items)| < WORD64
  {
    ShortIsWritable(|Join(items)|);
    Header(0xc0, |Join(items)|) + Join(items)
  }

  /** Zero is the empty string. */
  function RlpInt(x: nat): seq<Byte>
    requires |Minimal(x)| < WORD64
  {
    RlpBytes(Minimal(x))
  }

  // ---- items ----

  datatype Item = Str(bytes: seq<Byte>) | List(items: seq<Item>)

  function HeaderLength(n: nat): nat { if n < 56 then 1 else 1 + |Minimal(n)| }

  /** Bytes an item takes on the wire. */
  function Length(i: Item): nat
    decreases i, 1
  {
    match i
    case Str(b) => if |b| == 1 && b[0] < 0x80 then 1 else HeaderLength(|b|) + |b|
    case List(items) => HeaderLength(LengthAll(items)) + LengthAll(items)
  }

  function LengthAll(items: seq<Item>): nat
    decreases items, 0
  {
    if items == [] then 0 else Length(items[0]) + LengthAll(items[1..])
  }

  /** Every payload is below the length limit. */
  predicate ItemOk(i: Item)
    decreases i, 1
  {
    match i
    case Str(b) => |b| < WORD64
    case List(items) => ItemsOk(items) && LengthAll(items) < WORD64
  }

  predicate ItemsOk(items: seq<Item>)
    decreases items, 0
  {
    forall i: nat | i < |items| :: ItemOk(items[i])
  }

  function Encode(i: Item): (b: seq<Byte>)
    requires ItemOk(i)
    ensures |b| == Length(i) > 0
    decreases i, 1
  {
    match i
    case Str(b) => RlpBytes(b)
    case List(items) =>
      ShortIsWritable(|EncodeAll(items)|);
      Header(0xc0, |EncodeAll(items)|) + EncodeAll(items)
  }

  function EncodeAll(items: seq<Item>): (b: seq<Byte>)
    requires ItemsOk(items)
    ensures |b| == LengthAll(items)
    decreases items, 0
  {
    if items == [] then [] else Encode(items[0]) + EncodeAll(items[1..])
  }

  /** An encodable item of at most `n` bytes on the wire. */
  predicate Short(i: Item, n: nat) { ItemOk(i) && Length(i) <= n }

  lemma ShortStr(b: seq<Byte>, n: nat)
    requires |b| <= n < WORD64
    ensures Short(Str(b), n + 9)
  {
    EightBytes(|b|);
  }

  lemma OneMore(k: nat, n: nat)
    ensures (k + 1) * n == k * n + n
  {
  }

  lemma {:induction false} LengthAllBound(items: seq<Item>, n: nat)
    requires forall i: nat | i < |items| :: Length(items[i]) <= n
    ensures LengthAll(items) <= |items| * n
    decreases |items|
  {
    if items == [] {
    } else {
      LengthAllBound(items[1..], n);
      OneMore(|items[1..]|, n);
    }
  }

  lemma ShortList(items: seq<Item>, n: nat, total: nat)
    requires (forall i: nat | i < |items| :: Short(items[i], n)) && |items| * n <= total < WORD64
    ensures Short(List(items), total + 9)
  {
    LengthAllBound(items, n);
    EightBytes(LengthAll(items));
  }

  // ---- the decoder ----

  /** A prefix read back: whether it announces a list, where the payload starts, and how
      long it is.  A single small byte is its own payload. */
  function ReadHeader(data: seq<Byte>): (r: (bool, nat, nat))
    requires data != []
  {
    var b := data[0];
    if b < 0x80 then (false, 0, 1)
    else if b < 0xb8 then (false, 1, b - 0x80)
    else if b < 0xc0 then (false, 1 + (b - 0xb7), ReadBE(data, 1, b - 0xb7))
    else if b < 0xf8 then (true, 1, b - 0xc0)
    else (true, 1 + (b - 0xf7), ReadBE(data, 1, b - 0xf7))
  }

  /** The item at the front and how many bytes it took. */
  function DecodeOne(data: seq<Byte>): (r: Option<(Item, nat)>)
    ensures r.Some? ==> 0 < r.value.1 <= |data|
    decreases |data|, 0
  {
    if data == [] then None
    else
      var h := ReadHeader(data);
      var end := h.1 + h.2;
      if end > |data| || end == 0 then None
      else if h.0 then
        (match DecodeAll(data[h.1..end]) case None => None case Some(items) => Some((List(items), end)))
      else Some((Str(data[h.1..end]), end))
  }

  function DecodeAll(data: seq<Byte>): Option<seq<Item>>
    decreases |data|, 1
  {
    if data == [] then Some([])
    else match DecodeOne(data)
      case None => None
      case Some((item, n)) =>
        match DecodeAll(data[n..]) case None => None case Some(rest) => Some([item] + rest)
  }

  // ---- round trip ----

  /** The header of a payload of `n` bytes, read back from the front of a message. */
  lemma HeaderReads(short: nat, n: nat, rest: seq<Byte>)
    requires n < WORD64 && (short == 0x80 || short == 0xc0)
    ensures Writable(short, n)
    ensures var data := Header(short, n) + rest;
            data != [] && ReadHeader(data) == (short == 0xc0, HeaderLength(n), n)
            && |Header(short, n)| == HeaderLength(n)
  {
    ShortIsWritable(n);
    if n >= 56 {
      EightBytes(n);
      var lb, data := Minimal(n), Header(short, n) + rest;
      MinimalFits(n);
      assert data[1..1 + |lb|] == lb;
      ReadBack(data, 1, n, |lb|);
    }
  }

  /** One step of the decoder on a string whose header has been read. */
  lemma DecodeStrBody(head: seq<Byte>, b: seq<Byte>, rest: seq<Byte>)
    requires head != [] && ReadHeader(head + (b + rest)) == (false, |head|, |b|)
    ensures DecodeOne(head + (b + rest)) == Some((Str(b), |head| + |b|))
  {
    SliceBehind(head, b + rest, 0, |b|);
    assert (b + rest)[0..|b|] == b;
  }

  lemma DecodeStr(b: seq<Byte>, rest: seq<Byte>)
    requires |b| < WORD64
    ensures DecodeOne(RlpBytes(b) + rest) == Some((Str(b), |RlpBytes(b)|))
  {
    if |b| == 1 && b[0] < 0x80 {
      assert (b + rest)[0..1] == b;
    } else {
      ShortIsWritable(|b|);
      var head := Header(0x80, |b|);
      HeaderReads(0x80, |b|, b + rest);
      DecodeStrBody(head, b, rest);
      assert head + b + rest == head + (b + rest);
    }
  }

  lemma DecodeList(body: seq<Byte>, items: seq<Item>, rest: seq<Byte>)
    requires |body| < WORD64 && DecodeAll(body) == Some(items)
    ensures Writable(0xc0, |body|)
    ensures DecodeOne(Header(0xc0, |body|) + body + rest) == Some((List(items), |Header(0xc0, |body|) + body|))
  {
    ShortIsWritable(|body|);
    var data := Header(0xc0, |body|) + body + rest;
    assert data == Header(0xc0, |body|) + (body + rest);
    HeaderReads(0xc0, |body|, body + rest);
    assert data[HeaderLength(|body|)..HeaderLength(|body|) + |body|] == body;
  }

  /** The decoder takes exactly the encoded item off the front. */
  lemma {:induction false} DecodeEncode(i: Item, rest: seq<Byte>)
    requires ItemOk(i)
    ensures DecodeOne(Encode(i) + rest) == Some((i, |Encode(i)|))
    decreases i, 1
  {
    match i
    case Str(b) => DecodeStr(b, rest);
    case List(items) =>
      DecodeEncodeAll(items);
      DecodeList(EncodeAll(items), items, rest);
  }

  lemma {:induction false} DecodeEncodeAll(items: seq<Item>)
    requires ItemsOk(items)
    ensures DecodeAll(EncodeAll(items)) == Some(items)
    decreases items, 0
  {
    if items == [] {
    } else {
      var data, n := EncodeAll(items), |Encode(items[0])|;
      DecodeEncode(items[0], EncodeAll(items[1..]));
      DecodeEncodeAll(items[1..]);
      assert data[n..] == EncodeAll(items[1..]);
      assert items == [items[0]] + items[1..];
    }
  }

  /** Unique decodability: no encoding is a proper prefix of another, and equal encodings
      come from equal items. */
  lemma EncodeInjective(i: Item, j: Item)
    requires ItemOk(i) && ItemOk(j) && Encode(i) <= Encode(j)
    ensures i == j
  {
    var rest := Encode(j)[|Encode(i)|..];
    assert Encode(j) == Encode(i) + rest && Encode(j) == Encode(j) + [];
    DecodeEncode(i, rest);
    DecodeEncode(j, []);
  }
}
