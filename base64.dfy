/** The base64 encoding of section 4 of RFC 4648 (`base64.b64encode(data).decode('utf-8')`):
    every three bytes become four characters of a 64-letter alphabet, and a
    final group of one or two bytes is padded with `=`. */
module Base64 {
  import opened Outcomes

  type byte = x: int | 0 <= x < 256
  type sextet = x: int | 0 <= x < 64

  /** The alphabet of Table 1 of the RFC: A-Z, a-z, 0-9, '+', '/'. */
  function CharOf(v: sextet): char {
    if v < 26 then ('A' as int + v) as char
    else if v < 52 then ('a' as int + (v - 26)) as char
    else if v < 62 then ('0' as int + (v - 52)) as char
    else if v == 62 then '+'
    else '/'
  }

  predicate IsAlphabet(c: char) {
    ('A' <= c <= 'Z') || ('a' <= c <= 'z') || ('0' <= c <= '9') || c == '+' || c == '/'
  }

  function ValueOf(c: char): sextet
    requires IsAlphabet(c)
  {
    if 'A' <= c <= 'Z' then c as int - 'A' as int
    else if 'a' <= c <= 'z' then c as int - 'a' as int + 26
    else if '0' <= c <= '9' then c as int - '0' as int + 52
    else if c == '+' then 62
    else 63
  }

  /** Every letter of the alphabet reads back as the value it encodes. */
  lemma CharRoundTrip(v: sextet)
    ensures IsAlphabet(CharOf(v)) && ValueOf(CharOf(v)) == v
  {
  }

  /** Three bytes (24 bits) as four letters of six bits each. */
  function EncodeTriple(b0: byte, b1: byte, b2: byte): string {
    [CharOf(b0 / 4), CharOf((b0 % 4) * 16 + b1 / 16), CharOf((b1 % 16) * 4 + b2 / 64), CharOf(b2 % 64)]
  }

  /** A final single byte (8 bits padded to 12): two letters, then "==". */
  function EncodeSingle(b0: byte): string {
    [CharOf(b0 / 4), CharOf((b0 % 4) * 16), '=', '=']
  }

  /** A final pair of bytes (16 bits padded to 18): three letters, then "=". */
  function EncodePair(b0: byte, b1: byte): string {
    [CharOf(b0 / 4), CharOf((b0 % 4) * 16 + b1 / 16), CharOf((b1 % 16) * 4), '=']
  }

  function Encode(data: seq<byte>): string
    decreases |data|
  {
    if |data| == 0 then ""
    else if |data| == 1 then EncodeSingle(data[0])
    else if |data| == 2 then EncodePair(data[0], data[1])
    else EncodeTriple(data[0], data[1], data[2]) + Encode(data[3..])
  }

  /** Four characters for every three bytes or part of three. */
  lemma {:induction false} EncodeLength(data: seq<byte>)
    ensures |Encode(data)| == 4 * ((|data| + 2) / 3)
    decreases |data|
  {
    if |data| >= 3 {
      EncodeLength(data[3..]);
      assert (|data| + 2) / 3 == (|data[3..]| + 2) / 3 + 1;
    }
  }

  /** The first byte of a group: the six bits of `c0` and the top two of `c1`. */
  function FirstByte(c0: sextet, c1: sextet): byte { c0 * 4 + c1 / 16 }

  /** The second byte: the low four bits of `c1` and the top four of `c2`. */
  function SecondByte(c1: sextet, c2: sextet): byte { (c1 % 16) * 16 + c2 / 4 }

  /** The third byte: the low two bits of `c2` and the six bits of `c3`. */
  function ThirdByte(c2: sextet, c3: sextet): byte { (c2 % 4) * 64 + c3 }

  /** Four letters without padding back to three bytes. */
  function DecodeQuad(q: string): Option<seq<byte>>
    requires |q| == 4
  {
    if IsAlphabet(q[0]) && IsAlphabet(q[1]) && IsAlphabet(q[2]) && IsAlphabet(q[3]) then
      var c0, c1, c2, c3 := ValueOf(q[0]), ValueOf(q[1]), ValueOf(q[2]), ValueOf(q[3]);
      Some([FirstByte(c0, c1), SecondByte(c1, c2), ThirdByte(c2, c3)])
    else None
  }

  /** The last group, which may carry one or two padding characters. */
  function DecodeFinal(q: string): Option<seq<byte>>
    requires |q| == 4
  {
    if q[2] == '=' && q[3] == '=' then
      if IsAlphabet(q[0]) && IsAlphabet(q[1]) then
        Some([FirstByte(ValueOf(q[0]), ValueOf(q[1]))])
      else None
    else if q[3] == '=' then
      if IsAlphabet(q[0]) && IsAlphabet(q[1]) && IsAlphabet(q[2]) then
        var c0, c1, c2 := ValueOf(q[0]), ValueOf(q[1]), ValueOf(q[2]);
        Some([FirstByte(c0, c1), SecondByte(c1, c2)])
      else None
    else DecodeQuad(q)
  }

  /** Base64 text back to bytes; `None` for text that is not base64. */
  function Decode(s: string): Option<seq<byte>>
    decreases |s|
  {
    if |s| == 0 then Some([])
    else if |s| < 4 then None
    else if |s| == 4 then DecodeFinal(s)
    else
      match DecodeQuad(s[..4])
      case None => None
      case Some(head) =>
        match Decode(s[4..])
        case None => None
        case Some(tail) => Some(head + tail)
  }

  lemma SplitBits(hi: int, lo: int, d: int)
    requires 0 <= lo < d && d in {4, 16, 64} && 0 <= hi
    ensures (hi * d + lo) / d == hi && (hi * d + lo) % d == lo
  {
  }

  lemma FirstBack(b0: byte, b1: byte)
    ensures FirstByte(b0 / 4, (b0 % 4) * 16 + b1 / 16) == b0
  {
    SplitBits(b0 % 4, b1 / 16, 16);
  }

  lemma SecondBack(b0: byte, b1: byte, b2: byte)
    ensures SecondByte((b0 % 4) * 16 + b1 / 16, (b1 % 16) * 4 + b2 / 64) == b1
  {
    SplitBits(b0 % 4, b1 / 16, 16);
    SplitBits(b1 % 16, b2 / 64, 4);
  }

  lemma ThirdBack(b1: byte, b2: byte)
    ensures ThirdByte((b1 % 16) * 4 + b2 / 64, b2 % 64) == b2
  {
    SplitBits(b1 % 16, b2 / 64, 4);
  }

  lemma TripleRoundTrip(b0: byte, b1: byte, b2: byte)
    ensures DecodeQuad(EncodeTriple(b0, b1, b2)) == Some([b0, b1, b2])
  {
    var c0, c1, c2, c3 := b0 / 4, (b0 % 4) * 16 + b1 / 16, (b1 % 16) * 4 + b2 / 64, b2 % 64;
    CharRoundTrip(c0); CharRoundTrip(c1); CharRoundTrip(c2); CharRoundTrip(c3);
    FirstBack(b0, b1);
    SecondBack(b0, b1, b2);
    ThirdBack(b1, b2);
  }

  /** A full group decodes the same whether or not it is the last one. */
  lemma LastTripleRoundTrip(b0: byte, b1: byte, b2: byte)
    ensures Decode(EncodeTriple(b0, b1, b2)) == Some([b0, b1, b2])
  {
    CharRoundTrip(b2 % 64);
    TripleRoundTrip(b0, b1, b2);
  }

  lemma SingleRoundTrip(b0: byte)
    ensures DecodeFinal(EncodeSingle(b0)) == Some([b0])
  {
    var c0, c1 := b0 / 4, (b0 % 4) * 16;
    CharRoundTrip(c0); CharRoundTrip(c1);
    SplitBits(b0 % 4, 0, 16);
    assert FirstByte(c0, c1) == b0;
  }

  lemma PairRoundTrip(b0: byte, b1: byte)
    ensures DecodeFinal(EncodePair(b0, b1)) == Some([b0, b1])
  {
    var c0, c1, c2 := b0 / 4, (b0 % 4) * 16 + b1 / 16, (b1 % 16) * 4;
    CharRoundTrip(c0); CharRoundTrip(c1); CharRoundTrip(c2);
    SplitBits(b0 % 4, b1 / 16, 16);
    SplitBits(b1 % 16, 0, 4);
    assert FirstByte(c0, c1) == b0;
    assert SecondByte(c1, c2) == b1;
  }

  /** Decoding a full group followed by more text. */
  lemma DecodeGroup(head: string, rest: string)
    requires |head| == 4 && |rest| > 0
    ensures Decode(head + rest) ==
      match DecodeQuad(head)
      case None => None
      case Some(h) => (match Decode(rest) case None => None case Some(t) => Some(h + t))
  {
    var s := head + rest;
    assert s[..4] == head && s[4..] == rest;
  }

  lemma EncodeGroup(data: seq<byte>)
    requires |data| >= 3
    ensures Encode(data) == EncodeTriple(data[0], data[1], data[2]) + Encode(data[3..])
  {
  }

  /** One full group in front of text that already round-trips. */
  lemma SplitGroup(data: seq<byte>)
    requires |data| >= 3
    ensures [data[0], data[1], data[2]] + data[3..] == data
  {
    assert data == data[..3] + data[3..];
  }

  lemma RoundTripStep(data: seq<byte>)
    requires |data| > 3 && Decode(Encode(data[3..])) == Some(data[3..])
    ensures Decode(Encode(data)) == Some(data)
  {
    var head := EncodeTriple(data[0], data[1], data[2]);
    var rest := Encode(data[3..]);
    EncodeGroup(data);
    assert Encode(data) == head + rest;
    TripleRoundTrip(data[0], data[1], data[2]);
    DecodeGroup(head, rest);
    assert Decode(head + rest) == Some([data[0], data[1], data[2]] + data[3..]);
    SplitGroup(data);
  }

  lemma OneRoundTrip(data: seq<byte>)
    requires |data| == 1
    ensures Decode(Encode(data)) == Some(data)
  {
    SingleRoundTrip(data[0]);
    assert data == [data[0]];
  }

  lemma TwoRoundTrip(data: seq<byte>)
    requires |data| == 2
    ensures Decode(Encode(data)) == Some(data)
  {
    PairRoundTrip(data[0], data[1]);
    assert data == [data[0], data[1]];
  }

  lemma ThreeRoundTrip(data: seq<byte>)
    requires |data| == 3
    ensures Decode(Encode(data)) == Some(data)
  {
    LastTripleRoundTrip(data[0], data[1], data[2]);
    assert data[3..] == [];
    assert Encode(data) == EncodeTriple(data[0], data[1], data[2]);
    assert data == [data[0], data[1], data[2]];
  }

  /** Decoding what was encoded gives the original bytes exactly. */
  lemma {:induction false} RoundTrip(data: seq<byte>)
    ensures Decode(Encode(data)) == Some(data)
    decreases |data|
  {
    if |data| == 1 {
      OneRoundTrip(data);
    } else if |data| == 2 {
      TwoRoundTrip(data);
    } else if |data| == 3 {
      ThreeRoundTrip(data);
    } else if |data| > 3 {
      RoundTrip(data[3..]);
      RoundTripStep(data);
    }
  }
}
