/**
 * The base64 encoding of section 4 of RFC 4648 (standard alphabet, `=` padding),
 * as produced by Node's `Buffer.toString('base64')`, together with a strict
 * decoder. The two are proved to be inverse to each other.
 */
module Base64 {
  import opened Wrappers

  type byte = x: int | 0 <= x < 256
  type sextet = x: int | 0 <= x < 64

  const PAD: char := '='

  /** Table 1 of RFC 4648: the character that stands for a 6-bit value. */
  function Alphabet(i: sextet): (c: char)
    ensures c != PAD
  {
    if i < 26 then ('A' as int + i) as char
    else if i < 52 then ('a' as int + (i - 26)) as char
    else if i < 62 then ('0' as int + (i - 52)) as char
    else if i == 62 then '+'
    else '/'
  }

  /** The value a character of the alphabet stands for; None for any other character. */
  function IndexOf(c: char): (r: Option<sextet>)
    ensures r.Some? ==> c != PAD
  {
    if 'A' <= c <= 'Z' then Some(c as int - 'A' as int)
    else if 'a' <= c <= 'z' then Some(c as int - 'a' as int + 26)
    else if '0' <= c <= '9' then Some(c as int - '0' as int + 52)
    else if c == '+' then Some(62)
    else if c == '/' then Some(63)
    else None
  }

  /** Each character of the alphabet stands for the one value it was chosen for. */
  lemma IndexOfAlphabet(i: sextet)
    ensures IndexOf(Alphabet(i)) == Some(i)
  {
  }

  lemma AlphabetOfIndex(c: char)
    requires IndexOf(c).Some?
    ensures Alphabet(IndexOf(c).value) == c
  {
  }

  /** Three bytes, 24 bits, become four characters. */
  function EncodeTriple(b0: byte, b1: byte, b2: byte): string
  {
    [Alphabet(b0 / 4), Alphabet((b0 % 4) * 16 + b1 / 16), Alphabet((b1 % 16) * 4 + b2 / 64), Alphabet(b2 % 64)]
  }

  /** A final group of two bytes: three characters and one pad. */
  function EncodePair(b0: byte, b1: byte): string
  {
    [Alphabet(b0 / 4), Alphabet((b0 % 4) * 16 + b1 / 16), Alphabet((b1 % 16) * 4), PAD]
  }

  /** A final group of one byte: two characters and two pads. */
  function EncodeSingle(b0: byte): string
  {
    [Alphabet(b0 / 4), Alphabet((b0 % 4) * 16), PAD, PAD]
  }

  /** `Buffer.toString('base64')` of the bytes `b`. */
  function Encode(b: seq<byte>): (s: string)
    ensures |s| == (|b| + 2) / 3 * 4
    decreases |b|
  {
    if |b| == 0 then ""
    else if |b| == 1 then EncodeSingle(b[0])
    else if |b| == 2 then EncodePair(b[0], b[1])
    else EncodeTriple(b[0], b[1], b[2]) + Encode(b[3..])
  }

  /** Four alphabet characters back to three bytes. */
  function DecodeQuad(c0: char, c1: char, c2: char, c3: char): Option<seq<byte>>
  {
    var x0, x1, x2, x3 := IndexOf(c0), IndexOf(c1), IndexOf(c2), IndexOf(c3);
    if x0.None? || x1.None? || x2.None? || x3.None? then None
    else
      var v0, v1, v2, v3 := x0.value, x1.value, x2.value, x3.value;
      Some([v0 * 4 + v1 / 16, (v1 % 16) * 16 + v2 / 4, (v2 % 4) * 64 + v3])
  }

  /**
   * The last group of four characters, which may end in one or two pads.
   * Bits that the padding leaves unused must be zero, so that every
   * accepted text is the encoding of exactly one byte sequence.
   */
  function DecodeLast(c0: char, c1: char, c2: char, c3: char): Option<seq<byte>>
  {
    if c2 == PAD && c3 == PAD then
      var x0, x1 := IndexOf(c0), IndexOf(c1);
      if x0.None? || x1.None? || x1.value % 16 != 0 then None
      else Some([x0.value * 4 + x1.value / 16])
    else if c3 == PAD then
      var x0, x1, x2 := IndexOf(c0), IndexOf(c1), IndexOf(c2);
      if x0.None? || x1.None? || x2.None? || x2.value % 4 != 0 then None
      else Some([x0.value * 4 + x1.value / 16, (x1.value % 16) * 16 + x2.value / 4])
    else DecodeQuad(c0, c1, c2, c3)
  }

  /** Strict decoding: None for a text that no byte sequence encodes to. */
  function Decode(s: string): (r: Option<seq<byte>>)
    decreases |s|
  {
    if |s| == 0 then Some([])
    else if |s| < 4 then None
    else if |s| == 4 then DecodeLast(s[0], s[1], s[2], s[3])
    else
      match DecodeQuad(s[0], s[1], s[2], s[3])
      case None => None
      case Some(head) =>
        match Decode(s[4..])
        case None => None
        case Some(tail) => Some(head + tail)
  }

  /** The byte/sextet arithmetic of a full group: splitting 24 bits and joining them again. */
  lemma TripleBits(b0: byte, b1: byte, b2: byte)
    ensures ((b0 % 4) * 16 + b1 / 16) / 16 == b0 % 4 && ((b0 % 4) * 16 + b1 / 16) % 16 == b1 / 16
    ensures ((b1 % 16) * 4 + b2 / 64) / 4 == b1 % 16 && ((b1 % 16) * 4 + b2 / 64) % 4 == b2 / 64
  {
  }

  lemma SextetBits(v0: sextet, v1: sextet, v2: sextet, v3: sextet)
    ensures (v0 * 4 + v1 / 16) / 4 == v0 && (v0 * 4 + v1 / 16) % 4 == v1 / 16
    ensures ((v1 % 16) * 16 + v2 / 4) / 16 == v1 % 16 && ((v1 % 16) * 16 + v2 / 4) % 16 == v2 / 4
    ensures ((v2 % 4) * 64 + v3) / 64 == v2 % 4 && ((v2 % 4) * 64 + v3) % 64 == v3
  {
  }

  lemma TripleRoundTrip(b0: byte, b1: byte, b2: byte)
    ensures DecodeQuad(EncodeTriple(b0, b1, b2)[0], EncodeTriple(b0, b1, b2)[1],
                       EncodeTriple(b0, b1, b2)[2], EncodeTriple(b0, b1, b2)[3]) == Some([b0, b1, b2])
  {
    var v0, v1, v2, v3: sextet := b0 / 4, (b0 % 4) * 16 + b1 / 16, (b1 % 16) * 4 + b2 / 64, b2 % 64;
    IndexOfAlphabet(v0);
    IndexOfAlphabet(v1);
    IndexOfAlphabet(v2);
    IndexOfAlphabet(v3);
    TripleBits(b0, b1, b2);
    assert [b0, b1, b2] == [v0 * 4 + v1 / 16, (v1 % 16) * 16 + v2 / 4, (v2 % 4) * 64 + v3];
  }

  lemma SingleRoundTrip(b0: byte)
    ensures Decode(EncodeSingle(b0)) == Some([b0])
  {
    var v0, v1: sextet := b0 / 4, (b0 % 4) * 16;
    IndexOfAlphabet(v0);
    IndexOfAlphabet(v1);
    TripleBits(b0, 0, 0);
    assert [b0] == [v0 * 4 + v1 / 16];
  }

  lemma PairRoundTrip(b0: byte, b1: byte)
    ensures Decode(EncodePair(b0, b1)) == Some([b0, b1])
  {
    var v0, v1, v2: sextet := b0 / 4, (b0 % 4) * 16 + b1 / 16, (b1 % 16) * 4;
    IndexOfAlphabet(v0);
    IndexOfAlphabet(v1);
    IndexOfAlphabet(v2);
    TripleBits(b0, b1, 0);
    assert [b0, b1] == [v0 * 4 + v1 / 16, (v1 % 16) * 16 + v2 / 4];
  }

  /** A full group in front of a non-empty decodable text decodes to its three bytes in front. */
  lemma DecodeAppend(q: string, rest: string)
    requires |q| == 4 && |rest| > 0
    requires DecodeQuad(q[0], q[1], q[2], q[3]).Some? && Decode(rest).Some?
    ensures Decode(q + rest) == Some(DecodeQuad(q[0], q[1], q[2], q[3]).value + Decode(rest).value)
  {
    var t := q + rest;
    assert t[0] == q[0] && t[1] == q[1] && t[2] == q[2] && t[3] == q[3];
    assert t[4..] == rest;
  }

  /** Decoding undoes the encoding (RFC 4648, section 4). */
  lemma {:induction false} DecodeEncode(b: seq<byte>)
    ensures Decode(Encode(b)) == Some(b)
    decreases |b|
  {
    if |b| == 1 {
      SingleRoundTrip(b[0]);
      assert b == [b[0]];
    } else if |b| == 2 {
      PairRoundTrip(b[0], b[1]);
      assert b == [b[0], b[1]];
    } else if |b| == 3 {
      TripleRoundTrip(b[0], b[1], b[2]);
      assert b == [b[0], b[1], b[2]];
    } else if |b| > 3 {
      DecodeEncode(b[3..]);
      DecodeEncodeStep(b);
    }
  }

  lemma SplitFirstThree<T>(b: seq<T>)
    requires |b| >= 3
    ensures b == [b[0], b[1], b[2]] + b[3..]
  {
  }

  /** The step of DecodeEncode: one full group in front of a shorter input that round-trips. */
  lemma DecodeEncodeStep(b: seq<byte>)
    requires |b| > 3 && Decode(Encode(b[3..])) == Some(b[3..])
    ensures Decode(Encode(b)) == Some(b)
  {
    var q, rest := EncodeTriple(b[0], b[1], b[2]), Encode(b[3..]);
    TripleRoundTrip(b[0], b[1], b[2]);
    DecodeAppend(q, rest);
    assert Encode(b) == q + rest;
    SplitFirstThree(b);
  }

  lemma QuadInverse(c0: char, c1: char, c2: char, c3: char)
    requires DecodeQuad(c0, c1, c2, c3).Some?
    ensures var b := DecodeQuad(c0, c1, c2, c3).value;
      |b| == 3 && EncodeTriple(b[0], b[1], b[2]) == [c0, c1, c2, c3]
  {
    var v0: int, v1: int, v2: int, v3: int := IndexOf(c0).value, IndexOf(c1).value, IndexOf(c2).value, IndexOf(c3).value;
    var b0, b1, b2: byte := v0 * 4 + v1 / 16, (v1 % 16) * 16 + v2 / 4, (v2 % 4) * 64 + v3;
    assert DecodeQuad(c0, c1, c2, c3).value == [b0, b1, b2];
    SextetBits(v0, v1, v2, v3);
    AlphabetOfIndex(c0);
    AlphabetOfIndex(c1);
    AlphabetOfIndex(c2);
    AlphabetOfIndex(c3);
    var e := EncodeTriple(b0, b1, b2);
    assert b0 / 4 == v0 && (b0 % 4) * 16 + b1 / 16 == v1 && (b1 % 16) * 4 + b2 / 64 == v2 && b2 % 64 == v3;
    assert e[0] == c0 && e[1] == c1 && e[2] == c2 && e[3] == c3;
  }

  lemma LastInverse(c0: char, c1: char, c2: char, c3: char)
    requires DecodeLast(c0, c1, c2, c3).Some?
    ensures Encode(DecodeLast(c0, c1, c2, c3).value) == [c0, c1, c2, c3]
  {
    if c2 == PAD && c3 == PAD {
      var v0: int, v1: int := IndexOf(c0).value, IndexOf(c1).value;
      var b0: byte := v0 * 4 + v1 / 16;
      assert DecodeLast(c0, c1, c2, c3).value == [b0];
      SextetBits(v0, v1, 0, 0);
      AlphabetOfIndex(c0);
      AlphabetOfIndex(c1);
      assert EncodeSingle(b0) == [Alphabet(v0), Alphabet(v1), PAD, PAD];
    } else if c3 == PAD {
      var v0: int, v1: int, v2: int := IndexOf(c0).value, IndexOf(c1).value, IndexOf(c2).value;
      var b0, b1: byte := v0 * 4 + v1 / 16, (v1 % 16) * 16 + v2 / 4;
      assert DecodeLast(c0, c1, c2, c3).value == [b0, b1];
      SextetBits(v0, v1, v2, 0);
      AlphabetOfIndex(c0);
      AlphabetOfIndex(c1);
      AlphabetOfIndex(c2);
      assert EncodePair(b0, b1) == [Alphabet(v0), Alphabet(v1), Alphabet(v2), PAD];
    } else {
      var b := DecodeLast(c0, c1, c2, c3).value;
      QuadInverse(c0, c1, c2, c3);
      assert Encode(b) == EncodeTriple(b[0], b[1], b[2]) + Encode(b[3..]);
    }
  }

  lemma SplitFirstFour<T>(s: seq<T>)
    requires |s| >= 4
    ensures s == [s[0], s[1], s[2], s[3]] + s[4..]
  {
  }

  lemma AppendAfterThree<T>(h: seq<T>, t: seq<T>)
    requires |h| == 3
    ensures (h + t)[0] == h[0] && (h + t)[1] == h[1] && (h + t)[2] == h[2] && (h + t)[3..] == t
  {
  }

  /** Every text the decoder accepts is the encoding of what it decodes to. */
  lemma {:induction false} EncodeDecode(s: string)
    requires Decode(s).Some?
    ensures Encode(Decode(s).value) == s
    decreases |s|
  {
    if |s| == 4 {
      LastInverse(s[0], s[1], s[2], s[3]);
      SplitFirstFour(s);
    } else if |s| > 4 {
      EncodeDecode(s[4..]);
      EncodeDecodeStep(s);
    }
  }

  /** The step of EncodeDecode: one full group in front of a longer accepted text. */
  lemma EncodeDecodeStep(s: string)
    requires |s| > 4 && Decode(s).Some?
    requires Encode(Decode(s[4..]).value) == s[4..]
    ensures Encode(Decode(s).value) == s
  {
    var head := DecodeQuad(s[0], s[1], s[2], s[3]).value;
    var tail := Decode(s[4..]).value;
    assert Decode(s).value == head + tail;
    QuadInverse(s[0], s[1], s[2], s[3]);
    AppendAfterThree(head, tail);
    var b := head + tail;
    assert |tail| > 0;
    assert Encode(b) == EncodeTriple(head[0], head[1], head[2]) + Encode(tail);
    SplitFirstFour(s);
  }

  /** The seven test vectors of section 10 of RFC 4648 ("" to "foobar"). */
  lemma RfcTestVectors()
    ensures Encode([]) == ""
    ensures Encode([102]) == "Zg=="
    ensures Encode([102, 111]) == "Zm8="
    ensures Encode([102, 111, 111]) == "Zm9v"
    ensures Encode([102, 111, 111, 98]) == "Zm9vYg=="
    ensures Encode([102, 111, 111, 98, 97]) == "Zm9vYmE="
    ensures Encode([102, 111, 111, 98, 97, 114]) == "Zm9vYmFy"
  {
    assert [102, 111, 111, 98][3..] == [98];
    assert [102, 111, 111, 98, 97][3..] == [98, 97];
    assert [102, 111, 111, 98, 97, 114][3..] == [98, 97, 114];
  }
}
