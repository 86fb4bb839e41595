/** UTF-8 as used by Python's `str.encode('utf-8')` and `bytes.decode('utf-8')`
    (RFC 3629): encoding is total on Unicode scalar values, decoding is strict
    and rejects overlong forms, surrogates and values above U+10FFFF. */
module Utf8 {
  import opened Wrappers

  type byte = b: int | 0 <= b < 256

  predicate IsContinuation(b: byte) {
    0x80 <= b < 0xC0
  }

  /** The bytes of one character. */
  function EncodeChar(c: char): (bs: seq<byte>)
    ensures 1 <= |bs| <= 4
    ensures |bs| == 1 <==> c as int < 0x80
    ensures |bs| == 1 ==> bs[0] == c as int
    ensures |bs| > 1 ==> forall i :: 0 <= i < |bs| ==> bs[i] >= 0x80
  {
    var v := c as int;
    if v < 0x80 then [v]
    else if v < 0x800 then [0xC0 + v / 64, 0x80 + v % 64]
    else if v < 0x10000 then [0xE0 + v / 4096, 0x80 + (v / 64) % 64, 0x80 + v % 64]
    else [0xF0 + v / 262144, 0x80 + (v / 4096) % 64, 0x80 + (v / 64) % 64, 0x80 + v % 64]
  }

  /** The bytes of a string, character by character. */
  function Encode(s: string): (bs: seq<byte>)
    ensures |bs| >= |s|
  {
    if |s| == 0 then [] else EncodeChar(s[0]) + Encode(s[1..])
  }

  /** The range RFC 3629 allows for the second byte of a sequence led by `b0`. */
  function SecondLow(b0: byte): byte {
    if b0 == 0xE0 then 0xA0 else if b0 == 0xF0 then 0x90 else 0x80
  }

  function SecondHigh(b0: byte): byte {
    if b0 == 0xED then 0x9F else if b0 == 0xF4 then 0x8F else 0xBF
  }

  /** The scalar value carried by a two-, three- or four-byte sequence. */
  function Value2(b0: int, b1: int): int {
    (b0 - 0xC0) * 64 + (b1 - 0x80)
  }

  function Value3(b0: int, b1: int, b2: int): int {
    (b0 - 0xE0) * 4096 + (b1 - 0x80) * 64 + (b2 - 0x80)
  }

  function Value4(b0: int, b1: int, b2: int, b3: int): int {
    (b0 - 0xF0) * 262144 + (b1 - 0x80) * 4096 + (b2 - 0x80) * 64 + (b3 - 0x80)
  }

  /** Decodes the character at the front of `bs` and how many bytes it used,
      or `None` when the front of `bs` is not well-formed UTF-8. */
  function DecodeChar(bs: seq<byte>): (r: Option<(char, nat)>)
    requires |bs| > 0
    ensures r.Some? ==> 1 <= r.value.1 <= |bs|
  {
    var b0 := bs[0];
    if b0 < 0x80 then Some((b0 as char, 1))
    else if 0xC2 <= b0 < 0xE0 then
      if 2 <= |bs| && IsContinuation(bs[1])
      then Some((Value2(b0, bs[1]) as char, 2))
      else None
    else if 0xE0 <= b0 < 0xF0 then
      if 3 <= |bs| && SecondLow(b0) <= bs[1] <= SecondHigh(b0) && IsContinuation(bs[2])
      then Some((Value3(b0, bs[1], bs[2]) as char, 3))
      else None
    else if 0xF0 <= b0 < 0xF5 then
      if 4 <= |bs| && SecondLow(b0) <= bs[1] <= SecondHigh(b0)
         && IsContinuation(bs[2]) && IsContinuation(bs[3])
      then Some((Value4(b0, bs[1], bs[2], bs[3]) as char, 4))
      else None
    else None
  }

  /** Strict decoding of a whole byte string. */
  function Decode(bs: seq<byte>): (r: Option<string>)
    decreases |bs|
  {
    if |bs| == 0 then Some([])
    else match DecodeChar(bs)
      case None => None
      case Some((c, n)) =>
        match Decode(bs[n..])
        case None => None
        case Some(s) => Some([c] + s)
  }

  lemma Split2(v: int)
    requires 0x80 <= v < 0x800
    ensures 0xC2 <= 0xC0 + v / 64 < 0xE0 && Value2(0xC0 + v / 64, 0x80 + v % 64) == v
  {
  }

  lemma Split3(v: int)
    requires 0x800 <= v < 0x10000 && !(0xD800 <= v < 0xE000)
    ensures var b0, b1 := 0xE0 + v / 4096, 0x80 + (v / 64) % 64;
      0xE0 <= b0 < 0xF0 && SecondLow(b0) <= b1 <= SecondHigh(b0)
      && Value3(b0, b1, 0x80 + v % 64) == v
  {
    var q := v / 64;
    assert v == q * 64 + v % 64;
    assert q == (q / 64) * 64 + q % 64;
    assert q / 64 == v / 4096;
  }

  lemma Split4(v: int)
    requires 0x10000 <= v < 0x110000
    ensures var b0, b1 := 0xF0 + v / 262144, 0x80 + (v / 4096) % 64;
      0xF0 <= b0 < 0xF5 && SecondLow(b0) <= b1 <= SecondHigh(b0)
      && Value4(b0, b1, 0x80 + (v / 64) % 64, 0x80 + v % 64) == v
  {
    var q := v / 64;
    var p := q / 64;
    assert v == q * 64 + v % 64;
    assert q == p * 64 + q % 64;
    assert p == (p / 64) * 64 + p % 64;
    assert p == v / 4096;
    assert p / 64 == v / 262144;
  }

  /** Encoding one character and decoding it back yields the character and
      its full length, whatever follows. */
  lemma DecodeEncodeChar(c: char, rest: seq<byte>)
    ensures DecodeChar(EncodeChar(c) + rest) == Some((c, |EncodeChar(c)|))
  {
    var v := c as int;
    if 0x80 <= v < 0x800 {
      Split2(v);
    } else if 0x800 <= v < 0x10000 {
      Split3(v);
    } else if 0x10000 <= v {
      Split4(v);
    }
  }

  lemma Join2(b0: int, b1: int)
    requires 0xC2 <= b0 < 0xE0 && 0x80 <= b1 < 0xC0
    ensures var v := Value2(b0, b1); v / 64 == b0 - 0xC0 && v % 64 == b1 - 0x80
  {
  }

  lemma Join3(b0: int, b1: int, b2: int)
    requires 0xE0 <= b0 < 0xF0 && 0x80 <= b1 < 0xC0 && 0x80 <= b2 < 0xC0
    ensures var v := Value3(b0, b1, b2);
      v / 4096 == b0 - 0xE0 && (v / 64) % 64 == b1 - 0x80 && v % 64 == b2 - 0x80
  {
    var v := Value3(b0, b1, b2);
    var q := (b0 - 0xE0) * 64 + (b1 - 0x80);
    assert v == q * 64 + (b2 - 0x80);
    assert v / 64 == q;
    assert v / 4096 == q / 64;
  }

  lemma Join4(b0: int, b1: int, b2: int, b3: int)
    requires 0xF0 <= b0 < 0xF5 && 0x80 <= b1 < 0xC0 && 0x80 <= b2 < 0xC0 && 0x80 <= b3 < 0xC0
    ensures var v := Value4(b0, b1, b2, b3);
      v / 262144 == b0 - 0xF0 && (v / 4096) % 64 == b1 - 0x80
      && (v / 64) % 64 == b2 - 0x80 && v % 64 == b3 - 0x80
  {
    var v := Value4(b0, b1, b2, b3);
    var p := (b0 - 0xF0) * 64 + (b1 - 0x80);
    var q := p * 64 + (b2 - 0x80);
    assert v == q * 64 + (b3 - 0x80);
    assert v / 64 == q;
    assert q / 64 == p;
    assert v / 4096 == p;
    assert v / 262144 == p / 64;
  }

  /** Whatever `DecodeChar` accepts is exactly the encoding of the character
      it returns: the decoder admits no alternative spellings. */
  lemma EncodeDecodeChar(bs: seq<byte>)
    requires |bs| > 0 && DecodeChar(bs).Some?
    ensures bs[..DecodeChar(bs).value.1] == EncodeChar(DecodeChar(bs).value.0)
  {
    var b0 := bs[0];
    if 0x80 <= b0 < 0xE0 {
      Join2(b0, bs[1]);
    } else if 0xE0 <= b0 < 0xF0 {
      Join3(b0, bs[1], bs[2]);
    } else if 0xF0 <= b0 {
      Join4(b0, bs[1], bs[2], bs[3]);
    }
  }

  /** Decoding undoes encoding. */
  lemma {:induction false} DecodeEncode(s: string)
    ensures Decode(Encode(s)) == Some(s)
  {
    if |s| > 0 {
      var e, tail := EncodeChar(s[0]), Encode(s[1..]);
      assert Encode(s) == e + tail;
      DecodeEncodeChar(s[0], tail);
      assert (e + tail)[|e|..] == tail;
      DecodeEncode(s[1..]);
      assert [s[0]] + s[1..] == s;
    }
  }

  /** Encoding undoes decoding: a byte string that decodes is the encoding
      of what it decodes to. */
  lemma {:induction false} EncodeDecode(bs: seq<byte>)
    requires Decode(bs).Some?
    ensures Encode(Decode(bs).value) == bs
    decreases |bs|
  {
    if |bs| > 0 {
      var n := DecodeChar(bs).value.1;
      EncodeDecodeChar(bs);
      EncodeDecode(bs[n..]);
      assert bs == bs[..n] + bs[n..];
    }
  }

  /** A byte below 0x80 appears in an encoding exactly where its ASCII
      character appears in the string. */
  lemma {:induction false} AsciiByteInEncoding(s: string, c: char)
    requires c as int < 0x80
    ensures (c as int in Encode(s)) <==> c in s
  {
    if |s| > 0 {
      AsciiByteInEncoding(s[1..], c);
      assert s == [s[0]] + s[1..];
      assert c as int in EncodeChar(s[0]) <==> c == s[0];
    }
  }

  /** Encoding distributes over concatenation. */
  lemma {:induction false} EncodeConcat(s: string, t: string)
    ensures Encode(s + t) == Encode(s) + Encode(t)
  {
    if |s| > 0 {
      assert (s + t)[1..] == s[1..] + t;
      EncodeConcat(s[1..], t);
    } else {
      assert s + t == t;
    }
  }

  /** An encoding whose last byte is below 0x80 comes from a string whose last
      character is that ASCII character. */
  lemma EncodingEndsInAscii(t: string, c: char)
    requires c as int < 0x80
    requires |Encode(t)| > 0 && Encode(t)[|Encode(t)| - 1] == c as int
    ensures |t| > 0 && t[|t| - 1] == c
  {
    var n := |t| - 1;
    assert t == t[..n] + [t[n]];
    EncodeConcat(t[..n], [t[n]]);
    assert Encode([t[n]]) == EncodeChar(t[n]) + Encode([]);
  }
}
