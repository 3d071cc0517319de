/** The encodings that the websocket components rely on: hexadecimal (section 8 of RFC 4648),
    base64 (section 4 of RFC 4648) and what JSON does to a string that is not valid UTF-8. */
module Codecs {
  import opened Basics

  predicate IsAscii(s: Bytes) { forall i :: 0 <= i < |s| ==> s[i] < 128 }

  // ---------------------------------------------------------------- hexadecimal

  function FromNibbles(high: Nibble, low: Nibble): byte {
    var h: int := high;
    16 * h + low
  }

  /** `hex.EncodeToString`. */
  function HexEncode(s: Bytes): Bytes
  {
    if s == [] then [] else [HexDigit(s[0] / 16), HexDigit(s[0] % 16)] + HexEncode(s[1..])
  }

  /** `hex.DecodeString`; an odd length or a foreign character is an error. */
  function HexDecode(s: Bytes): Option<Bytes>
  {
    if s == [] then Some([])
    else if |s| == 1 then None
    else match (HexValue(s[0]), HexValue(s[1]), HexDecode(s[2..]))
      case (Some(high), Some(low), Some(rest)) => Some([FromNibbles(high, low)] + rest)
      case _ => None
  }

  lemma {:induction false} HexRoundTrip(s: Bytes)
    ensures HexDecode(HexEncode(s)) == Some(s)
  {
    if s != [] {
      var e := HexEncode(s);
      HexRoundTrip(s[1..]);
      assert e[2..] == HexEncode(s[1..]);
      assert 16 * (s[0] / 16) + s[0] % 16 == s[0];
      assert [s[0]] + s[1..] == s;
    }
  }

  // ---------------------------------------------------------------- base64

  type Sextet = x: int | 0 <= x < 64

  const PAD: byte := 61

  function Base64Char(v: Sextet): byte
  {
    if v < 26 then 65 + v
    else if v < 52 then 71 + v
    else if v < 62 then v - 4
    else if v == 62 then 43
    else 47
  }

  function Base64Value(c: byte): Option<Sextet>
  {
    if 65 <= c <= 90 then Some(c - 65)
    else if 97 <= c <= 122 then Some(c - 71)
    else if 48 <= c <= 57 then Some(c + 4)
    else if c == 43 then Some(62)
    else if c == 47 then Some(63)
    else None
  }

  lemma Base64CharRoundTrip(v: Sextet)
    ensures Base64Value(Base64Char(v)) == Some(v) && Base64Char(v) != PAD
    ensures 43 <= Base64Char(v) < 128
  {
  }

  function FullQuad(x: byte, y: byte, z: byte): Bytes {
    [Base64Char(x / 4), Base64Char(x % 4 * 16 + y / 16), Base64Char(y % 16 * 4 + z / 64), Base64Char(z % 64)]
  }

  /** `base64.StdEncoding.EncodeToString`. */
  function Base64Encode(s: Bytes): Bytes
  {
    if s == [] then []
    else if |s| == 1 then
      [Base64Char(s[0] / 4), Base64Char(s[0] % 4 * 16), PAD, PAD]
    else if |s| == 2 then
      [Base64Char(s[0] / 4), Base64Char(s[0] % 4 * 16 + s[1] / 16), Base64Char(s[1] % 16 * 4), PAD]
    else
      FullQuad(s[0], s[1], s[2]) + Base64Encode(s[3..])
  }

  /** The decoder skips carriage returns and line feeds. */
  function StripNewlines(s: Bytes): Bytes
  {
    if s == [] then []
    else if s[0] == 10 || s[0] == 13 then StripNewlines(s[1..])
    else [s[0]] + StripNewlines(s[1..])
  }

  function DecodeQuads(s: Bytes): Option<Bytes>
  {
    if s == [] then Some([])
    else if |s| < 4 then None
    else match (Base64Value(s[0]), Base64Value(s[1]))
      case (Some(a), Some(b)) =>
        if s[2] == PAD && s[3] == PAD then
          if |s| == 4 then Some([a * 4 + b / 16]) else None
        else (match Base64Value(s[2])
          case None => None
          case Some(c) =>
            if s[3] == PAD then
              if |s| == 4 then Some([a * 4 + b / 16, b % 16 * 16 + c / 4]) else None
            else match (Base64Value(s[3]), DecodeQuads(s[4..]))
              case (Some(d), Some(rest)) => Some([a * 4 + b / 16, b % 16 * 16 + c / 4, c % 4 * 64 + d] + rest)
              case _ => None)
      case _ => None
  }

  /** `base64.StdEncoding.DecodeString`. */
  function Base64Decode(s: Bytes): Option<Bytes> { DecodeQuads(StripNewlines(s)) }

  lemma {:induction false} DecodeEncodedQuads(s: Bytes)
    ensures DecodeQuads(Base64Encode(s)) == Some(s)
    decreases |s|
  {
    if |s| == 1 {
      DecodeOneByte(s[0]);
      assert s == [s[0]];
    } else if |s| == 2 {
      DecodeTwoBytes(s[0], s[1]);
      assert s == [s[0], s[1]];
    } else if |s| > 2 {
      DecodeEncodedQuads(s[3..]);
      DecodeFullQuad(s[0], s[1], s[2], Base64Encode(s[3..]));
      assert s == [s[0], s[1], s[2]] + s[3..];
    }
  }

  /** A text may end in a quad with two characters of padding, or with one. */
  lemma DecodeOneByte(x: byte)
    ensures DecodeQuads(Base64Encode([x])) == Some([x])
  {
    var quad := Base64Encode([x]);
    Base64CharRoundTrip(x / 4);
    Base64CharRoundTrip(x % 4 * 16);
    Regroup(x, 0, 0);
    assert quad == [Base64Char(x / 4), Base64Char(x % 4 * 16), PAD, PAD];
  }

  lemma DecodeTwoBytes(x: byte, y: byte)
    ensures DecodeQuads(Base64Encode([x, y])) == Some([x, y])
  {
    var quad := Base64Encode([x, y]);
    Base64CharRoundTrip(x / 4);
    Base64CharRoundTrip(x % 4 * 16 + y / 16);
    Base64CharRoundTrip(y % 16 * 4);
    Regroup(x, y, 0);
    assert quad == [Base64Char(x / 4), Base64Char(x % 4 * 16 + y / 16), Base64Char(y % 16 * 4), PAD];
  }

  lemma DecodeFullQuad(x: byte, y: byte, z: byte, rest: Bytes)
    requires DecodeQuads(rest).Some?
    ensures DecodeQuads(FullQuad(x, y, z) + rest) == Some([x, y, z] + DecodeQuads(rest).value)
  {
    Base64CharRoundTrip(x / 4);
    Base64CharRoundTrip(x % 4 * 16 + y / 16);
    Base64CharRoundTrip(y % 16 * 4 + z / 64);
    Base64CharRoundTrip(z % 64);
    Regroup(x, y, z);
    assert (FullQuad(x, y, z) + rest)[4..] == rest;
  }

  /** Three octets cut into four sextets and put together again. */
  lemma Regroup(x: byte, y: byte, z: byte)
    ensures x / 4 * 4 + (x % 4 * 16 + y / 16) / 16 == x
    ensures (x % 4 * 16 + y / 16) % 16 * 16 + (y % 16 * 4 + z / 64) / 4 == y
    ensures (y % 16 * 4 + z / 64) % 4 * 64 + z % 64 == z
  {
  }

  lemma {:induction false} Base64IsPlain(s: Bytes)
    ensures forall i :: 0 <= i < |Base64Encode(s)| ==> 43 <= Base64Encode(s)[i] < 128
    decreases |s|
  {
    if |s| >= 3 {
      Base64IsPlain(s[3..]);
      var e, rest := Base64Encode(s), Base64Encode(s[3..]);
      assert forall i :: 4 <= i < |e| ==> e[i] == rest[i - 4];
    }
  }

  lemma {:induction false} StripPlain(s: Bytes)
    requires forall i :: 0 <= i < |s| ==> s[i] != 10 && s[i] != 13
    ensures StripNewlines(s) == s
  {
    if s != [] {
      StripPlain(s[1..]);
      assert [s[0]] + s[1..] == s;
    }
  }

  lemma Base64RoundTrip(s: Bytes)
    ensures Base64Decode(Base64Encode(s)) == Some(s) && IsAscii(Base64Encode(s))
  {
    Base64IsPlain(s);
    StripPlain(Base64Encode(s));
    DecodeEncodedQuads(s);
  }

  // ---------------------------------------------------------------- UTF-8

  predicate Continues(s: Bytes, i: nat) { i < |s| && 0x80 <= s[i] < 0xC0 }

  /** The number of bytes of the rune that `s` starts with, or 0 if it starts with none. */
  function RuneLength(s: Bytes): (n: nat)
    ensures n <= |s|
  {
    if s == [] then 0
    else if s[0] < 0x80 then 1
    else if 0xC2 <= s[0] < 0xE0 then (if Continues(s, 1) then 2 else 0)
    else if 0xE0 <= s[0] < 0xF0 then
      if Continues(s, 1) && Continues(s, 2)
         && (s[0] == 0xE0 ==> s[1] >= 0xA0) && (s[0] == 0xED ==> s[1] < 0xA0) then 3 else 0
    else if 0xF0 <= s[0] < 0xF5 then
      if Continues(s, 1) && Continues(s, 2) && Continues(s, 3)
         && (s[0] == 0xF0 ==> s[1] >= 0x90) && (s[0] == 0xF4 ==> s[1] < 0x90) then 4 else 0
    else 0
  }

  predicate ValidUtf8(s: Bytes)
  {
    s == [] || (RuneLength(s) > 0 && ValidUtf8(s[RuneLength(s)..]))
  }

  /** What a Go string becomes when it is written as JSON and read back: every byte that belongs to
      no rune becomes U+FFFD. */
  function Sanitize(s: Bytes): Bytes
  {
    if s == [] then []
    else if RuneLength(s) == 0 then [0xEF, 0xBF, 0xBD] + Sanitize(s[1..])
    else s[..RuneLength(s)] + Sanitize(s[RuneLength(s)..])
  }

  /** Exactly the valid strings survive JSON unchanged. */
  lemma {:induction false} SanitizeKeepsExactlyValid(s: Bytes)
    ensures |Sanitize(s)| >= |s|
    ensures |Sanitize(s)| == |s| <==> ValidUtf8(s)
    ensures Sanitize(s) == s <==> ValidUtf8(s)
    decreases |s|
  {
    if s != [] {
      var n := RuneLength(s);
      if n == 0 {
        SanitizeKeepsExactlyValid(s[1..]);
      } else {
        SanitizeKeepsExactlyValid(s[n..]);
        assert s[..n] + s[n..] == s;
        assert Sanitize(s)[n..] == Sanitize(s[n..]);
      }
    }
  }

  lemma {:induction false} AsciiIsValid(s: Bytes)
    requires IsAscii(s)
    ensures ValidUtf8(s)
  {
    if s != [] {
      AsciiIsValid(s[1..]);
    }
  }

  /** If what JSON carries is ASCII, then nothing had to be repaired. */
  lemma {:induction false} AsciiIsUnrepaired(s: Bytes)
    ensures IsAscii(Sanitize(s)) ==> ValidUtf8(s)
    decreases |s|
  {
    if s != [] {
      var n := RuneLength(s);
      if n == 0 {
        assert Sanitize(s)[0] == 0xEF;
      } else {
        assert Sanitize(s)[n..] == Sanitize(s[n..]);
        AsciiIsUnrepaired(s[n..]);
      }
    }
  }

  // ---------------------------------------------------------------- what can be decoded

  /** Only ASCII decodes, and to fewer bytes. */
  lemma {:induction false} DecodingShortens(s: Bytes)
    requires DecodeQuads(s).Some?
    ensures IsAscii(s) && |DecodeQuads(s).value| <= |s| && (s != [] ==> |DecodeQuads(s).value| < |s|)
    decreases |s|
  {
    if s != [] {
      QuadIsAscii(s);
      if |s| > 4 {
        DecodingShortens(s[4..]);
        assert s == s[..4] + s[4..];
      }
    }
  }

  lemma QuadIsAscii(s: Bytes)
    requires s != [] && DecodeQuads(s).Some?
    ensures |s| >= 4 && IsAscii(s[..4])
    ensures |s| == 4 ==> |DecodeQuads(s).value| <= 3
    ensures |s| > 4 ==> DecodeQuads(s[4..]).Some? && |DecodeQuads(s).value| == 3 + |DecodeQuads(s[4..]).value|
  {
    assert Base64Value(s[0]).Some? && Base64Value(s[1]).Some?;
    if s[2] != PAD {
      assert Base64Value(s[2]).Some?;
    }
    if s[3] != PAD {
      assert Base64Value(s[3]).Some?;
    }
    if |s| == 4 {
      assert s[4..] == [];
    }
  }

  lemma {:induction false} StrippingKeepsForeign(s: Bytes)
    ensures |StripNewlines(s)| <= |s| && (IsAscii(StripNewlines(s)) ==> IsAscii(s))
  {
    if s != [] {
      StrippingKeepsForeign(s[1..]);
      var t := StripNewlines(s);
      if s[0] != 10 && s[0] != 13 && IsAscii(t) {
        assert t[0] == s[0] && t[1..] == StripNewlines(s[1..]);
      }
    }
  }

  /** Base64 never decodes a text that JSON carried to the text itself, unless it is empty. */
  lemma NothingDecodesToItself(s: Bytes)
    ensures Base64Decode(Sanitize(s)) == Some(s) <==> s == []
  {
    if Base64Decode(Sanitize(s)) == Some(s) {
      var t := StripNewlines(Sanitize(s));
      DecodingShortens(t);
      StrippingKeepsForeign(Sanitize(s));
      AsciiIsUnrepaired(s);
      SanitizeKeepsExactlyValid(s);
    }
  }

  // ---------------------------------------------------------------- what the codes look like

  const HEX_ALPHABET := "0123456789abcdef"

  /** Two digits for each byte, the high one first, in the lower-case alphabet. */
  lemma {:induction false} HexLooksLike(s: Bytes, i: nat)
    requires i < |s|
    ensures |HexEncode(s)| == 2 * |s|
    ensures HexEncode(s)[2 * i] == HEX_ALPHABET[s[i] / 16] as int
    ensures HexEncode(s)[2 * i + 1] == HEX_ALPHABET[s[i] % 16] as int
  {
    var rest := HexEncode(s[1..]);
    assert HexEncode(s)[2..] == rest;
    if i > 0 {
      HexLooksLike(s[1..], i - 1);
      assert HexEncode(s)[2 * i] == rest[2 * (i - 1)] && HexEncode(s)[2 * i + 1] == rest[2 * (i - 1) + 1];
    } else if |s| > 1 {
      HexLooksLike(s[1..], 0);
    }
    HexDigitIs(s[i] / 16);
    HexDigitIs(s[i] % 16);
  }

  lemma HexDigitIs(n: Nibble)
    ensures HexDigit(n) == HEX_ALPHABET[n] as int
  {
  }

  /** The alphabet: the upper-case letters, the lower-case letters, the digits, plus and slash. */
  lemma Base64AlphabetIs(v: Sextet)
    ensures v < 26 ==> Base64Char(v) == 'A' as int + v
    ensures 26 <= v < 52 ==> Base64Char(v) == 'a' as int + v - 26
    ensures 52 <= v < 62 ==> Base64Char(v) == '0' as int + v - 52
    ensures v == 62 ==> Base64Char(v) == '+' as int
    ensures v == 63 ==> Base64Char(v) == '/' as int
    ensures PAD == '=' as int
  {
  }

  /** Three bytes cut into four groups of six bits from the highest on; one or two bytes at the end give two
      or three characters, and padding. */
  function Quad(s: Bytes): (r: Bytes)
    requires s != []
    ensures |r| == 4
  {
    var x := s[0];
    var y: byte := if 1 < |s| then s[1] else 0;
    var z: byte := if 2 < |s| then s[2] else 0;
    [Base64Char(x / 4), Base64Char(x % 4 * 16 + y / 16),
     if 1 < |s| then Base64Char(y % 16 * 4 + z / 64) else PAD,
     if 2 < |s| then Base64Char(z % 64) else PAD]
  }

  /** Four characters for every three bytes, in order. */
  lemma {:induction false} Base64LooksLike(s: Bytes, i: nat)
    requires 3 * i < |s|
    ensures 4 * i + 4 <= |Base64Encode(s)| && Base64Encode(s)[4 * i..4 * i + 4] == Quad(s[3 * i..])
    ensures |s| <= 3 * (i + 1) ==> |Base64Encode(s)| == 4 * i + 4
    decreases |s|
  {
    StartsWithQuad(s);
    if i == 0 {
      assert s[0..] == s;
      assert |s| <= 3 ==> Base64Encode([]) == [];
    } else {
      var rest := Base64Encode(s[3..]);
      Base64LooksLike(s[3..], i - 1);
      assert s[3..][3 * (i - 1)..] == s[3 * i..];
      assert (Quad(s) + rest)[4 * i..4 * i + 4] == rest[4 * (i - 1)..4 * (i - 1) + 4];
    }
  }

  lemma StartsWithQuad(s: Bytes)
    requires s != []
    ensures Base64Encode(s) == Quad(s) + (if |s| <= 3 then [] else Base64Encode(s[3..]))
  {
    if |s| <= 2 {
      ShortQuad(s);
    } else {
      LongQuad(s);
    }
  }

  lemma ShortQuad(s: Bytes)
    requires 1 <= |s| <= 2
    ensures Base64Encode(s) == Quad(s)
  {
    if |s| == 1 {
      OneByteQuad(s[0]);
      assert s == [s[0]];
    } else {
      TwoByteQuad(s[0], s[1]);
      assert s == [s[0], s[1]];
    }
  }

  lemma LongQuad(s: Bytes)
    requires |s| >= 3
    ensures Base64Encode(s) == Quad(s) + Base64Encode(s[3..]) && (|s| == 3 ==> Base64Encode(s[3..]) == [])
  {
    assert Quad(s) == FullQuad(s[0], s[1], s[2]);
  }

  lemma OneByteQuad(x: byte)
    ensures Base64Encode([x]) == Quad([x])
  {
    var s := [x];
    assert x % 4 * 16 + 0 / 16 == x % 4 * 16;
    assert Base64Encode(s) == [Base64Char(x / 4), Base64Char(x % 4 * 16), PAD, PAD];
  }

  lemma TwoByteQuad(x: byte, y: byte)
    ensures Base64Encode([x, y]) == Quad([x, y])
  {
    var s := [x, y];
    assert y % 16 * 4 + 0 / 64 == y % 16 * 4;
    assert Base64Encode(s) == [Base64Char(x / 4), Base64Char(x % 4 * 16 + y / 16), Base64Char(y % 16 * 4), PAD];
  }
}
