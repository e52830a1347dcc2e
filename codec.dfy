/**
  The two string renderings a payload buffer is handed to the native layer in:
  base16 (section 8 of RFC 4648, with the lower-case digits Node's `Buffer`
  emits) and base64 (section 4 of RFC 4648, standard alphabet, `=` padding).
  The encoders are the specification of `Buffer.toString('hex' | 'base64')`;
  the decoders are their partners, used to state the round trips.
 */
module Codec {
  import opened Wrappers

  /** One octet of a payload buffer (an element of a `Uint8Array`). */
  newtype byte = b: int | 0 <= b < 256

  // ---------------------------------------------------------------------------
  // Base16
  // ---------------------------------------------------------------------------

  predicate IsHexDigit(c: char) {
    '0' <= c <= '9' || 'a' <= c <= 'f'
  }

  /** The lower-case hexadecimal digit of a nibble. */
  function HexDigit(v: int): (c: char)
    requires 0 <= v < 16
    ensures IsHexDigit(c)
  {
    if v < 10 then ('0' as int + v) as char else ('a' as int + v - 10) as char
  }

  /** The nibble a lower-case hexadecimal digit stands for. */
  function HexValue(c: char): (r: Option<int>)
    ensures r.Some? <==> IsHexDigit(c)
    ensures r.Some? ==> 0 <= r.value < 16 && HexDigit(r.value) == c
  {
    if '0' <= c <= '9' then Some(c as int - '0' as int)
    else if 'a' <= c <= 'f' then Some(c as int - 'a' as int + 10)
    else None
  }

  /** Two digits per octet, high nibble first. */
  function HexEncode(data: seq<byte>): (s: string)
    ensures |s| == 2 * |data|
    ensures forall i :: 0 <= i < |s| ==> IsHexDigit(s[i])
  {
    if data == [] then ""
    else [HexDigit(data[0] as int / 16), HexDigit(data[0] as int % 16)] + HexEncode(data[1..])
  }

  /** Reads pairs of lower-case digits back into octets; anything else fails. */
  function HexDecode(s: string): (r: Option<seq<byte>>)
    ensures r.Some? ==> |s| == 2 * |r.value|
    decreases |s|
  {
    if s == [] then Some([])
    else if |s| == 1 then None
    else
      match (HexValue(s[0]), HexValue(s[1]), HexDecode(s[2..]))
      case (Some(hi), Some(lo), Some(rest)) => Some([(hi * 16 + lo) as byte] + rest)
      case _ => None
  }

  lemma HexDigitValue(v: int)
    requires 0 <= v < 16
    ensures HexValue(HexDigit(v)) == Some(v)
  {
  }

  lemma {:induction false} HexRoundTrip(data: seq<byte>)
    ensures HexDecode(HexEncode(data)) == Some(data)
  {
    if data != [] {
      var s := HexEncode(data);
      var x := data[0] as int;
      HexDigitValue(x / 16);
      HexDigitValue(x % 16);
      HexRoundTrip(data[1..]);
      assert s[2..] == HexEncode(data[1..]);
      assert data == [data[0]] + data[1..];
    }
  }

  /** Every string the decoder accepts is the encoding of what it decodes to. */
  lemma {:induction false} HexDecodeCanonical(s: string)
    requires HexDecode(s).Some?
    ensures HexEncode(HexDecode(s).value) == s
    decreases |s|
  {
    if s != [] {
      HexDecodeCanonical(s[2..]);
      var d := HexDecode(s).value;
      assert d[1..] == HexDecode(s[2..]).value;
      assert s == [s[0], s[1]] + s[2..];
    }
  }

  // ---------------------------------------------------------------------------
  // Base64
  // ---------------------------------------------------------------------------

  /** A character of the RFC 4648 base64 alphabet (padding excluded). */
  predicate IsBase64Char(c: char) {
    'A' <= c <= 'Z' || 'a' <= c <= 'z' || '0' <= c <= '9' || c == '+' || c == '/'
  }

  const Pad: char := '='

  /** The alphabet character of a sextet: A-Z, a-z, 0-9, `+`, `/`. */
  function Base64Char(v: int): (c: char)
    requires 0 <= v < 64
    ensures IsBase64Char(c)
  {
    if v < 26 then ('A' as int + v) as char
    else if v < 52 then ('a' as int + v - 26) as char
    else if v < 62 then ('0' as int + v - 52) as char
    else if v == 62 then '+'
    else '/'
  }

  /** The sextet an alphabet character stands for. */
  function Base64Value(c: char): (r: Option<int>)
    ensures r.Some? <==> IsBase64Char(c)
    ensures r.Some? ==> 0 <= r.value < 64 && Base64Char(r.value) == c
  {
    if 'A' <= c <= 'Z' then Some(c as int - 'A' as int)
    else if 'a' <= c <= 'z' then Some(c as int - 'a' as int + 26)
    else if '0' <= c <= '9' then Some(c as int - '0' as int + 52)
    else if c == '+' then Some(62)
    else if c == '/' then Some(63)
    else None
  }

  /** The four characters of one complete 24-bit group. */
  function EncodeGroup(b0: byte, b1: byte, b2: byte): string {
    [ Base64Char(b0 as int / 4),
      Base64Char(b0 as int % 4 * 16 + b1 as int / 16),
      Base64Char(b1 as int % 16 * 4 + b2 as int / 64),
      Base64Char(b2 as int % 64) ]
  }

  /** A final group of one or two octets, padded with `=` to four characters. */
  function EncodeTail(data: seq<byte>): string
    requires 1 <= |data| <= 2
  {
    if |data| == 1 then
      [Base64Char(data[0] as int / 4), Base64Char(data[0] as int % 4 * 16), Pad, Pad]
    else
      [ Base64Char(data[0] as int / 4),
        Base64Char(data[0] as int % 4 * 16 + data[1] as int / 16),
        Base64Char(data[1] as int % 16 * 4), Pad ]
  }

  /** Padding marks a short final group: it appears only in the last two places. */
  ghost predicate Base64Shaped(s: string) {
    forall i :: 0 <= i < |s| ==> IsBase64Char(s[i]) || (|s| - 2 <= i && s[i] == Pad)
  }

  function Base64Encode(data: seq<byte>): (s: string)
    ensures |s| == 4 * ((|data| + 2) / 3)
    ensures Base64Shaped(s)
    decreases |data|
  {
    if |data| == 0 then ""
    else if |data| <= 2 then EncodeTail(data)
    else EncodeGroup(data[0], data[1], data[2]) + Base64Encode(data[3..])
  }

  /** Decodes one complete four-character group into three octets. */
  function DecodeGroup(c0: char, c1: char, c2: char, c3: char): (r: Option<seq<byte>>)
    ensures r.Some? ==> |r.value| == 3
  {
    match (Base64Value(c0), Base64Value(c1), Base64Value(c2), Base64Value(c3))
    case (Some(v0), Some(v1), Some(v2), Some(v3)) =>
      Some([ (v0 * 4 + v1 / 16) as byte, (v1 % 16 * 16 + v2 / 4) as byte, (v2 % 4 * 64 + v3) as byte ])
    case _ => None
  }

  /** Decodes the last group, which may carry one or two `=`; the bits the padding
      leaves over must be zero (the canonical encoding of section 3.5 of RFC 4648). */
  function DecodeLast(c0: char, c1: char, c2: char, c3: char): (r: Option<seq<byte>>)
    ensures r.Some? ==> 1 <= |r.value| <= 3
  {
    if c2 == Pad && c3 == Pad then
      match (Base64Value(c0), Base64Value(c1))
      case (Some(v0), Some(v1)) =>
        if v1 % 16 == 0 then Some([(v0 * 4 + v1 / 16) as byte]) else None
      case _ => None
    else if c3 == Pad then
      match (Base64Value(c0), Base64Value(c1), Base64Value(c2))
      case (Some(v0), Some(v1), Some(v2)) =>
        if v2 % 4 == 0 then Some([(v0 * 4 + v1 / 16) as byte, (v1 % 16 * 16 + v2 / 4) as byte]) else None
      case _ => None
    else DecodeGroup(c0, c1, c2, c3)
  }

  function Base64Decode(s: string): (r: Option<seq<byte>>)
    ensures r.Some? ==> |s| == 4 * ((|r.value| + 2) / 3)
    decreases |s|
  {
    if s == [] then Some([])
    else if |s| < 4 then None
    else if |s| == 4 then DecodeLast(s[0], s[1], s[2], s[3])
    else
      match (DecodeGroup(s[0], s[1], s[2], s[3]), Base64Decode(s[4..]))
      case (Some(g), Some(rest)) => Some(g + rest)
      case _ => None
  }

  lemma Base64CharValue(v: int)
    requires 0 <= v < 64
    ensures Base64Value(Base64Char(v)) == Some(v)
  {
  }

  /** Splitting an octet into a high and a low part and joining them again. */
  lemma Rejoin(x: int, k: int)
    requires 0 <= x < 256 && (k == 4 || k == 16 || k == 64)
    ensures (x / k) * k + x % k == x
  {
  }

  /** The high and low parts of `hi * k + lo` are `hi` and `lo`. */
  lemma Unpack(hi: int, lo: int, k: int)
    requires 0 <= hi < 64 && 0 <= lo < k && (k == 4 || k == 16 || k == 64)
    ensures (hi * k + lo) / k == hi && (hi * k + lo) % k == lo
  {
    if k == 4 {
      assert hi * k + lo == 4 * hi + lo;
    } else if k == 16 {
      assert hi * k + lo == 16 * hi + lo;
    } else {
      assert hi * k + lo == 64 * hi + lo;
    }
  }

  lemma GroupRoundTrip(b0: byte, b1: byte, b2: byte)
    ensures var e := EncodeGroup(b0, b1, b2);
      DecodeGroup(e[0], e[1], e[2], e[3]) == Some([b0, b1, b2])
  {
    var x0, x1, x2 := b0 as int, b1 as int, b2 as int;
    var v0, v1, v2, v3 := x0 / 4, x0 % 4 * 16 + x1 / 16, x1 % 16 * 4 + x2 / 64, x2 % 64;
    Base64CharValue(v0);
    Base64CharValue(v1);
    Base64CharValue(v2);
    Base64CharValue(v3);
    Unpack(x0 % 4, x1 / 16, 16);
    Unpack(x1 % 16, x2 / 64, 4);
    Rejoin(x0, 4);
    Rejoin(x1, 16);
    Rejoin(x2, 64);
    assert (v0 * 4 + v1 / 16) as byte == b0;
    assert (v1 % 16 * 16 + v2 / 4) as byte == b1;
    assert (v2 % 4 * 64 + v3) as byte == b2;
  }

  lemma TailRoundTrip(data: seq<byte>)
    requires 1 <= |data| <= 2
    ensures var e := EncodeTail(data);
      DecodeLast(e[0], e[1], e[2], e[3]) == Some(data)
  {
    var x0 := data[0] as int;
    Base64CharValue(x0 / 4);
    Rejoin(x0, 4);
    if |data| == 1 {
      var v1 := x0 % 4 * 16;
      Base64CharValue(v1);
      Unpack(x0 % 4, 0, 16);
      assert v1 / 16 == x0 % 4 && v1 % 16 == 0;
      assert (x0 / 4 * 4 + v1 / 16) as byte == data[0];
      assert data == [data[0]];
    } else {
      var x1 := data[1] as int;
      var v1, v2 := x0 % 4 * 16 + x1 / 16, x1 % 16 * 4;
      Base64CharValue(v1);
      Base64CharValue(v2);
      Unpack(x0 % 4, x1 / 16, 16);
      Unpack(x1 % 16, 0, 4);
      Rejoin(x1, 16);
      assert (x0 / 4 * 4 + v1 / 16) as byte == data[0];
      assert (v1 % 16 * 16 + v2 / 4) as byte == data[1];
      assert data == [data[0], data[1]];
    }
  }

  /** A complete group at the end of the string carries no padding. */
  lemma LastGroupUnpadded(b0: byte, b1: byte, b2: byte)
    ensures var g := EncodeGroup(b0, b1, b2);
      DecodeLast(g[0], g[1], g[2], g[3]) == DecodeGroup(g[0], g[1], g[2], g[3])
  {
    var g := EncodeGroup(b0, b1, b2);
    assert IsBase64Char(g[2]) && IsBase64Char(g[3]);
  }

  /** Decoding a complete group followed by a non-empty remainder. */
  lemma DecodeGroupThenRest(g: string, rest: string)
    requires |g| == 4 && |rest| >= 4
    ensures Base64Decode(g + rest) ==
      match (DecodeGroup(g[0], g[1], g[2], g[3]), Base64Decode(rest))
      case (Some(x), Some(y)) => Some(x + y)
      case _ => None
  {
    var s := g + rest;
    assert s[4..] == rest;
    assert s[0] == g[0] && s[1] == g[1] && s[2] == g[2] && s[3] == g[3];
  }

  lemma {:induction false} Base64RoundTrip(data: seq<byte>)
    ensures Base64Decode(Base64Encode(data)) == Some(data)
    decreases |data|
  {
    if |data| == 0 {
    } else if |data| <= 2 {
      TailRoundTrip(data);
    } else if |data| == 3 {
      ThreeBytes(data);
      SingleGroupRoundTrip(data[0], data[1], data[2]);
    } else {
      Base64RoundTrip(data[3..]);
      LeadingGroupRoundTrip(data[0], data[1], data[2], data[3..]);
      SplitGroup(data);
    }
  }

  /** A sequence identity, stated on its own so that the proofs using it stay small. */
  lemma SplitGroup(data: seq<byte>)
    requires |data| >= 3
    ensures data == [data[0], data[1], data[2]] + data[3..]
  {
  }

  /** One step of the round trip: a complete leading group, then the rest. */
  lemma LeadingGroupRoundTrip(b0: byte, b1: byte, b2: byte, tail: seq<byte>)
    requires tail != []
    requires Base64Decode(Base64Encode(tail)) == Some(tail)
    ensures Base64Decode(Base64Encode([b0, b1, b2] + tail)) == Some([b0, b1, b2] + tail)
  {
    var data := [b0, b1, b2] + tail;
    assert data[3..] == tail;
    var g, rest := EncodeGroup(b0, b1, b2), Base64Encode(tail);
    assert Base64Encode(data) == g + rest;
    GroupRoundTrip(b0, b1, b2);
    DecodeGroupThenRest(g, rest);
  }

  lemma SingleGroupDecode(b0: byte, b1: byte, b2: byte)
    ensures Base64Decode(EncodeGroup(b0, b1, b2)) == Some([b0, b1, b2])
  {
    var g := EncodeGroup(b0, b1, b2);
    assert |g| == 4;
    GroupRoundTrip(b0, b1, b2);
    LastGroupUnpadded(b0, b1, b2);
  }

  lemma SingleGroupEncode(b0: byte, b1: byte, b2: byte)
    ensures Base64Encode([b0, b1, b2]) == EncodeGroup(b0, b1, b2)
  {
    var g := EncodeGroup(b0, b1, b2);
    assert [b0, b1, b2][3..] == [];
    assert g + [] == g;
  }

  lemma SingleGroupRoundTrip(b0: byte, b1: byte, b2: byte)
    ensures Base64Decode(Base64Encode([b0, b1, b2])) == Some([b0, b1, b2])
  {
    SingleGroupEncode(b0, b1, b2);
    SingleGroupDecode(b0, b1, b2);
  }

  /** A sequence identity, stated on its own so that the proofs using it stay small. */
  lemma ThreeBytes(data: seq<byte>)
    requires |data| == 3
    ensures data == [data[0], data[1], data[2]]
  {
  }

  /** A group the decoder accepts is the encoding of the octets it decodes to. */
  lemma GroupCanonical(c0: char, c1: char, c2: char, c3: char)
    requires DecodeGroup(c0, c1, c2, c3).Some?
    ensures var g := DecodeGroup(c0, c1, c2, c3).value;
      EncodeGroup(g[0], g[1], g[2]) == [c0, c1, c2, c3]
  {
    var v0, v1, v2, v3 := Base64Value(c0).value, Base64Value(c1).value, Base64Value(c2).value, Base64Value(c3).value;
    var g := DecodeGroup(c0, c1, c2, c3).value;
    var x0, x1, x2 := g[0] as int, g[1] as int, g[2] as int;
    assert x0 == v0 * 4 + v1 / 16 && x1 == v1 % 16 * 16 + v2 / 4 && x2 == v2 % 4 * 64 + v3;
    Unpack(v0, v1 / 16, 4);
    Unpack(v1 % 16, v2 / 4, 16);
    Unpack(v2 % 4, v3, 64);
    Rejoin(v1, 16);
    Rejoin(v2, 4);
    assert x0 / 4 == v0 && x0 % 4 * 16 + x1 / 16 == v1;
    assert x1 % 16 * 4 + x2 / 64 == v2 && x2 % 64 == v3;
  }

  /** A last group the decoder accepts is the encoding of the octets it decodes to. */
  lemma LastCanonical(c0: char, c1: char, c2: char, c3: char)
    requires DecodeLast(c0, c1, c2, c3).Some?
    ensures Base64Encode(DecodeLast(c0, c1, c2, c3).value) == [c0, c1, c2, c3]
  {
    var d := DecodeLast(c0, c1, c2, c3).value;
    if c2 == Pad && c3 == Pad {
      var v0, v1 := Base64Value(c0).value, Base64Value(c1).value;
      Unpack(v0, v1 / 16, 4);
      Rejoin(v1, 16);
      assert d[0] as int / 4 == v0 && d[0] as int % 4 * 16 == v1;
    } else if c3 == Pad {
      var v0, v1, v2 := Base64Value(c0).value, Base64Value(c1).value, Base64Value(c2).value;
      Unpack(v0, v1 / 16, 4);
      Unpack(v1 % 16, v2 / 4, 16);
      Rejoin(v1, 16);
      Rejoin(v2, 4);
      assert d[0] as int / 4 == v0 && d[0] as int % 4 * 16 + d[1] as int / 16 == v1;
      assert d[1] as int % 16 * 4 == v2;
    } else {
      GroupCanonical(c0, c1, c2, c3);
      ThreeBytes(d);
      SingleGroupEncode(d[0], d[1], d[2]);
    }
  }

  /** Encoding octets that start with a complete group. */
  lemma EncodeGroupThenRest(b0: byte, b1: byte, b2: byte, tail: seq<byte>)
    requires tail != []
    ensures Base64Encode([b0, b1, b2] + tail) == EncodeGroup(b0, b1, b2) + Base64Encode(tail)
  {
    var data := [b0, b1, b2] + tail;
    assert data[3..] == tail;
  }

  /** How the decoder splits a string longer than one group. */
  lemma DecodeStep(s: string)
    requires |s| > 4 && Base64Decode(s).Some?
    ensures DecodeGroup(s[0], s[1], s[2], s[3]).Some? && Base64Decode(s[4..]).Some?
    ensures Base64Decode(s).value == DecodeGroup(s[0], s[1], s[2], s[3]).value + Base64Decode(s[4..]).value
  {
  }

  /** A complete leading group and a canonical rest make a canonical string. */
  lemma GroupThenRestCanonical(s: string, g: seq<byte>, rest: seq<byte>)
    requires |s| > 4 && DecodeGroup(s[0], s[1], s[2], s[3]) == Some(g)
    requires Base64Encode(rest) == s[4..]
    ensures Base64Encode(g + rest) == s
  {
    GroupCanonical(s[0], s[1], s[2], s[3]);
    ThreeBytes(g);
    EncodeGroupThenRest(g[0], g[1], g[2], rest);
    assert s == [s[0], s[1], s[2], s[3]] + s[4..];
  }

  /** A single last group the decoder accepts is canonical. */
  lemma LastOnlyCanonical(s: string)
    requires |s| == 4 && Base64Decode(s).Some?
    ensures Base64Encode(Base64Decode(s).value) == s
  {
    LastCanonical(s[0], s[1], s[2], s[3]);
    assert s == [s[0], s[1], s[2], s[3]];
  }

  /** Every string the decoder accepts is the encoding of what it decodes to. */
  lemma {:induction false} Base64DecodeCanonical(s: string)
    requires Base64Decode(s).Some?
    ensures Base64Encode(Base64Decode(s).value) == s
    decreases |s|
  {
    if |s| == 4 {
      LastOnlyCanonical(s);
    } else if s != [] {
      Base64DecodeCanonical(s[4..]);
      DecodeStep(s);
      GroupThenRestCanonical(s, DecodeGroup(s[0], s[1], s[2], s[3]).value, Base64Decode(s[4..]).value);
    }
  }
}
