/**
  `bytesToString`: the caller's bytes are piled into a byte accumulator
  (`BufferHelper`), the accumulator is turned back into one buffer, and the
  buffer is rendered as base64 or hex for the native layer.
 */
module Bytes {
  import opened Wrappers
  import opened Codec

  /** The two renderings `bytesToString` is asked for: `'base64'` and `'hex'`. */
  datatype Rendering = Base64 | Hex

  /** `Buffer.toString(kind)`. */
  function Render(data: seq<byte>, kind: Rendering): string {
    match kind
    case Base64 => Base64Encode(data)
    case Hex => HexEncode(data)
  }

  /** The decoder matching a rendering. */
  function Parse(s: string, kind: Rendering): Option<seq<byte>> {
    match kind
    case Base64 => Base64Decode(s)
    case Hex => HexDecode(s)
  }

  lemma RenderRoundTrip(data: seq<byte>, kind: Rendering)
    ensures Parse(Render(data, kind), kind) == Some(data)
  {
    match kind
    case Base64 => Base64RoundTrip(data);
    case Hex => HexRoundTrip(data);
  }

  /** All chunks, in the order they were added. */
  function Flatten(chunks: seq<seq<byte>>): seq<byte> {
    if chunks == [] then [] else Flatten(chunks[..|chunks| - 1]) + chunks[|chunks| - 1]
  }

  /** The byte accumulator: a list of chunks that `Concat` appends to. */
  class BufferHelper {
    var chunks: seq<seq<byte>>

    /** The bytes accumulated so far. */
    ghost function Contents(): seq<byte>
      reads this
    {
      Flatten(chunks)
    }

    constructor ()
      ensures chunks == [] && Contents() == []
    {
      chunks := [];
    }

    /** Appends one chunk. */
    method Concat(buffer: seq<byte>)
      modifies this
      ensures chunks == old(chunks) + [buffer]
      ensures Contents() == old(Contents()) + buffer
    {
      chunks := chunks + [buffer];
      assert chunks[..|chunks| - 1] == old(chunks);
    }

    /** Copies the chunks, in order, into one buffer. */
    method ToBuffer() returns (r: seq<byte>)
      ensures r == Contents()
    {
      r := [];
      var i := 0;
      while i < |chunks|
        invariant 0 <= i <= |chunks|
        invariant r == Flatten(chunks[..i])
      {
        assert chunks[..i + 1][..i] == chunks[..i];
        r := r + chunks[i];
        i := i + 1;
      }
      assert chunks[..i] == chunks;
    }
  }

  /** The hex rendering loop: two digits per byte, in order. */
  method EncodeHex(buf: seq<byte>) returns (s: string)
    ensures s == HexEncode(buf)
  {
    s := "";
    var i := 0;
    while i < |buf|
      invariant 0 <= i <= |buf|
      invariant s + HexEncode(buf[i..]) == HexEncode(buf)
    {
      assert buf[i..][1..] == buf[i + 1..];
      s := s + [HexDigit(buf[i] as int / 16), HexDigit(buf[i] as int % 16)];
      i := i + 1;
    }
    assert buf[i..] == [];
  }

  /** One step of the base64 rendering: a complete leading group. */
  lemma Base64Step(d: seq<byte>)
    requires |d| >= 3
    ensures Base64Encode(d) == EncodeGroup(d[0], d[1], d[2]) + Base64Encode(d[3..])
  {
  }

  /** A sequence identity, stated on its own so that the proofs using it stay small. */
  lemma AppendAssoc(a: string, b: string, c: string)
    ensures (a + b) + c == a + (b + c)
  {
  }

  /** The base64 rendering loop: one group of four characters per three bytes,
      then the padded tail. */
  method EncodeBase64(buf: seq<byte>) returns (s: string)
    ensures s == Base64Encode(buf)
  {
    s := "";
    var i := 0;
    while |buf| - i >= 3
      invariant 0 <= i <= |buf|
      invariant s + Base64Encode(buf[i..]) == Base64Encode(buf)
    {
      var g := EncodeGroup(buf[i], buf[i + 1], buf[i + 2]);
      Base64Step(buf[i..]);
      assert buf[i..][3..] == buf[i + 3..];
      AppendAssoc(s, g, Base64Encode(buf[i + 3..]));
      s := s + g;
      i := i + 3;
    }
    if i < |buf| {
      s := s + EncodeTail(buf[i..]);
    } else {
      assert s + Base64Encode(buf[i..]) == s + "";
      assert s + "" == s;
    }
  }

  /** `bytesToString(data, kind)`. */
  method BytesToString(data: seq<byte>, kind: Rendering) returns (s: string)
    ensures s == Render(data, kind)
    ensures Parse(s, kind) == Some(data)
  {
    var bytes := new BufferHelper();
    bytes.Concat(data);
    var buffer := bytes.ToBuffer();
    assert buffer == data;
    RenderRoundTrip(data, kind);
    match kind
    case Base64 => s := EncodeBase64(buffer);
    case Hex => s := EncodeHex(buffer);
  }
}
