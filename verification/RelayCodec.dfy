/** The binary body-frame codec (crates/c6-cloud-core/src/relay.rs:264-308). */
module RelayCodec {
  import opened Common
  import opened RelayFrames

  const HEADER_BYTES: nat := 22

  datatype Decoded = Frame(frame: BodyFrame) | Malformed(error: ValidationError)

  function Pow256(n: nat): (p: nat)
    ensures p >= 1
  {
    if n == 0 then 1 else 256 * Pow256(n - 1)
  }

  /** The `width` low-order bytes of `value`, most significant first. */
  function BigEndian(value: nat, width: nat): (bytes: seq<byte>)
    ensures |bytes| == width
  {
    if width == 0 then [] else BigEndian(value / 256, width - 1) + [value % 256]
  }

  function FromBigEndian(bytes: seq<byte>): nat {
    if bytes == [] then 0 else 256 * FromBigEndian(bytes[..|bytes| - 1]) + bytes[|bytes| - 1]
  }

  lemma {:induction false} BigEndianRoundTrip(value: nat, width: nat)
    requires value < Pow256(width)
    ensures FromBigEndian(BigEndian(value, width)) == value
  {
    if width > 0 {
      BigEndianRoundTrip(value / 256, width - 1);
      assert BigEndian(value, width)[..width - 1] == BigEndian(value / 256, width - 1);
    }
  }

  lemma {:induction false} FromBigEndianRoundTrip(bytes: seq<byte>)
    ensures FromBigEndian(bytes) < Pow256(|bytes|)
    ensures BigEndian(FromBigEndian(bytes), |bytes|) == bytes
  {
    if bytes == [] {
    } else {
      FromBigEndianRoundTrip(bytes[..|bytes| - 1]);
    }
  }

  /** What network byte order means, read from the front: the first byte weighs most. */
  function Weight(bytes: seq<byte>): nat {
    if bytes == [] then 0 else bytes[0] * Pow256(|bytes| - 1) + Weight(bytes[1..])
  }

  lemma {:induction false} FirstWeighsMost(first: byte, rest: seq<byte>)
    ensures FromBigEndian([first] + rest) == first * Pow256(|rest|) + FromBigEndian(rest)
    decreases |rest|
  {
    if rest == [] {
      assert ([first] + rest)[..0] == [];
    } else {
      var front, last := rest[..|rest| - 1], rest[|rest| - 1];
      FirstWeighsMost(first, front);
      assert ([first] + rest)[..|rest|] == [first] + front;
      assert 256 * (first * Pow256(|front|)) == first * (256 * Pow256(|front|));
    }
  }

  lemma {:induction false} FromBigEndianWeighs(bytes: seq<byte>)
    ensures FromBigEndian(bytes) == Weight(bytes)
    decreases |bytes|
  {
    if bytes == [] {
    } else {
      FromBigEndianWeighs(bytes[1..]);
      FirstWeighsMost(bytes[0], bytes[1..]);
      assert [bytes[0]] + bytes[1..] == bytes;
    }
  }

  function KindByte(kind: BodyKind): byte {
    match kind
    case RequestChunk => 1
    case ResponseChunk => 2
  }

  /** The bytes of a frame: version, kind, sixteen id bytes, big-endian sequence, payload. */
  function Layout(frame: BodyFrame): seq<byte> {
    [RELAY_PROTOCOL_VERSION as byte, KindByte(frame.kind)] + BigEndian(frame.id, 16) + BigEndian(frame.sequence, 4)
      + frame.payload
  }

  /** The wire format: version 1, the kind, the id and the sequence in network byte order, and the
      payload. */
  lemma LayoutIsWireFormat(frame: BodyFrame)
    ensures var bytes := Layout(frame);
            && |bytes| == 22 + |frame.payload| && bytes[0] == 1
            && bytes[1] == (if frame.kind == RequestChunk then 1 else 2)
            && Weight(bytes[2..18]) == frame.id && Weight(bytes[18..22]) == frame.sequence
            && bytes[22..] == frame.payload
  {
    var bytes := Layout(frame);
    Pow256Values();
    BigEndianRoundTrip(frame.id, 16);
    BigEndianRoundTrip(frame.sequence, 4);
    assert bytes[2..18] == BigEndian(frame.id, 16) && bytes[18..22] == BigEndian(frame.sequence, 4);
    FromBigEndianWeighs(bytes[2..18]);
    FromBigEndianWeighs(bytes[18..22]);
  }

  /** `encode`, pushing into its output buffer; `None` is the oversize error. */
  method Encode(frame: BodyFrame) returns (output: Option<seq<byte>>)
    ensures |frame.payload| > MAX_BODY_CHUNK_BYTES ==> output == None
    ensures |frame.payload| <= MAX_BODY_CHUNK_BYTES ==>
              output == Some(Layout(frame)) && Decode(output.value) == Frame(frame)
  {
    if |frame.payload| > MAX_BODY_CHUNK_BYTES {
      return None;
    }
    var buffer: seq<byte> := [];
    buffer := buffer + [RELAY_PROTOCOL_VERSION as byte];
    buffer := buffer + [match frame.kind case RequestChunk => 1 case ResponseChunk => 2];
    buffer := buffer + BigEndian(frame.id, 16);
    buffer := buffer + BigEndian(frame.sequence, 4);
    buffer := buffer + frame.payload;
    assert buffer == Layout(frame);
    output := Some(buffer);
    DecodeInvertsEncode(frame);
  }

  function Decode(input: seq<byte>): Decoded {
    if |input| < HEADER_BYTES then Malformed(MalformedBodyFrame)
    else if |input| - HEADER_BYTES > MAX_BODY_CHUNK_BYTES then Malformed(ChunkTooLarge)
    else if input[0] != RELAY_PROTOCOL_VERSION then Malformed(UnsupportedProtocol)
    else if input[1] != 1 && input[1] != 2 then Malformed(MalformedBodyFrame)
    else
      FieldsInRange(input);
      Frame(BodyFrame(
        if input[1] == 1 then RequestChunk else ResponseChunk,
        FromBigEndian(input[2..18]),
        FromBigEndian(input[18..22]),
        input[22..]))
  }

  lemma Pow256Values()
    ensures Pow256(4) == 0x1_0000_0000
    ensures Pow256(16) == 0x1_0000_0000_0000_0000_0000_0000_0000_0000
  {
    assert Pow256(4) == 256 * 256 * 256 * 256;
    assert Pow256(8) == 256 * 256 * 256 * 256 * Pow256(4);
    assert Pow256(12) == 256 * 256 * 256 * 256 * Pow256(8);
    assert Pow256(16) == 256 * 256 * 256 * 256 * Pow256(12);
  }

  lemma FieldsInRange(input: seq<byte>)
    requires |input| >= HEADER_BYTES
    ensures FromBigEndian(input[2..18]) < 0x1_0000_0000_0000_0000_0000_0000_0000_0000
    ensures FromBigEndian(input[18..22]) < 0x1_0000_0000
  {
    Pow256Values();
    FromBigEndianRoundTrip(input[2..18]);
    FromBigEndianRoundTrip(input[18..22]);
  }

  /** Every frame within the payload limit survives the wire. */
  lemma DecodeInvertsEncode(frame: BodyFrame)
    requires |frame.payload| <= MAX_BODY_CHUNK_BYTES
    ensures Decode(Layout(frame)) == Frame(frame)
  {
    var bytes := Layout(frame);
    Pow256Values();
    BigEndianRoundTrip(frame.id, 16);
    BigEndianRoundTrip(frame.sequence, 4);
    assert bytes[2..18] == BigEndian(frame.id, 16);
    assert bytes[18..22] == BigEndian(frame.sequence, 4);
    assert bytes[22..] == frame.payload;
  }

  /** No two byte strings decode to the same frame: what `Decode` accepts re-encodes to itself. */
  lemma EncodeInvertsDecode(input: seq<byte>)
    requires Decode(input).Frame?
    ensures |Decode(input).frame.payload| <= MAX_BODY_CHUNK_BYTES
    ensures Layout(Decode(input).frame) == input
  {
    FieldsInRange(input);
    FromBigEndianRoundTrip(input[2..18]);
    FromBigEndianRoundTrip(input[18..22]);
    assert input == [input[0], input[1]] + input[2..18] + input[18..22] + input[22..];
  }

  /** Why bytes are refused: too short or too long before the version, the version before the kind. */
  lemma DecodeRefusals(input: seq<byte>)
    ensures Decode(input) == Malformed(ChunkTooLarge) <==> |input| > 22 + 65_536
    ensures Decode(input) == Malformed(UnsupportedProtocol) <==> 22 <= |input| <= 22 + 65_536 && input[0] != 1
    ensures Decode(input) == Malformed(MalformedBodyFrame) <==>
              |input| < 22 || (|input| <= 22 + 65_536 && input[0] == 1 && input[1] !in {1, 2})
  {
  }

  /** The decoder accepts exactly the images of frames within the payload limit. */
  lemma DecodeAcceptsExactlyFrames(input: seq<byte>)
    ensures Decode(input).Frame? <==>
            exists frame: BodyFrame :: |frame.payload| <= MAX_BODY_CHUNK_BYTES && Layout(frame) == input
  {
    if Decode(input).Frame? {
      EncodeInvertsDecode(input);
    }
    forall frame: BodyFrame | |frame.payload| <= MAX_BODY_CHUNK_BYTES && Layout(frame) == input
      ensures Decode(input).Frame?
    {
      DecodeInvertsEncode(frame);
    }
  }
}
