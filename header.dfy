/**
 * The packed protocol header. The four fields of the declared struct come
 * first, in declaration order (version, message type, flags, payload
 * length); the sequence number the services assign is the fifth byte.
 */
module Headers {
  import opened Wire

  datatype Header = Header(
    versionNumber: byte,
    messageType: byte,
    flags: byte,
    length: byte,
    sequenceNumber: byte)

  /** `Marshal.SizeOf(typeof(Header))`: five one-byte fields, no padding. */
  const HeaderSize: nat := 5

  function EncodeHeader(h: Header): (b: seq<byte>)
    ensures |b| == HeaderSize
    ensures DecodeHeader(b) == h
  {
    [h.versionNumber, h.messageType, h.flags, h.length, h.sequenceNumber]
  }

  /** `DeserializeStruct<Header>(data, 0)`: reads the first `HeaderSize` bytes of a datagram. */
  function DecodeHeader(b: seq<byte>): (h: Header)
    requires |b| >= HeaderSize
    ensures [h.versionNumber, h.messageType, h.flags, h.length, h.sequenceNumber] == b[..HeaderSize]
  {
    Header(b[0], b[1], b[2], b[3], b[4])
  }

  /** Each field sits at its own offset; the declared four fields keep their declared order. */
  lemma HeaderLayout(h: Header)
    ensures EncodeHeader(h)[..4] == [h.versionNumber, h.messageType, h.flags, h.length]
    ensures EncodeHeader(h)[4] == h.sequenceNumber
  {
  }

  /** Every header-sized buffer is the encoding of the header it decodes to. */
  lemma EncodeDecodeHeader(b: seq<byte>)
    requires |b| == HeaderSize
    ensures EncodeHeader(DecodeHeader(b)) == b
  {
  }

  /** Decoding looks at the first `HeaderSize` bytes only: whatever follows them does not change the header. */
  lemma DecodeHeaderPrefix(b: seq<byte>, rest: seq<byte>)
    requires |b| >= HeaderSize
    ensures DecodeHeader(b + rest) == DecodeHeader(b) == DecodeHeader(b[..HeaderSize])
  {
  }
}
