/** The packed `MoveToCommand` payload: target coordinates x and y, both int32. */
module MoveToCommands {
  import opened Wire

  datatype MoveToCommand = MoveToCommand(x: int32, y: int32)

  /** `Marshal.SizeOf(typeof(MoveToCommand))`: two four-byte integers. */
  const MoveToCommandSize: nat := 8

  function EncodeMoveToCommand(m: MoveToCommand): (b: seq<byte>)
    ensures |b| == MoveToCommandSize
    ensures DecodeInt32(b[..4]) == m.x && DecodeInt32(b[4..]) == m.y
    ensures DecodeMoveToCommand(b) == m
  {
    EncodeInt32(m.x) + EncodeInt32(m.y)
  }

  function DecodeMoveToCommand(b: seq<byte>): (m: MoveToCommand)
    requires |b| == MoveToCommandSize
    ensures m.x < 0 <==> b[3] >= 0x80
    ensures m.y < 0 <==> b[7] >= 0x80
  {
    MoveToCommand(DecodeInt32(b[..4]), DecodeInt32(b[4..]))
  }

  /** Every eight-byte buffer is the encoding of the command it decodes to. */
  lemma EncodeDecodeMoveToCommand(b: seq<byte>)
    requires |b| == MoveToCommandSize
    ensures EncodeMoveToCommand(DecodeMoveToCommand(b)) == b
  {
    EncodeDecodeInt32(b[..4]);
    EncodeDecodeInt32(b[4..]);
    assert b == b[..4] + b[4..];
  }
}
