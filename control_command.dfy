/** The packed `ControlCommand` payload: speed (int32), direction (byte), stop (byte). */
module ControlCommands {
  import opened Wire

  datatype ControlCommand = ControlCommand(speed: int32, direction: byte, stop: byte)

  /** `Marshal.SizeOf(typeof(ControlCommand))`: four bytes of speed, one of direction, one of stop. */
  const ControlCommandSize: nat := 6

  function EncodeControlCommand(c: ControlCommand): (b: seq<byte>)
    ensures |b| == ControlCommandSize
    ensures DecodeInt32(b[..4]) == c.speed && b[4] == c.direction && b[5] == c.stop
    ensures DecodeControlCommand(b) == c
  {
    EncodeInt32(c.speed) + [c.direction, c.stop]
  }

  function DecodeControlCommand(b: seq<byte>): (c: ControlCommand)
    requires |b| == ControlCommandSize
    ensures c.speed < 0 <==> b[3] >= 0x80
  {
    ControlCommand(DecodeInt32(b[..4]), b[4], b[5])
  }

  /** Every six-byte buffer is the encoding of the command it decodes to. */
  lemma EncodeDecodeControlCommand(b: seq<byte>)
    requires |b| == ControlCommandSize
    ensures EncodeControlCommand(DecodeControlCommand(b)) == b
  {
    EncodeDecodeInt32(b[..4]);
  }
}
