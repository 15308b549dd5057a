/** The byte-backed `MessageType` enumeration that discriminates packets. */
module MessageTypes {
  import opened Wire
  import opened Wrappers

  datatype MessageType = ERR | ACK | ControlCommand | MoveToCommand

  /** The byte a message type is written as: ERR = 0, ACK = 1, ControlCommand = 2, MoveToCommand = 3. */
  function ToByte(t: MessageType): (b: byte)
    ensures b < 4
    ensures FromByte(b) == Some(t)
    ensures t == ERR <==> b == 0
    ensures t == ACK <==> b == 1
    ensures t == ControlCommand <==> b == 2
    ensures t == MoveToCommand <==> b == 3
  {
    match t
    case ERR => 0x00
    case ACK => 0x01
    case ControlCommand => 0x02
    case MoveToCommand => 0x03
  }

  /** The cast `(MessageType)b`: a named type for 0..3, no name for any other byte. */
  function FromByte(b: byte): (r: Option<MessageType>)
    ensures r.Some? <==> b < 4
    ensures b == 0 ==> r == Some(ERR)
    ensures b == 1 ==> r == Some(ACK)
    ensures b == 2 ==> r == Some(ControlCommand)
    ensures b == 3 ==> r == Some(MoveToCommand)
  {
    if b == 0x00 then Some(ERR)
    else if b == 0x01 then Some(ACK)
    else if b == 0x02 then Some(ControlCommand)
    else if b == 0x03 then Some(MoveToCommand)
    else None
  }

  /** The four named values are distinct bytes. */
  lemma ToByteInjective(s: MessageType, t: MessageType)
    ensures ToByte(s) == ToByte(t) ==> s == t
  {
    assert FromByte(ToByte(s)) == Some(s);
  }

  /** Every named byte converts back to itself. */
  lemma FromByteToByte(b: byte)
    requires FromByte(b).Some?
    ensures ToByte(FromByte(b).value) == b
  {
  }
}
