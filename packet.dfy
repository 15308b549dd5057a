/**
 * What the three services share: payloads, the serialised packet layout,
 * endpoints and datagrams, the header of an outgoing packet, the typed
 * notifications raised on receipt, and the per-type dispatch with size
 * checks used by the UDP service and the application protocol service.
 */
module Packets {
  import opened Wire
  import opened Wrappers
  import opened MessageTypes
  import opened HeaderFlags
  import opened Headers
  import opened ControlCommands
  import opened MoveToCommands

  /** The payload structs a packet can carry. */
  datatype Payload = Control(command: ControlCommand) | MoveTo(move: MoveToCommand)

  /** `Marshal.SizeOf(typeof(T))` for the payload's struct. */
  function PayloadSize(p: Payload): (n: nat)
    ensures n < 256
  {
    match p
    case Control(_) => ControlCommandSize
    case MoveTo(_) => MoveToCommandSize
  }

  function PayloadBytes(p: Payload): (b: seq<byte>)
    ensures |b| == PayloadSize(p)
  {
    match p
    case Control(c) => EncodeControlCommand(c)
    case MoveTo(m) => EncodeMoveToCommand(m)
  }

  /** `SerializePacket(header, packet)`: the header's bytes followed by the payload's bytes. */
  function SerializePacket(h: Header, p: Payload): (b: seq<byte>)
    ensures |b| == HeaderSize + PayloadSize(p)
    ensures DecodeHeader(b) == h
    ensures b[..HeaderSize] == EncodeHeader(h) && b[HeaderSize..] == PayloadBytes(p)
  {
    EncodeHeader(h) + PayloadBytes(p)
  }

  /** An IP address and a UDP port. */
  datatype Endpoint = Endpoint(address: string, port: nat)

  /** The port the ESP32 devices listen on. */
  const DevicePort: nat := 4444

  /** The statically configured devices (one; a second is commented out in the source). */
  const Esp32Devices: seq<Endpoint> := [Endpoint("192.168.4.100", DevicePort)]

  /** One UDP send: what is sent and where. */
  datatype Datagram = Datagram(destination: Endpoint, bytes: seq<byte>)

  /** The same bytes sent to each of the devices, in list order. */
  function Broadcast(devices: seq<Endpoint>, bytes: seq<byte>): (r: seq<Datagram>)
    ensures |r| == |devices|
    ensures forall i :: 0 <= i < |devices| ==> r[i].destination == devices[i] && r[i].bytes == bytes
  {
    seq(|devices|, i requires 0 <= i < |devices| => Datagram(devices[i], bytes))
  }

  /** The `foreach` over the configured devices. */
  method SendToAll(devices: seq<Endpoint>, bytes: seq<byte>) returns (sent: seq<Datagram>)
    ensures sent == Broadcast(devices, bytes)
    ensures forall i :: 0 <= i < |devices| ==> sent[i].destination == devices[i] && sent[i].bytes == bytes
  {
    sent := [];
    for i := 0 to |devices|
      invariant |sent| == i
      invariant forall j :: 0 <= j < i ==> sent[j] == Datagram(devices[j], bytes)
    {
      sent := sent + [Datagram(devices[i], bytes)];
    }
  }

  /**
   * The header of an outgoing packet: version 1, the message type, flags
   * starting at 0 with every requested flag set, the payload length and
   * the sender's counter value.
   */
  function OutgoingHeader(t: MessageType, length: byte, fs: set<Flag>, sequenceNumber: byte): (h: Header)
    ensures h.versionNumber == 1 && FromByte(h.messageType) == Some(t)
    ensures forall f :: IsFlagSet(h.flags, f) <==> f in fs
    ensures h.flags < 2 && h.length == length && h.sequenceNumber == sequenceNumber
  {
    Header(1, ToByte(t), WithFlags(0, fs), length, sequenceNumber)
  }

  /** The header of an acknowledgement: type ACK, no flags, no payload, the given version. */
  function AckHeader(versionNumber: byte, sequenceNumber: byte): (h: Header)
    ensures FromByte(h.messageType) == Some(ACK)
    ensures forall f :: !IsFlagSet(h.flags, f)
    ensures h.length == 0 && h.versionNumber == versionNumber && h.sequenceNumber == sequenceNumber
  {
    Header(versionNumber, ToByte(ACK), 0, 0, sequenceNumber)
  }

  /** The ACK rule of the UDP service and the application protocol service: acknowledge when asked, but never an ACK. */
  predicate AckDue(h: Header) {
    IsFlagSet(h.flags, AckFlag) && h.messageType != ToByte(ACK)
  }

  /** Whether a received datagram is to be acknowledged under that rule: it holds a header that asks for one. */
  predicate DatagramAckDue(data: seq<byte>)
    ensures DatagramAckDue(data) <==>
      |data| >= HeaderSize && IsFlagSet(data[2], AckFlag) && data[1] != ToByte(ACK)
  {
    |data| >= HeaderSize && AckDue(DecodeHeader(data))
  }

  /** The notification raised for a received message: its kind, its sender and its decoded fields. */
  datatype Notice =
    | ErrorNotice(sender: Endpoint)
    | AckNotice(sender: Endpoint)
    | ControlNotice(sender: Endpoint, command: ControlCommand)
    | MoveToNotice(sender: Endpoint, move: MoveToCommand)
    | UnknownNotice(sender: Endpoint)

  /** The message type a notification reports, none for an unknown type. */
  function NoticeType(n: Notice): Option<MessageType> {
    match n
    case ErrorNotice(_) => Some(ERR)
    case AckNotice(_) => Some(ACK)
    case ControlNotice(_, _) => Some(MessageType.ControlCommand)
    case MoveToNotice(_, _) => Some(MessageType.MoveToCommand)
    case UnknownNotice(_) => None
  }

  /** The notification for a payload as it was sent. */
  function PayloadNotice(sender: Endpoint, p: Payload): Notice {
    match p
    case Control(c) => ControlNotice(sender, c)
    case MoveTo(m) => MoveToNotice(sender, m)
  }

  /** The type a payload's struct is sent as. */
  function PayloadType(p: Payload): MessageType {
    match p
    case Control(_) => MessageType.ControlCommand
    case MoveTo(_) => MessageType.MoveToCommand
  }

  /** The message types that can be received with this declared length: ERR and ACK with any, a command with exactly its struct's size. */
  predicate KnownAndSized(messageType: byte, length: byte)
    ensures KnownAndSized(messageType, length) ==> FromByte(messageType).Some?
    ensures FromByte(messageType) == Some(ERR) || FromByte(messageType) == Some(ACK) ==> KnownAndSized(messageType, length)
    ensures forall p: Payload :: messageType == ToByte(PayloadType(p)) ==>
      (KnownAndSized(messageType, length) <==> length == PayloadSize(p))
  {
    messageType == ToByte(ERR) || messageType == ToByte(ACK)
    || (messageType == ToByte(MessageType.ControlCommand) && length == ControlCommandSize)
    || (messageType == ToByte(MessageType.MoveToCommand) && length == MoveToCommandSize)
  }

  /**
   * The `switch` on the message type of the UDP service and the application
   * protocol service, reached once the payload length equals the header's
   * length: ERR and ACK notify, a command notifies with its decoded struct
   * when the length is that struct's size, any other byte is silent.
   */
  function TypedNotice(sender: Endpoint, h: Header, data: seq<byte>): (r: Option<Notice>)
    requires |data| == HeaderSize + h.length
    ensures r.Some? <==> KnownAndSized(h.messageType, h.length)
    ensures r.Some? ==> r.value.sender == sender && NoticeType(r.value) == FromByte(h.messageType)
  {
    var t := FromByte(h.messageType);
    if t == Some(ERR) then Some(ErrorNotice(sender))
    else if t == Some(ACK) then Some(AckNotice(sender))
    else if t == Some(MessageType.ControlCommand) then
      if h.length == ControlCommandSize
      then Some(ControlNotice(sender, DecodeControlCommand(data[HeaderSize..])))
      else None
    else if t == Some(MessageType.MoveToCommand) then
      if h.length == MoveToCommandSize
      then Some(MoveToNotice(sender, DecodeMoveToCommand(data[HeaderSize..])))
      else None
    else None
  }

  /** A packet serialised with its payload's own type and size is received as that payload. */
  lemma TypedNoticeOfSerialized(sender: Endpoint, h: Header, p: Payload)
    requires h.messageType == ToByte(PayloadType(p)) && h.length == PayloadSize(p)
    ensures TypedNotice(sender, h, SerializePacket(h, p)) == Some(PayloadNotice(sender, p))
  {
    var data := SerializePacket(h, p);
    assert data[HeaderSize..] == PayloadBytes(p);
  }
}
