/**
 * The protocol handler: accepts its first packet unconditionally and later
 * ones by the window rule, records every accepted sequence number before the
 * length check, dispatches a length-matching packet on its type, and then
 * acknowledges it to the sender whenever the flag is set, ACKs included.
 * A command whose payload is shorter than its struct makes the payload read
 * fail; the handler then stops, with no notification and no acknowledgement.
 */
module ProtocolHandling {
  import opened Wire
  import opened Wrappers
  import opened MessageTypes
  import opened HeaderFlags
  import opened Headers
  import opened ControlCommands
  import opened MoveToCommands
  import opened Sequencing
  import opened Packets

  /** Whether the payload read of the dispatch runs past the end of the datagram. */
  predicate DispatchFaults(h: Header, data: seq<byte>)
    ensures DispatchFaults(h, data) ==>
      FromByte(h.messageType) == Some(MessageType.ControlCommand) || FromByte(h.messageType) == Some(MessageType.MoveToCommand)
    ensures DispatchFaults(h, data) ==> |data| < HeaderSize + MoveToCommandSize
    ensures |data| >= HeaderSize + MoveToCommandSize ==> !DispatchFaults(h, data)
  {
    (h.messageType == ToByte(MessageType.ControlCommand) && |data| < HeaderSize + ControlCommandSize)
    || (h.messageType == ToByte(MessageType.MoveToCommand) && |data| < HeaderSize + MoveToCommandSize)
  }

  /**
   * `ProcessMessage`'s `switch`: ACK, and the two commands read from just
   * after the header, whatever the declared length; every other byte,
   * ERR included, is an unknown type. None when the read fails.
   */
  function HandlerDispatch(sender: Endpoint, h: Header, data: seq<byte>): (r: Option<Notice>)
    ensures r.None? <==> DispatchFaults(h, data)
    ensures r.Some? ==> r.value.sender == sender
    ensures r.Some? ==> NoticeType(r.value) == if h.messageType == ToByte(ERR) then None else FromByte(h.messageType)
  {
    var t := FromByte(h.messageType);
    if t == Some(ACK) then Some(AckNotice(sender))
    else if t == Some(MessageType.ControlCommand) then
      if |data| >= HeaderSize + ControlCommandSize
      then Some(ControlNotice(sender, DecodeControlCommand(data[HeaderSize..HeaderSize + ControlCommandSize])))
      else None
    else if t == Some(MessageType.MoveToCommand) then
      if |data| >= HeaderSize + MoveToCommandSize
      then Some(MoveToNotice(sender, DecodeMoveToCommand(data[HeaderSize..HeaderSize + MoveToCommandSize])))
      else None
    else Some(UnknownNotice(sender))
  }

  /** Whether a datagram holds a header whose sequence number is accepted, in the state (`first`, `last`). */
  predicate HandlerAccepts(first: bool, last: byte, data: seq<byte>)
    ensures HandlerAccepts(first, last, data) ==> |data| >= HeaderSize
    ensures first && |data| >= HeaderSize ==> HandlerAccepts(first, last, data)
    ensures HandlerAccepts(false, last, data) ==> data[4] != last
  {
    |data| >= HeaderSize && (first || WindowAccepts(last, data[4]))
  }

  /** Whether an accepted datagram also has the payload length its header declares, and so is dispatched. */
  predicate HandlerDispatches(first: bool, last: byte, data: seq<byte>) {
    HandlerAccepts(first, last, data) && |data| - HeaderSize == data[3]
  }

  /** The last received number after a datagram: its own number if accepted, otherwise unchanged. */
  function HandlerLast(first: bool, last: byte, data: seq<byte>): (r: byte)
    ensures HandlerAccepts(first, last, data) ==> r == data[4]
    ensures !HandlerAccepts(first, last, data) ==> r == last
  {
    if HandlerAccepts(first, last, data) then DecodeHeader(data).sequenceNumber else last
  }

  /** Whether handling the datagram fails in the payload read. */
  predicate HandlerFaults(first: bool, last: byte, data: seq<byte>) {
    HandlerDispatches(first, last, data) && DispatchFaults(DecodeHeader(data), data)
  }

  /** The notification raised for a datagram: exactly one for every dispatched datagram whose read succeeds. */
  function HandlerNotice(first: bool, last: byte, sender: Endpoint, data: seq<byte>): (r: Option<Notice>)
    ensures r.Some? <==> HandlerDispatches(first, last, data) && !HandlerFaults(first, last, data)
    ensures r.Some? ==> r.value.sender == sender
  {
    if HandlerDispatches(first, last, data) then HandlerDispatch(sender, DecodeHeader(data), data) else None
  }

  /** The acknowledgement sent for a datagram, the counter standing at `counter`. */
  function HandlerAcks(first: bool, last: byte, sender: Endpoint, data: seq<byte>, counter: byte): (r: seq<Datagram>)
    ensures |r| <= 1
    ensures |r| == 1 <==>
      HandlerDispatches(first, last, data) && !HandlerFaults(first, last, data) && IsFlagSet(data[2], AckFlag)
    ensures |r| == 1 ==> r[0] == Datagram(sender, EncodeHeader(AckHeader(data[0], counter)))
  {
    if HandlerNotice(first, last, sender, data).Some? && IsFlagSet(DecodeHeader(data).flags, AckFlag)
    then [Datagram(sender, EncodeHeader(AckHeader(DecodeHeader(data).versionNumber, counter)))]
    else []
  }

  class ProtocolHandler {
    /** The last accepted sequence number. */
    var lastReceived: byte
    /** Set until the first header-sized datagram arrives. */
    var isFirstPacket: bool
    /** The outgoing counter, post-incremented once per packet built. */
    var sequenceNumber: byte
    /** The configured devices. */
    var devices: seq<Endpoint>

    /** The handler as constructed: last received number 255, first packet pending, counter 0. */
    constructor ()
      ensures lastReceived == 255 && isFirstPacket && sequenceNumber == 0 && devices == Esp32Devices
    {
      lastReceived := 255;
      isFirstPacket := true;
      sequenceNumber := 0;
      devices := Esp32Devices;
    }

    /** `HandleIncomingPacket`, with what it sends, what it notifies and whether it stopped in the payload read. */
    method HandleIncomingPacket(sender: Endpoint, data: seq<byte>) returns (sent: seq<Datagram>, notice: Option<Notice>, faulted: bool)
      modifies this`lastReceived, this`isFirstPacket, this`sequenceNumber
      ensures isFirstPacket == (old(isFirstPacket) && |data| < HeaderSize)
      ensures lastReceived == HandlerLast(old(isFirstPacket), old(lastReceived), data)
      ensures notice == HandlerNotice(old(isFirstPacket), old(lastReceived), sender, data)
      ensures faulted == HandlerFaults(old(isFirstPacket), old(lastReceived), data)
      ensures sent == HandlerAcks(old(isFirstPacket), old(lastReceived), sender, data, old(sequenceNumber))
      ensures sequenceNumber == Advance(old(sequenceNumber), |sent|)
    {
      sent, notice, faulted := [], None, false;
      if |data| >= HeaderSize {
        var receivedHeader := DecodeHeader(data);
        var valid := IsSequenceNumberValid(receivedHeader.sequenceNumber);
        if valid {
          lastReceived := receivedHeader.sequenceNumber;
          var payloadSize := receivedHeader.length;
          var actualPayloadLength := |data| - HeaderSize;
          if actualPayloadLength == payloadSize {
            sent, notice, faulted := ProcessMessage(sender, receivedHeader, data);
          }
        }
      }
    }

    /** `ProcessMessage`: dispatch, then acknowledge to the sender when the flag is set, unless the read failed. */
    method ProcessMessage(sender: Endpoint, header: Header, data: seq<byte>) returns (sent: seq<Datagram>, notice: Option<Notice>, faulted: bool)
      modifies this`sequenceNumber
      ensures notice == HandlerDispatch(sender, header, data)
      ensures faulted == DispatchFaults(header, data)
      ensures sent == if !faulted && IsFlagSet(header.flags, AckFlag)
        then [Datagram(sender, EncodeHeader(AckHeader(header.versionNumber, old(sequenceNumber))))]
        else []
      ensures sequenceNumber == Advance(old(sequenceNumber), |sent|)
    {
      sent := [];
      notice := HandlerDispatch(sender, header, data);
      faulted := notice.None?;
      if faulted {
        return;
      }
      if IsFlagSet(header.flags, AckFlag) {
        var ack := SendAck(sender, header.versionNumber);
        sent := [ack];
      }
    }

    /** `SendAck`: an ACK header echoing the given version to the recipient; takes one counter value. */
    method SendAck(recipient: Endpoint, versionNumber: byte) returns (ack: Datagram)
      modifies this`sequenceNumber
      ensures ack == Datagram(recipient, EncodeHeader(AckHeader(versionNumber, old(sequenceNumber))))
      ensures sequenceNumber == Next(old(sequenceNumber))
    {
      var ackHeader := Header(versionNumber, ToByte(ACK), 0, 0, sequenceNumber);
      sequenceNumber := Next(sequenceNumber);
      ack := Datagram(recipient, EncodeHeader(ackHeader));
    }

    /** `IsSequenceNumberValid`: the first call accepts and clears the flag; later calls apply the window rule. */
    method IsSequenceNumberValid(s: byte) returns (valid: bool)
      modifies this`isFirstPacket
      ensures valid == (old(isFirstPacket) || WindowAccepts(lastReceived, s))
      ensures !isFirstPacket
    {
      if isFirstPacket {
        isFirstPacket := false;
        return true;
      }
      valid := s > lastReceived || (lastReceived >= 245 && s <= 10);
    }

    /**
     * `SendControlCommandAsync`: the header (version 1, no flags, the
     * command's size) followed by the command, to every device; the
     * same bytes as the other services' packet layout gives.
     */
    method SendControlCommandAsync(command: ControlCommand) returns (sent: seq<Datagram>)
      modifies this`sequenceNumber
      ensures sent == Broadcast(devices,
        SerializePacket(OutgoingHeader(MessageType.ControlCommand, ControlCommandSize, {}, old(sequenceNumber)), Control(command)))
      ensures sequenceNumber == Next(old(sequenceNumber))
    {
      var header := Header(1, ToByte(MessageType.ControlCommand), 0, ControlCommandSize, sequenceNumber);
      sequenceNumber := Next(sequenceNumber);
      var commandPacket := EncodeHeader(header) + EncodeControlCommand(command);
      assert WithFlags(0, {}) == 0;
      sent := SendToAll(devices, commandPacket);
    }
  }

  /** The first header-sized datagram is accepted whatever its number, and its number becomes the last one. */
  lemma HandlerAcceptsFirst(last: byte, data: seq<byte>)
    requires |data| >= HeaderSize
    ensures HandlerAccepts(true, last, data) && HandlerLast(true, last, data) == data[4]
  {
  }

  /** An accepted datagram is rejected if it arrives again: the handler records the numbers it accepts. */
  lemma HandlerRejectsReplay(first: bool, last: byte, data: seq<byte>)
    requires HandlerAccepts(first, last, data)
    ensures !HandlerAccepts(false, HandlerLast(first, last, data), data)
  {
    WindowRejectsRepeat(data[4]);
  }

  /** A rejected number or a length mismatch: no notification, no acknowledgement, no failure. */
  lemma HandlerSilentUnlessDispatched(first: bool, last: byte, sender: Endpoint, data: seq<byte>, counter: byte)
    requires !HandlerDispatches(first, last, data)
    ensures HandlerNotice(first, last, sender, data) == None
    ensures HandlerAcks(first, last, sender, data, counter) == []
    ensures !HandlerFaults(first, last, data)
  {
  }

  /** A length mismatch still moves the last received number: here from 5 to 9, with nothing raised. */
  lemma HandlerMismatchAdvancesState(sender: Endpoint, counter: byte)
    ensures var data := [1, 2, 0, 6, 9];
      HandlerLast(false, 5, data) == 9
      && HandlerNotice(false, 5, sender, data) == None
      && HandlerAcks(false, 5, sender, data, counter) == []
  {
  }

  /** An ACK that asks for an acknowledgement gets one: there is no ACK-for-ACK suppression. */
  lemma HandlerAcknowledgesAck(first: bool, last: byte, sender: Endpoint, versionNumber: byte, s: byte, counter: byte)
    requires first || WindowAccepts(last, s)
    ensures var data := EncodeHeader(Header(versionNumber, ToByte(ACK), SetFlag(0, AckFlag), 0, s));
      HandlerNotice(first, last, sender, data) == Some(AckNotice(sender))
      && HandlerAcks(first, last, sender, data, counter) == [Datagram(sender, EncodeHeader(AckHeader(versionNumber, counter)))]
  {
  }

  /** ERR is not named in the dispatch: a dispatched ERR message is reported as an unknown type. */
  lemma HandlerErrIsUnknown(first: bool, last: byte, sender: Endpoint, data: seq<byte>)
    requires HandlerDispatches(first, last, data) && data[1] == ToByte(ERR)
    ensures HandlerNotice(first, last, sender, data) == Some(UnknownNotice(sender))
  {
  }

  /** A control command declared with length 0 fails in the read: no notification and no ACK, but its number is recorded. */
  lemma HandlerShortCommandFaults(last: byte, sender: Endpoint, counter: byte)
    ensures var data := [1, 2, 1, 0, 7];
      HandlerFaults(true, last, data) && HandlerNotice(true, last, sender, data) == None
      && HandlerAcks(true, last, sender, data, counter) == [] && HandlerLast(true, last, data) == 7
  {
  }

  /** A packet sent with its payload's own type is received as that payload when its number is accepted. */
  lemma HandlerReceivesWhatIsSent(first: bool, last: byte, sender: Endpoint, p: Payload, flags: set<Flag>, counter: byte)
    requires first || WindowAccepts(last, counter)
    ensures var data := SerializePacket(OutgoingHeader(PayloadType(p), PayloadSize(p), flags, counter), p);
      HandlerNotice(first, last, sender, data) == Some(PayloadNotice(sender, p))
  {
    var data := SerializePacket(OutgoingHeader(PayloadType(p), PayloadSize(p), flags, counter), p);
    assert data[HeaderSize..HeaderSize + PayloadSize(p)] == PayloadBytes(p);
  }
}
