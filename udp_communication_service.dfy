/**
 * The UDP service: sends headers and payloads to the configured devices and
 * handles each received datagram. Its last received sequence number starts at
 * 255 and is never assigned, so the window rule only ever lets 0..10 through;
 * acknowledgements are decided before the sequence and length checks.
 */
module UdpCommunication {
  import opened Wire
  import opened Wrappers
  import opened MessageTypes
  import opened HeaderFlags
  import opened Headers
  import opened Sequencing
  import opened Packets

  /** The port the service listens on for replies. */
  const ListeningPort: nat := 3333

  /** The acknowledgements sent for a received datagram, the counter standing at `counter`: none, or one back to the sender. */
  function UdpAcks(sender: Endpoint, data: seq<byte>, counter: byte): (r: seq<Datagram>)
    ensures |r| <= 1 && (|r| == 1 <==> DatagramAckDue(data))
    ensures |r| == 1 ==> r[0].destination == sender && r[0].bytes == EncodeHeader(AckHeader(data[0], counter))
  {
    if DatagramAckDue(data) then [Datagram(sender, EncodeHeader(AckHeader(DecodeHeader(data).versionNumber, counter)))]
    else []
  }

  /**
   * The notification raised for a received datagram: only for a datagram
   * that holds a header, whose sequence number the window rule accepts, whose
   * payload is exactly as long as the header says, and whose type is known
   * and sized right.
   */
  function UdpNotice(last: byte, sender: Endpoint, data: seq<byte>): (r: Option<Notice>)
    ensures r.Some? <==>
      |data| >= HeaderSize && WindowAccepts(last, data[4])
      && |data| - HeaderSize == data[3] && KnownAndSized(data[1], data[3])
    ensures r.Some? ==> r.value.sender == sender && NoticeType(r.value) == FromByte(data[1])
  {
    if |data| < HeaderSize then None
    else
      var h := DecodeHeader(data);
      if WindowAccepts(last, h.sequenceNumber) && |data| - HeaderSize == h.length
      then TypedNotice(sender, h, data)
      else None
  }

  /** The datagrams of a run that are to be acknowledged, in arrival order. */
  function AckDueDatagrams(incoming: seq<(Endpoint, seq<byte>)>): (r: seq<(Endpoint, seq<byte>)>)
    ensures |r| <= |incoming|
    ensures forall i :: 0 <= i < |r| ==> DatagramAckDue(r[i].1)
    ensures (forall i :: 0 <= i < |incoming| ==> !DatagramAckDue(incoming[i].1)) ==> r == []
  {
    if incoming == [] then []
    else
      AckDueDatagrams(incoming[..|incoming| - 1])
      + (if DatagramAckDue(incoming[|incoming| - 1].1) then [incoming[|incoming| - 1]] else [])
  }

  /**
   * The acknowledgements for a run of received datagrams: one per datagram
   * that asks for it, in arrival order, to its sender, echoing its version,
   * the i-th taking the counter value `i` steps on.
   */
  function UdpAcksAll(incoming: seq<(Endpoint, seq<byte>)>, counter: byte): (r: seq<Datagram>)
    ensures var due := AckDueDatagrams(incoming);
      |r| == |due|
      && forall i :: 0 <= i < |due| ==>
        r[i] == Datagram(due[i].0, EncodeHeader(AckHeader(due[i].1[0], Advance(counter, i))))
  {
    if incoming == [] then []
    else
      var previous := UdpAcksAll(incoming[..|incoming| - 1], counter);
      var (sender, data) := incoming[|incoming| - 1];
      previous + UdpAcks(sender, data, Advance(counter, |previous|))
  }

  /** The notifications for a run of received datagrams, one per datagram, in arrival order. */
  function UdpNoticesAll(last: byte, incoming: seq<(Endpoint, seq<byte>)>): (r: seq<Option<Notice>>)
    ensures |r| == |incoming|
    ensures forall i :: 0 <= i < |incoming| ==> r[i] == UdpNotice(last, incoming[i].0, incoming[i].1)
  {
    if incoming == [] then []
    else UdpNoticesAll(last, incoming[..|incoming| - 1]) + [UdpNotice(last, incoming[|incoming| - 1].0, incoming[|incoming| - 1].1)]
  }

  /** Extending the run by one datagram appends that datagram's acknowledgements and notification. */
  lemma RunStep(last: byte, incoming: seq<(Endpoint, seq<byte>)>, i: nat, counter: byte)
    requires i < |incoming|
    ensures var previous := UdpAcksAll(incoming[..i], counter);
      UdpAcksAll(incoming[..i + 1], counter)
      == previous + UdpAcks(incoming[i].0, incoming[i].1, Advance(counter, |previous|))
    ensures UdpNoticesAll(last, incoming[..i + 1])
      == UdpNoticesAll(last, incoming[..i]) + [UdpNotice(last, incoming[i].0, incoming[i].1)]
  {
    assert incoming[..i + 1][..i] == incoming[..i];
  }

  class UdpCommunicationService {
    /** The outgoing counter, post-incremented once per packet built. */
    var sequenceNumber: byte
    /** The last received sequence number; no method assigns it. */
    var lastReceived: byte
    /** The configured devices. */
    var devices: seq<Endpoint>

    /** The service as constructed: counter 0, last received number 255. */
    constructor ()
      ensures sequenceNumber == 0 && lastReceived == 255 && devices == Esp32Devices
    {
      sequenceNumber := 0;
      lastReceived := 255;
      devices := Esp32Devices;
    }

    /** The anti-replay check; it only reads the state. */
    predicate IsSequenceNumberValid(s: byte)
      reads this
      ensures IsSequenceNumberValid(s) ==> s != lastReceived
      ensures lastReceived == 255 ==> (IsSequenceNumberValid(s) <==> s <= 10)
    {
      WindowAccepts(lastReceived, s)
    }

    /** `SendAck`: an ACK header echoing the received version, sent back to the sender; takes one counter value. */
    method SendAck(sender: Endpoint, versionNumber: byte) returns (ack: Datagram)
      modifies this`sequenceNumber
      ensures ack == Datagram(sender, EncodeHeader(AckHeader(versionNumber, old(sequenceNumber))))
      ensures sequenceNumber == Next(old(sequenceNumber))
    {
      var ackHeader := Header(versionNumber, ToByte(ACK), 0, 0, sequenceNumber);
      sequenceNumber := Next(sequenceNumber);
      ack := Datagram(sender, EncodeHeader(ackHeader));
    }

    /** One pass of the receive loop, for one datagram from `sender`. */
    method HandleDatagram(sender: Endpoint, data: seq<byte>) returns (sent: seq<Datagram>, notice: Option<Notice>)
      modifies this`sequenceNumber
      ensures sent == UdpAcks(sender, data, old(sequenceNumber))
      ensures sequenceNumber == Advance(old(sequenceNumber), |sent|)
      ensures notice == UdpNotice(lastReceived, sender, data)
    {
      sent, notice := [], None;
      if |data| >= HeaderSize {
        var receivedHeader := DecodeHeader(data);
        if IsFlagSet(receivedHeader.flags, AckFlag) && receivedHeader.messageType != ToByte(ACK) {
          var ack := SendAck(sender, receivedHeader.versionNumber);
          sent := [ack];
        }
        var expectedPayloadLength := receivedHeader.length;
        var actualPayloadLength := |data| - HeaderSize;
        if IsSequenceNumberValid(receivedHeader.sequenceNumber) {
          if actualPayloadLength == expectedPayloadLength {
            notice := TypedNotice(sender, receivedHeader, data);
          }
        }
      }
    }

    /** `StartListeningForResponses`: the receive loop over the datagrams that arrive, in arrival order. */
    method ReceiveLoop(incoming: seq<(Endpoint, seq<byte>)>) returns (sent: seq<Datagram>, notices: seq<Option<Notice>>)
      modifies this`sequenceNumber
      ensures notices == UdpNoticesAll(lastReceived, incoming)
      ensures sent == UdpAcksAll(incoming, old(sequenceNumber))
      ensures sequenceNumber == Advance(old(sequenceNumber), |sent|)
    {
      sent, notices := [], [];
      var last := lastReceived;
      for i := 0 to |incoming|
        invariant lastReceived == last
        invariant notices == UdpNoticesAll(last, incoming[..i])
        invariant sent == UdpAcksAll(incoming[..i], old(sequenceNumber))
        invariant sequenceNumber == Advance(old(sequenceNumber), |sent|)
      {
        var sender, data := incoming[i].0, incoming[i].1;
        var acks, notice := HandleDatagram(sender, data);
        RunStep(last, incoming, i, old(sequenceNumber));
        AdvanceAdd(old(sequenceNumber), |sent|, |acks|);
        sent := sent + acks;
        notices := notices + [notice];
      }
      assert incoming[..|incoming|] == incoming;
    }

    /** `SendDataToEspDevices(type, packet, flags)`: one header and payload, the same bytes to every device; takes one counter value. */
    method SendDataToEspDevices(t: MessageType, packet: Payload, flags: set<Flag>) returns (sent: seq<Datagram>)
      modifies this`sequenceNumber
      ensures sequenceNumber == Next(old(sequenceNumber))
      ensures sent == Broadcast(devices, SerializePacket(OutgoingHeader(t, PayloadSize(packet), flags, old(sequenceNumber)), packet))
    {
      var payloadSize := PayloadSize(packet);
      var header := Header(1, ToByte(t), 0, payloadSize, sequenceNumber);
      sequenceNumber := Next(sequenceNumber);
      var withFlags := ApplyFlags(header.flags, flags);
      header := header.(flags := withFlags);
      var packetBytes := SerializePacket(header, packet);
      sent := SendToAll(devices, packetBytes);
    }

    /** `SendDataToEspDevices(type, flags)`: a header with no payload, to every device; takes one counter value. */
    method SendHeaderToEspDevices(t: MessageType, flags: set<Flag>) returns (sent: seq<Datagram>)
      modifies this`sequenceNumber
      ensures sequenceNumber == Next(old(sequenceNumber))
      ensures sent == Broadcast(devices, EncodeHeader(OutgoingHeader(t, 0, flags, old(sequenceNumber))))
    {
      var header := Header(1, ToByte(t), 0, 0, sequenceNumber);
      sequenceNumber := Next(sequenceNumber);
      var withFlags := ApplyFlags(header.flags, flags);
      header := header.(flags := withFlags);
      var packetBytes := EncodeHeader(header);
      sent := SendToAll(devices, packetBytes);
    }
  }

  /** A service in its initial state notifies only for sequence numbers 0..10. */
  lemma UdpNoticeOnlyLowNumbers(sender: Endpoint, data: seq<byte>)
    requires UdpNotice(255, sender, data).Some?
    ensures data[4] <= 10
  {
    WindowFromInitial(data[4]);
  }

  /** A datagram shorter than a header gets neither an ACK nor a notification. */
  lemma UdpShortDatagramIgnored(last: byte, sender: Endpoint, data: seq<byte>, counter: byte)
    requires |data| < HeaderSize
    ensures UdpAcks(sender, data, counter) == [] && UdpNotice(last, sender, data) == None
  {
  }

  /** The ACK does not wait for validation: a datagram the window rule rejects and whose length is wrong is still acknowledged. */
  lemma UdpAcksRejectedDatagram(sender: Endpoint, counter: byte)
    ensures var data := [1, 2, 1, 9, 200];
      |UdpAcks(sender, data, counter)| == 1 && UdpNotice(255, sender, data) == None
  {
  }

  /** The acknowledgement is a bare header: type ACK, flags 0, length 0, the received version, to the sender. */
  lemma UdpAckIsBareHeader(sender: Endpoint, data: seq<byte>, counter: byte)
    requires DatagramAckDue(data)
    ensures var ack := UdpAcks(sender, data, counter)[0];
      |ack.bytes| == HeaderSize && ack.destination == sender
      && DecodeHeader(ack.bytes) == Header(data[0], ToByte(ACK), 0, 0, counter)
  {
  }

  /** A packet built by a send path, with its payload's own type, is received as that payload when its number is in the window. */
  lemma UdpReceivesWhatIsSent(last: byte, sender: Endpoint, p: Payload, flags: set<Flag>, counter: byte)
    requires WindowAccepts(last, counter)
    ensures UdpNotice(last, sender, SerializePacket(OutgoingHeader(PayloadType(p), PayloadSize(p), flags, counter), p))
      == Some(PayloadNotice(sender, p))
  {
    var h := OutgoingHeader(PayloadType(p), PayloadSize(p), flags, counter);
    TypedNoticeOfSerialized(sender, h, p);
  }
}
