/**
 * The application protocol service: builds headers with the requested flags
 * and sends packets to one device or to every configured device, and handles
 * each datagram the UDP layer hands it. Its sequence check (first packet
 * flag, then the distance rule) exists but is not called on receipt, so
 * every datagram that holds a header is processed, whatever its number;
 * an acknowledgement goes to every configured device, not to the sender.
 */
module AppProtocol {
  import opened Wire
  import opened Wrappers
  import opened MessageTypes
  import opened HeaderFlags
  import opened Headers
  import opened Sequencing
  import opened Packets

  /**
   * The acknowledgements sent for a received datagram, the counter standing
   * at `counter`: a bare ACK header with version 1 and that counter value to
   * each configured device, or nothing.
   */
  function AppAcks(devices: seq<Endpoint>, data: seq<byte>, counter: byte): (r: seq<Datagram>)
    ensures |r| == (if DatagramAckDue(data) then |devices| else 0)
    ensures forall i :: 0 <= i < |r| ==>
      r[i].destination == devices[i] && |r[i].bytes| == HeaderSize
      && DecodeHeader(r[i].bytes) == Header(1, ToByte(ACK), 0, 0, counter)
  {
    if DatagramAckDue(data) then Broadcast(devices, EncodeHeader(OutgoingHeader(ACK, 0, {}, counter)))
    else []
  }

  /**
   * The notification raised for a received datagram: for a datagram that
   * holds a header, whose payload is exactly as long as the header says and
   * whose type is known and sized right. The sequence number plays no part.
   */
  function AppNotice(sender: Endpoint, data: seq<byte>): (r: Option<Notice>)
    ensures r.Some? <==>
      |data| >= HeaderSize && |data| - HeaderSize == data[3] && KnownAndSized(data[1], data[3])
    ensures r.Some? ==> r.value.sender == sender && NoticeType(r.value) == FromByte(data[1])
  {
    if |data| < HeaderSize then None
    else
      var h := DecodeHeader(data);
      if |data| - HeaderSize == h.length then TypedNotice(sender, h, data) else None
  }

  class AppProtocolService {
    /** The last received sequence number; no method assigns it. */
    var lastReceived: byte
    /** The outgoing counter, post-incremented once per header built. */
    var sequenceNumber: byte
    /** Set until the sequence check has run once. */
    var isFirstPacket: bool
    /** The configured devices. */
    var devices: seq<Endpoint>

    /** The service as constructed: last received number 255, counter 0, first packet pending. */
    constructor ()
      ensures lastReceived == 255 && sequenceNumber == 0 && isFirstPacket && devices == Esp32Devices
    {
      lastReceived := 255;
      sequenceNumber := 0;
      isFirstPacket := true;
      devices := Esp32Devices;
    }

    /**
     * `IsSequenceNumberValid`: the first call accepts and clears the first
     * packet flag; later calls apply the distance rule to the last received
     * number, which it never updates.
     */
    method IsSequenceNumberValid(s: byte) returns (valid: bool)
      modifies this`isFirstPacket
      ensures valid == (old(isFirstPacket) || DistanceAccepts(lastReceived, s))
      ensures !isFirstPacket
    {
      if isFirstPacket {
        isFirstPacket := false;
        return true;
      }
      if s > lastReceived {
        return true;
      }
      var distance := Truncate8(lastReceived - s);
      if distance < 127 {
        return true;
      }
      return false;
    }

    /** `HandleReceivedData`: a datagram that holds a header goes to `ProcessMessage`; a shorter one is dropped. */
    method HandleReceivedData(sender: Endpoint, data: seq<byte>) returns (sent: seq<Datagram>, notice: Option<Notice>)
      modifies this`sequenceNumber
      ensures sent == AppAcks(devices, data, old(sequenceNumber))
      ensures sequenceNumber == if DatagramAckDue(data) then Next(old(sequenceNumber)) else old(sequenceNumber)
      ensures notice == AppNotice(sender, data)
    {
      if |data| >= HeaderSize {
        var receivedHeader := DecodeHeader(data);
        sent, notice := ProcessMessage(sender, receivedHeader, data);
      } else {
        sent, notice := [], None;
      }
    }

    /**
     * `ProcessMessage`: acknowledge through `SendProtocolMessage(ACK)` when
     * the header asks for it and is not an ACK, then dispatch on the type
     * when the payload is as long as the header says.
     */
    method ProcessMessage(sender: Endpoint, header: Header, data: seq<byte>) returns (sent: seq<Datagram>, notice: Option<Notice>)
      modifies this`sequenceNumber
      ensures AckDue(header) ==>
        sent == Broadcast(devices, EncodeHeader(OutgoingHeader(ACK, 0, {}, old(sequenceNumber))))
        && sequenceNumber == Next(old(sequenceNumber))
      ensures !AckDue(header) ==> sent == [] && sequenceNumber == old(sequenceNumber)
      ensures notice == if |data| - HeaderSize == header.length then TypedNotice(sender, header, data) else None
    {
      sent := [];
      if IsFlagSet(header.flags, AckFlag) && header.messageType != ToByte(ACK) {
        sent := SendProtocolMessage(ACK, {});
      }
      var expectedPayloadLength := header.length;
      var actualPayloadLength := |data| - HeaderSize;
      notice := None;
      if actualPayloadLength == expectedPayloadLength {
        notice := TypedNotice(sender, header, data);
      }
    }

    /**
     * `SendProtocolMessage(targetIP, type, payload, flags)`: one packet with a
     * payload to the device port of one address. `addressParses` is the
     * outcome of `IPAddress.Parse(targetIP)`, which runs first: when it
     * throws, nothing is sent and no counter value is taken.
     */
    method SendProtocolMessageTo(targetIP: string, addressParses: bool, t: MessageType, payload: Payload, flags: set<Flag>)
      returns (d: Option<Datagram>)
      modifies this`sequenceNumber
      ensures !addressParses ==> d == None && sequenceNumber == old(sequenceNumber)
      ensures addressParses ==> d == Some(Datagram(Endpoint(targetIP, DevicePort),
        SerializePacket(OutgoingHeader(t, PayloadSize(payload), flags, old(sequenceNumber)), payload)))
      ensures addressParses ==> sequenceNumber == Next(old(sequenceNumber))
    {
      if !addressParses {
        return None;
      }
      var targetDevice := Endpoint(targetIP, DevicePort);
      var header := CreateHeader(t, payload, flags);
      var packetBytes := SerializePacket(header, payload);
      d := Some(Datagram(targetDevice, packetBytes));
    }

    /** `SendProtocolMessage(type, flags)`: a header with no payload, the same bytes to every device. */
    method SendProtocolMessage(t: MessageType, flags: set<Flag>) returns (sent: seq<Datagram>)
      modifies this`sequenceNumber
      ensures sent == Broadcast(devices, EncodeHeader(OutgoingHeader(t, 0, flags, old(sequenceNumber))))
      ensures sequenceNumber == Next(old(sequenceNumber))
    {
      var header := CreateBareHeader(t, flags);
      var packetBytes := EncodeHeader(header);
      sent := SendToAll(devices, packetBytes);
    }

    /** `CreateHeader(type, payload, flags)`: version 1, the payload's size, the next counter value, flags set one by one. */
    method CreateHeader(t: MessageType, payload: Payload, flags: set<Flag>) returns (header: Header)
      modifies this`sequenceNumber
      ensures header == OutgoingHeader(t, PayloadSize(payload), flags, old(sequenceNumber))
      ensures sequenceNumber == Next(old(sequenceNumber))
    {
      header := Header(1, ToByte(t), 0, PayloadSize(payload), sequenceNumber);
      sequenceNumber := Next(sequenceNumber);
      var withFlags := ApplyFlags(header.flags, flags);
      header := header.(flags := withFlags);
    }

    /** `CreateHeader(type, flags)`: as above with length 0. */
    method CreateBareHeader(t: MessageType, flags: set<Flag>) returns (header: Header)
      modifies this`sequenceNumber
      ensures header == OutgoingHeader(t, 0, flags, old(sequenceNumber))
      ensures sequenceNumber == Next(old(sequenceNumber))
    {
      header := Header(1, ToByte(t), 0, 0, sequenceNumber);
      sequenceNumber := Next(sequenceNumber);
      var withFlags := ApplyFlags(header.flags, flags);
      header := header.(flags := withFlags);
    }
  }

  /** The sequence number of a received datagram changes neither its acknowledgements nor its notification. */
  lemma AppIgnoresSequenceNumber(devices: seq<Endpoint>, sender: Endpoint, data: seq<byte>, s: byte, counter: byte)
    requires |data| >= HeaderSize
    ensures AppNotice(sender, data[4 := s]) == AppNotice(sender, data)
    ensures AppAcks(devices, data[4 := s], counter) == AppAcks(devices, data, counter)
  {
    var other := data[4 := s];
    assert other[HeaderSize..] == data[HeaderSize..];
  }

  /** A datagram shorter than a header gets neither an ACK nor a notification. */
  lemma AppShortDatagramDropped(devices: seq<Endpoint>, sender: Endpoint, data: seq<byte>, counter: byte)
    requires |data| < HeaderSize
    ensures AppAcks(devices, data, counter) == [] && AppNotice(sender, data) == None
  {
  }

  /** A sender that is not a configured device never receives the acknowledgement of its own datagram. */
  lemma AppAckNeverToSender(devices: seq<Endpoint>, sender: Endpoint, data: seq<byte>, counter: byte)
    requires sender !in devices
    ensures forall d :: d in AppAcks(devices, data, counter) ==> d.destination != sender
  {
    var r := AppAcks(devices, data, counter);
    forall d | d in r
      ensures d.destination != sender
    {
      var i :| 0 <= i < |r| && r[i] == d;
      assert devices[i] in devices;
    }
  }

  /** A packet sent with its payload's own type is received as that payload, whatever its sequence number. */
  lemma AppReceivesWhatIsSent(sender: Endpoint, p: Payload, flags: set<Flag>, counter: byte)
    ensures AppNotice(sender, SerializePacket(OutgoingHeader(PayloadType(p), PayloadSize(p), flags, counter), p))
      == Some(PayloadNotice(sender, p))
  {
    var h := OutgoingHeader(PayloadType(p), PayloadSize(p), flags, counter);
    TypedNoticeOfSerialized(sender, h, p);
  }
}
