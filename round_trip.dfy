/**
 * The acknowledged exchange between the controller's UDP service and a
 * device running the protocol handler: a command sent with the ACK flag
 * reaches a fresh handler as that command, the handler answers with a bare
 * ACK header, and the UDP service takes that answer as an ACK without
 * acknowledging it in turn.
 */
module RoundTrips {
  import opened Wire
  import opened Wrappers
  import opened HeaderFlags
  import opened Headers
  import opened Sequencing
  import opened Packets
  import opened UdpCommunication
  import opened ProtocolHandling

  lemma AcknowledgedCommand(controller: Endpoint, device: Endpoint, last: byte, p: Payload, counter: byte, deviceCounter: byte)
    ensures var packet := SerializePacket(OutgoingHeader(PayloadType(p), PayloadSize(p), {AckFlag}, counter), p);
      var answer := HandlerAcks(true, last, controller, packet, deviceCounter);
      HandlerNotice(true, last, controller, packet) == Some(PayloadNotice(controller, p))
      && answer == [Datagram(controller, EncodeHeader(AckHeader(1, deviceCounter)))]
      && UdpAcks(device, answer[0].bytes, counter) == []
      && (UdpNotice(255, device, answer[0].bytes) == Some(AckNotice(device)) <==> deviceCounter <= 10)
  {
    var packet := SerializePacket(OutgoingHeader(PayloadType(p), PayloadSize(p), {AckFlag}, counter), p);
    HandlerReceivesWhatIsSent(true, last, controller, p, {AckFlag}, counter);
    var answer := HandlerAcks(true, last, controller, packet, deviceCounter);
    assert answer[0].bytes == [1, 1, 0, 0, deviceCounter];
    WindowFromInitial(deviceCounter);
  }
}
