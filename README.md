# TrailBlazor packet protocol, modelled in Dafny

TrailBlazor drives an ESP32 car from a web page. The page keeps a set of
pressed keys, from the keyboard, on-screen buttons or device tilt, and turns
it into a direction character. The server app sends that direction as a
`ControlCommand` packet over UDP. Every packet is a packed header followed by
a packed payload struct. The payload is either a `ControlCommand` (speed,
direction, stop) or a `MoveToCommand` (x, y).

Three receive paths decide four things for each datagram: whether it is
long enough, whether its sequence number is accepted, whether an
acknowledgement (ACK) goes out and to whom, and which typed notification is
raised. The paths are `UdpCommunicationService`, `AppProtocolService` and
`ProtocolHandler`, and each decides differently.

This project models:

- the wire codec: bytes, little-endian two's-complement `int`, the header and
  both payload structs, and `MessageType`;
- the header flag byte;
- the 8-bit sequence counter and both acceptance rules;
- the three services as classes whose sends and notifications are returned
  values;
- the direction, arrow-colour and tilt logic of both car pages.

It then proves the properties the code promises:

- codec round trips in both directions;
- the exact acceptance and ACK conditions of each service, and where the
  three services differ;
- that send paths consume one counter value each;
- that what one side sends, the other receives;
- that the page's key set and arrow colours stay in step.

One file per source file or concern:

- `wire.dfy`, `message_type.dfy`, `flags.dfy`, `header.dfy`,
  `control_command.dfy`, `move_to_command.dfy`: the codec.
- `sequencing.dfy`: the counter and the acceptance rules.
- `packet.dfy`: what the services share.
- `udp_communication_service.dfy`, `app_protocol_service.dfy`,
  `protocol_handler.dfy`: the three services.
- `round_trip.dfy`: the acknowledged exchange between the UDP service and a
  device running the protocol handler.
- `key_input.dfy`, `server_car_page.dfy`, `client_car_page.dfy`: the two
  pages.

Sends are `Datagram(destination, bytes)` values. Notifications are a
`Notice` datatype that holds the sender and the decoded fields. A
`ProtocolHandler` packet whose payload read fails yields `faulted`. The C#
statics (`SequenceNumber`, and `LastReceivedSequenceNumber` in
`AppProtocolService`) are instance fields of the modelled classes.

Facts about the code that shape the model:

- The header is version, type, flags, length, then the sequence number
  (the field order of `Header.cs`, with the sequence number last).
- `AppProtocolService` does not validate sequence numbers on receipt; the
  call is commented out.
- ERR and ACK messages are accepted with any declared length that matches
  the datagram.
- `ProtocolHandler` reports unknown types, ERR included, as a notification.
- A command that is too short throws out of `ProtocolHandler`'s handler.

## Model

| member | source | states |
|---|---|---|
| Wire.Truncate8 | TrailBlazorServerApp/TrailBlazorServerApp/Services/AppProtocolService.cs:76 | the `(byte)` cast keeps a byte value and is congruent to its argument modulo 256 |
| Wire.EncodeInt32 | TrailBlazorServerApp/TrailBlazorServerApp/Data/ControlCommand.cs:8 | a 32-bit `int` is written as four bytes that decode back to it, negative values included |
| Wire.DecodeInt32 | TrailBlazorServerApp/TrailBlazorServerApp/Data/MoveToCommand.cs:8-9 | four bytes are read as a signed value whose sign is the top bit of the last byte and whose bit pattern is the bytes' unsigned value |
| Wire.EncodeDecodeInt32 | TrailBlazorServerApp/TrailBlazorServerApp/Data/MoveToCommand.cs:8-9 | every four bytes are the encoding of what they decode to |
| MessageTypes.ToByte | TrailBlazorServerApp/TrailBlazorServerApp/Data/MessageType.cs:3-9 | ERR is written as 0, ACK as 1, ControlCommand as 2 and MoveToCommand as 3, each converting back to the same type |
| MessageTypes.FromByte | TrailBlazorServerApp/TrailBlazorServerApp/Data/MessageType.cs:3-9 | 0, 1, 2 and 3 name ERR, ACK, ControlCommand and MoveToCommand; a byte names a type exactly when it is 0..3, so 4..255 name none |
| MessageTypes.ToByteInjective | TrailBlazorServerApp/TrailBlazorServerApp/Data/MessageType.cs:5-8 | the four values are distinct bytes |
| MessageTypes.FromByteToByte | TrailBlazorServerApp/TrailBlazorServerApp/Data/MessageType.cs:3-9 | a named byte converts back to itself |
| HeaderFlags.SetFlag | TrailBlazorServerApp/TrailBlazorServerApp/Services/UdpCommunicationService.cs:181 | after `SetFlag` the flag is set and the other bits are unchanged; a set flag stays as it was |
| HeaderFlags.SetFlagIdempotent | TrailBlazorServerApp/TrailBlazorServerApp/Services/AppProtocolService.cs:189-192 | setting a flag twice equals setting it once |
| HeaderFlags.WithFlags | TrailBlazorServerApp/TrailBlazorServerApp/Services/UdpCommunicationService.cs:177-183 | after the flags of a set are applied, a flag is on exactly when it was on before or is in the set, and the other bits are unchanged |
| HeaderFlags.ApplyFlags | TrailBlazorServerApp/TrailBlazorServerApp/Services/AppProtocolService.cs:187-193 | the loop that calls `SetFlag` for each flag of the set, in any order, gives `WithFlags` |
| Headers.EncodeHeader | TrailBlazorServerApp/TrailBlazorServerApp/Data/Header.cs:5-12 | a header is written as exactly `HeaderSize` bytes that decode back to it |
| Headers.DecodeHeader | TrailBlazorServerApp/TrailBlazorServerApp/Services/UdpCommunicationService.cs:277-290 | a header is read from the first `HeaderSize` bytes, its fields in order |
| Headers.HeaderLayout | TrailBlazorServerApp/TrailBlazorServerApp/Data/Header.cs:8-11 | bytes 0..3 are version, type, flags and length in declaration order; byte 4 is the sequence number |
| Headers.EncodeDecodeHeader | TrailBlazorServerApp/TrailBlazorServerApp/Data/Header.cs:5-12 | every header-sized buffer is the encoding of the header it decodes to |
| Headers.DecodeHeaderPrefix | TrailBlazorServerApp/TrailBlazorServerApp/Services/UdpCommunicationService.cs:277-290 | reading the header at offset 0 looks only at the first `HeaderSize` bytes |
| ControlCommands.EncodeControlCommand | TrailBlazorServerApp/TrailBlazorServerApp/Data/ControlCommand.cs:5-11 | 6 bytes, speed at 0..3, direction at 4, stop at 5, decoding back to the command |
| ControlCommands.DecodeControlCommand | TrailBlazorServerApp/TrailBlazorServerApp/Data/ControlCommand.cs:8 | the decoded speed is negative exactly when the top bit of byte 3 is set |
| ControlCommands.EncodeDecodeControlCommand | TrailBlazorServerApp/TrailBlazorServerApp/Data/ControlCommand.cs:5-11 | every 6-byte buffer is the encoding of the command it decodes to |
| MoveToCommands.EncodeMoveToCommand | TrailBlazorServerApp/TrailBlazorServerApp/Data/MoveToCommand.cs:5-10 | 8 bytes, x at 0..3 and y at 4..7, decoding back to the command |
| MoveToCommands.DecodeMoveToCommand | TrailBlazorServerApp/TrailBlazorServerApp/Data/MoveToCommand.cs:8-9 | each coordinate is negative exactly when the top bit of its last byte is set |
| MoveToCommands.EncodeDecodeMoveToCommand | TrailBlazorServerApp/TrailBlazorServerApp/Data/MoveToCommand.cs:5-10 | every 8-byte buffer is the encoding of the command it decodes to |
| Sequencing.Next | TrailBlazorServerApp/TrailBlazorServerApp/Services/UdpCommunicationService.cs:40 | the counter after a post-increment is one more, wrapping from 255 to 0 |
| Sequencing.WindowAccepts | TrailBlazorServerApp/TrailBlazorServerApp/Services/UdpCommunicationService.cs:146-162 | never the last number itself; below 245 exactly the larger numbers; from 245 on also 0..10 |
| Sequencing.DistanceAccepts | TrailBlazorServerApp/TrailBlazorServerApp/Services/AppProtocolService.cs:71-82 | the last number itself passes; a number not above it passes exactly when it is less than 127 behind |
| Sequencing.AdvanceAdd | TrailBlazorServerApp/TrailBlazorServerApp/Services/ProtocolHandler.cs:84 | `m` post-increments followed by `n` are `m + n` post-increments |
| Sequencing.AdvanceIsModular | TrailBlazorServerApp/TrailBlazorServerApp/Services/AppProtocolService.cs:184 | `n` post-increments add `n` modulo 256 |
| Sequencing.AdvanceFullCycle | TrailBlazorServerApp/TrailBlazorServerApp/Services/UdpCommunicationService.cs:173 | after 256 more packets the counter repeats |
| Sequencing.AdvanceNoEarlyRepeat | TrailBlazorServerApp/TrailBlazorServerApp/Services/UdpCommunicationService.cs:202 | fewer than 256 packets never bring the counter back to its start |
| Sequencing.WindowRejectsRepeat | TrailBlazorServerApp/TrailBlazorServerApp/Services/UdpCommunicationService.cs:146-162 | the window rule never accepts the last number again |
| Sequencing.WindowFromInitial | TrailBlazorServerApp/TrailBlazorServerApp/Services/UdpCommunicationService.cs:146-162 | with the initial last number 255 the window rule accepts exactly 0..10 |
| Sequencing.WindowExamples | TrailBlazorServerApp/TrailBlazorServerApp/Services/ProtocolHandler.cs:100 | for last number 250: 251 and 5 accepted, 11 and 200 rejected |
| Sequencing.DistanceAcceptsBehind | TrailBlazorServerApp/TrailBlazorServerApp/Services/AppProtocolService.cs:71-82 | the distance rule accepts a larger number or one at most 126 behind |
| Sequencing.DistanceAcceptsRepeat | TrailBlazorServerApp/TrailBlazorServerApp/Services/AppProtocolService.cs:76-80 | the distance rule accepts a repeated number |
| Sequencing.DistanceFromInitial | TrailBlazorServerApp/TrailBlazorServerApp/Services/AppProtocolService.cs:71-82 | with the initial last number 255 the distance rule accepts exactly 129..255 |
| Packets.PayloadSize | TrailBlazorServerApp/TrailBlazorServerApp/Services/UdpCommunicationService.cs:166 | a payload struct's size fits the one-byte length field |
| Packets.PayloadBytes | TrailBlazorServerApp/TrailBlazorServerApp/Services/UdpCommunicationService.cs:243-244 | a payload is written as exactly its struct's size in bytes |
| Packets.SerializePacket | TrailBlazorServerApp/TrailBlazorServerApp/Services/UdpCommunicationService.cs:227-252 | a packet is the header's bytes then the payload's, of length header size plus payload size, and its header decodes back |
| Packets.Broadcast | TrailBlazorServerApp/TrailBlazorServerApp/Services/UdpCommunicationService.cs:188-192 | one datagram per configured device, the i-th to the i-th device, every one carrying the same bytes |
| Packets.SendToAll | TrailBlazorServerApp/TrailBlazorServerApp/Services/UdpCommunicationService.cs:188-192 | the device loop sends the identical bytes to every device, in list order |
| Packets.OutgoingHeader | TrailBlazorServerApp/TrailBlazorServerApp/Services/UdpCommunicationService.cs:168-183 | an outgoing header has version 1, the type, a flag set exactly when requested, the length and the counter value |
| Packets.AckHeader | TrailBlazorServerApp/TrailBlazorServerApp/Services/UdpCommunicationService.cs:35-42 | an ACK header has type ACK, no flag, length 0, the given version and counter value |
| Packets.DatagramAckDue | TrailBlazorServerApp/TrailBlazorServerApp/Services/UdpCommunicationService.cs:64-71 | a datagram is to be acknowledged exactly when it holds a header whose flag byte has the ACK flag and whose type byte is not ACK |
| Packets.KnownAndSized | TrailBlazorServerApp/TrailBlazorServerApp/Services/UdpCommunicationService.cs:82-127 | only named types pass; ERR and ACK pass with any length; a command passes exactly with its struct's size |
| Packets.TypedNotice | TrailBlazorServerApp/TrailBlazorServerApp/Services/UdpCommunicationService.cs:82-127 | the type switch notifies exactly for ERR, ACK, and a command whose length is its struct's size, reporting the sender and the header's type |
| Packets.TypedNoticeOfSerialized | TrailBlazorServerApp/TrailBlazorServerApp/Services/UdpCommunicationService.cs:94-122 | a packet serialised with its payload's type and size is decoded as that payload |
| UdpCommunication.UdpAcks | TrailBlazorServerApp/TrailBlazorServerApp/Services/UdpCommunicationService.cs:66-71 | exactly one ACK, to the sender and echoing the version, when the datagram holds a header with the flag set and is not an ACK; none otherwise |
| UdpCommunication.UdpNotice | TrailBlazorServerApp/TrailBlazorServerApp/Services/UdpCommunicationService.cs:59-142 | a notification exactly when the datagram holds a header, the window rule accepts it, the payload has the declared length and the type is known and sized right |
| UdpCommunication.UdpAcksAll | TrailBlazorServerApp/TrailBlazorServerApp/Services/UdpCommunicationService.cs:54-143 | over a run of datagrams, exactly one ACK per datagram that asks for one, in arrival order, to its sender and echoing its version, the i-th carrying the counter value i steps on |
| UdpCommunication.UdpNoticesAll | TrailBlazorServerApp/TrailBlazorServerApp/Services/UdpCommunicationService.cs:54-143 | over a run of datagrams, one outcome per datagram, each decided with the same unchanging last number |
| UdpCommunication.UdpCommunicationService.constructor | TrailBlazorServerApp/TrailBlazorServerApp/Services/UdpCommunicationService.cs:12-19 | counter 0, last received number 255, the one configured device |
| UdpCommunication.UdpCommunicationService.IsSequenceNumberValid | TrailBlazorServerApp/TrailBlazorServerApp/Services/UdpCommunicationService.cs:146-162 | the last number is never accepted again; with the initial last number 255 exactly 0..10 are accepted |
| UdpCommunication.UdpCommunicationService.SendAck | TrailBlazorServerApp/TrailBlazorServerApp/Services/UdpCommunicationService.cs:33-47 | a bare ACK header echoing the version goes to the sender; one counter value is consumed |
| UdpCommunication.UdpCommunicationService.HandleDatagram | TrailBlazorServerApp/TrailBlazorServerApp/Services/UdpCommunicationService.cs:59-142 | one datagram's ACKs and notification are `UdpAcks` and `UdpNotice`; the counter moves once per ACK and nothing else changes |
| UdpCommunication.UdpCommunicationService.ReceiveLoop | TrailBlazorServerApp/TrailBlazorServerApp/Services/UdpCommunicationService.cs:50-144 | the receive loop's outcome over a run of datagrams is `UdpNoticesAll` and `UdpAcksAll`, each ACK taking the next counter value |
| UdpCommunication.UdpCommunicationService.SendDataToEspDevices | TrailBlazorServerApp/TrailBlazorServerApp/Services/UdpCommunicationService.cs:164-193 | the serialised packet with an outgoing header goes to every device; one counter value is consumed |
| UdpCommunication.UdpCommunicationService.SendHeaderToEspDevices | TrailBlazorServerApp/TrailBlazorServerApp/Services/UdpCommunicationService.cs:195-223 | a bare outgoing header with length 0 goes to every device; one counter value is consumed |
| UdpCommunication.UdpNoticeOnlyLowNumbers | TrailBlazorServerApp/TrailBlazorServerApp/Services/UdpCommunicationService.cs:13 | as the last number is never assigned, only sequence numbers 0..10 ever notify |
| UdpCommunication.UdpShortDatagramIgnored | TrailBlazorServerApp/TrailBlazorServerApp/Services/UdpCommunicationService.cs:139-142 | a datagram shorter than a header gets no ACK and no notification |
| UdpCommunication.UdpAcksRejectedDatagram | TrailBlazorServerApp/TrailBlazorServerApp/Services/UdpCommunicationService.cs:66-79 | a datagram with a rejected number and a wrong length is still acknowledged |
| UdpCommunication.UdpAckIsBareHeader | TrailBlazorServerApp/TrailBlazorServerApp/Services/UdpCommunicationService.cs:33-45 | the ACK is header-only: type ACK, flags 0, length 0, the received version, to the sender |
| UdpCommunication.UdpReceivesWhatIsSent | TrailBlazorServerApp/TrailBlazorServerApp/Services/UdpCommunicationService.cs:164-190 | a packet built by the send path is received as its payload when its number is in the window |
| AppProtocol.AppAcks | TrailBlazorServerApp/TrailBlazorServerApp/Services/AppProtocolService.cs:87-92 | ACKs exactly when the header asks and is not an ACK: a version-1 bare ACK header to each configured device, not to the sender |
| AppProtocol.AppNotice | TrailBlazorServerApp/TrailBlazorServerApp/Services/AppProtocolService.cs:94-151 | a notification exactly when the datagram holds a header, the payload has the declared length and the type is known and sized right; the sequence number plays no part |
| AppProtocol.AppProtocolService.constructor | TrailBlazorServerApp/TrailBlazorServerApp/Services/AppProtocolService.cs:7-16 | last received number 255, counter 0, first packet pending, the one configured device |
| AppProtocol.AppProtocolService.IsSequenceNumberValid | TrailBlazorServerApp/TrailBlazorServerApp/Services/AppProtocolService.cs:63-83 | true on the first call, then the distance rule; the flag ends cleared and the last number is never written |
| AppProtocol.AppProtocolService.HandleReceivedData | TrailBlazorServerApp/TrailBlazorServerApp/Services/AppProtocolService.cs:38-61 | every header-sized datagram is processed: its ACKs are `AppAcks` and its notification `AppNotice`; the counter moves once per ACK header |
| AppProtocol.AppProtocolService.ProcessMessage | TrailBlazorServerApp/TrailBlazorServerApp/Services/AppProtocolService.cs:85-154 | an ACK broadcast when the header asks for one, then the type switch only when the payload length matches |
| AppProtocol.AppProtocolService.SendProtocolMessageTo | TrailBlazorServerApp/TrailBlazorServerApp/Services/AppProtocolService.cs:156-164 | when the address parses, one packet with its payload to the device port of that address and one counter value consumed; when it does not, nothing sent and the counter unchanged |
| AppProtocol.AppProtocolService.SendProtocolMessage | TrailBlazorServerApp/TrailBlazorServerApp/Services/AppProtocolService.cs:166-175 | a bare header to every device; one counter value is consumed |
| AppProtocol.AppProtocolService.CreateHeader | TrailBlazorServerApp/TrailBlazorServerApp/Services/AppProtocolService.cs:177-195 | version 1, the payload's size, the post-incremented counter, the requested flags |
| AppProtocol.AppProtocolService.CreateBareHeader | TrailBlazorServerApp/TrailBlazorServerApp/Services/AppProtocolService.cs:197-215 | as `CreateHeader` with length 0 |
| AppProtocol.AppIgnoresSequenceNumber | TrailBlazorServerApp/TrailBlazorServerApp/Services/AppProtocolService.cs:45-55 | changing a datagram's sequence number changes neither its ACKs nor its notification |
| AppProtocol.AppShortDatagramDropped | TrailBlazorServerApp/TrailBlazorServerApp/Services/AppProtocolService.cs:57-60 | a datagram shorter than a header gets no ACK and no notification |
| AppProtocol.AppAckNeverToSender | TrailBlazorServerApp/TrailBlazorServerApp/Services/AppProtocolService.cs:166-175 | a sender that is not a configured device never gets the ACK of its own datagram |
| AppProtocol.AppReceivesWhatIsSent | TrailBlazorServerApp/TrailBlazorServerApp/Services/AppProtocolService.cs:113-136 | a packet sent with its payload's type is received as that payload, whatever its number |
| ProtocolHandling.DispatchFaults | TrailBlazorServerApp/TrailBlazorServerApp/Services/ProtocolHandler.cs:58-63 | only a control or move-to command can fail its read, and only when the datagram is shorter than header plus 8 bytes |
| ProtocolHandling.HandlerDispatch | TrailBlazorServerApp/TrailBlazorServerApp/Services/ProtocolHandler.cs:53-69 | the switch fails exactly when a command's struct runs past the datagram's end; otherwise it notifies with the sender, and every type it does not name, ERR included, is unknown |
| ProtocolHandling.HandlerAccepts | TrailBlazorServerApp/TrailBlazorServerApp/Services/ProtocolHandler.cs:28-32 | only a datagram holding a header is accepted; on the first packet any such datagram; afterwards never the last number again |
| ProtocolHandling.HandlerLast | TrailBlazorServerApp/TrailBlazorServerApp/Services/ProtocolHandler.cs:32-34 | an accepted datagram's number becomes the last one; otherwise the last one stays |
| ProtocolHandling.HandlerNotice | TrailBlazorServerApp/TrailBlazorServerApp/Services/ProtocolHandler.cs:26-49 | exactly one notification for each accepted, length-matching datagram whose read succeeds |
| ProtocolHandling.HandlerAcks | TrailBlazorServerApp/TrailBlazorServerApp/Services/ProtocolHandler.cs:71-74 | one ACK, to the sender and echoing the version, exactly when the datagram was dispatched without failure and has the flag set, ACKs included |
| ProtocolHandling.ProtocolHandler.constructor | TrailBlazorServerApp/TrailBlazorServerApp/Services/ProtocolHandler.cs:14-16 | last received number 255, first packet pending, counter 0 |
| ProtocolHandling.ProtocolHandler.HandleIncomingPacket | TrailBlazorServerApp/TrailBlazorServerApp/Services/ProtocolHandler.cs:26-49 | the new last number, the first-packet flag, the notification, the failure, the ACKs and the counter are those of the functions above |
| ProtocolHandling.ProtocolHandler.ProcessMessage | TrailBlazorServerApp/TrailBlazorServerApp/Services/ProtocolHandler.cs:51-75 | the switch, then an ACK to the sender whenever the flag is set, unless the read failed |
| ProtocolHandling.ProtocolHandler.SendAck | TrailBlazorServerApp/TrailBlazorServerApp/Services/ProtocolHandler.cs:77-90 | a bare ACK header echoing the version goes to the recipient; one counter value is consumed |
| ProtocolHandling.ProtocolHandler.IsSequenceNumberValid | TrailBlazorServerApp/TrailBlazorServerApp/Services/ProtocolHandler.cs:92-101 | true on the first call, then the window rule; the flag ends cleared |
| ProtocolHandling.ProtocolHandler.SendControlCommandAsync | TrailBlazorServerApp/TrailBlazorServerApp/Services/ProtocolHandler.cs:103-121 | header (version 1, type ControlCommand, flags 0, length 6) then the command, the same layout as the other services', to every device; one counter value is consumed |
| ProtocolHandling.HandlerAcceptsFirst | TrailBlazorServerApp/TrailBlazorServerApp/Services/ProtocolHandler.cs:94-98 | the first packet is accepted whatever its number |
| ProtocolHandling.HandlerRejectsReplay | TrailBlazorServerApp/TrailBlazorServerApp/Services/ProtocolHandler.cs:32-34 | a datagram accepted once is rejected when it arrives again |
| ProtocolHandling.HandlerSilentUnlessDispatched | TrailBlazorServerApp/TrailBlazorServerApp/Services/ProtocolHandler.cs:32-47 | a rejected number or a length mismatch gives no notification, no ACK and no failure |
| ProtocolHandling.HandlerMismatchAdvancesState | TrailBlazorServerApp/TrailBlazorServerApp/Services/ProtocolHandler.cs:34-39 | a length mismatch still records the datagram's number |
| ProtocolHandling.HandlerAcknowledgesAck | TrailBlazorServerApp/TrailBlazorServerApp/Services/ProtocolHandler.cs:71-74 | an ACK with the flag set is acknowledged: no ACK-for-ACK suppression |
| ProtocolHandling.HandlerErrIsUnknown | TrailBlazorServerApp/TrailBlazorServerApp/Services/ProtocolHandler.cs:66-68 | a dispatched ERR message is reported as an unknown type |
| ProtocolHandling.HandlerShortCommandFaults | TrailBlazorServerApp/TrailBlazorServerApp/Services/ProtocolHandler.cs:58-60 | a control command declared with length 0 fails in the read, gets no notification and no ACK, and its number is still recorded |
| ProtocolHandling.HandlerReceivesWhatIsSent | TrailBlazorServerApp/TrailBlazorServerApp/Services/ProtocolHandler.cs:58-65 | a packet sent with its payload's type is received as that payload when its number is accepted |
| RoundTrips.AcknowledgedCommand | TrailBlazorServerApp/TrailBlazorServerApp/Services/ProtocolHandler.cs:71-74 | a command sent with the ACK flag reaches a fresh handler as itself. The handler returns a bare ACK. The UDP service does not acknowledge that ACK, and notifies it exactly when its number is 0..10 |
| KeyInput.ToLower | TrailBlazorServerApp/TrailBlazorServerApp/Pages/CarPage.razor.cs:39 | same length; each upper-case letter becomes the letter 32 code points on, its lower-case form, and every other character is kept |
| KeyInput.ToLowerIdempotent | TrailBlazorServerApp/TrailBlazorServerApp/Pages/CarPage.razor.cs:39-49 | lower-casing twice is lower-casing once |
| KeyInput.ToLowerUpperLetter | TrailBlazorServerApp/TrailBlazorServerApp/Pages/CarPage.razor.cs:39 | "W" and "w" are the same key |
| KeyInput.ArrowColor | TrailBlazorServerApp/TrailBlazorServerApp/Pages/CarPage.razor.cs:59-62 | green exactly when the key is pressed, black exactly when it is not |
| KeyInput.TiltKeys | TrailBlazorServerApp/TrailBlazorServerApp/Pages/CarPage.razor.cs:250-266 | the keys a tilt gives: each one exactly when its threshold is passed, a subset of w/a/s/d, never both of an opposing pair |
| KeyInput.Direction | TrailBlazorServerApp/TrailBlazorServerApp/Pages/CarPage.razor.cs:95-133 | the direction is always one of A..H or X |
| KeyInput.DirectionOffset | TrailBlazorServerApp/TrailBlazorServerApp/Pages/CarPage.razor.cs:95-133 | the direction character is the net forward and right movement of the pressed keys |
| KeyInput.DirectionInjective | TrailBlazorServerApp/TrailBlazorServerApp/Pages/CarPage.razor.cs:114-133 | two key sets give the same direction exactly when their net movements agree |
| KeyInput.DirectionOnlySteeringKeys | TrailBlazorServerApp/TrailBlazorServerApp/Pages/CarPage.razor.cs:97-100 | only membership of w, a, s and d matters |
| KeyInput.DirectionAllFour | TrailBlazorServerApp/TrailBlazorServerApp/Pages/CarPage.razor.cs:102-112 | all four keys cancel to X |
| KeyInput.DirectionTable | TrailBlazorServerApp/TrailBlazorServerApp/Pages/CarPage.razor.cs:114-133 | w+d B, s+d D, s+a F, w+a H, w A, d C, s E, a G, none X |
| ServerCarPage.CommandFor | TrailBlazorServerApp/TrailBlazorServerApp/Pages/CarPage.razor.cs:70-77 | speed 10, stop 0, direction the code of the direction character |
| ServerCarPage.CarPage.constructor | TrailBlazorServerApp/TrailBlazorServerApp/Pages/CarPage.razor.cs:16-30 | no key pressed, every arrow black |
| ServerCarPage.CarPage.UpdateArrowColors | TrailBlazorServerApp/TrailBlazorServerApp/Pages/CarPage.razor.cs:56-66 | every arrow shows whether its key is pressed; the keys are unchanged |
| ServerCarPage.CarPage.HandleKeyDown | TrailBlazorServerApp/TrailBlazorServerApp/Pages/CarPage.razor.cs:36-43 | the lower-cased key is added, nothing else, and the arrows follow |
| ServerCarPage.CarPage.HandleKeyUp | TrailBlazorServerApp/TrailBlazorServerApp/Pages/CarPage.razor.cs:46-53 | the lower-cased key is removed, nothing else, and the arrows follow |
| ServerCarPage.CarPage.HandleDirectionDown | TrailBlazorServerApp/TrailBlazorServerApp/Pages/CarPage.razor.cs:169-176 | the key is added, nothing else, and the arrows follow |
| ServerCarPage.CarPage.HandleDirectionUp | TrailBlazorServerApp/TrailBlazorServerApp/Pages/CarPage.razor.cs:178-185 | the key is removed, nothing else, and the arrows follow |
| ServerCarPage.CarPage.OnTiltChange | TrailBlazorServerApp/TrailBlazorServerApp/Pages/CarPage.razor.cs:244-270 | the previous keys are discarded and the set is exactly the tilt's keys; the arrows follow |
| ServerCarPage.CarPage.SendCommandToESP | TrailBlazorServerApp/TrailBlazorServerApp/Pages/CarPage.razor.cs:68-85 | the command for the pressed keys goes to every device as a ControlCommand packet with the ACK flag; one counter value is consumed |
| ServerCarPage.DirectionDownIsIdempotent | TrailBlazorServerApp/TrailBlazorServerApp/Pages/CarPage.razor.cs:169-176 | pressing a direction button twice equals pressing it once |
| ClientCarPage.CarPage.constructor | TrailBlazor/Pages/CarPage.razor.cs:12-21 | no key pressed, every arrow black |
| ClientCarPage.CarPage.UpdateArrowColors | TrailBlazor/Pages/CarPage.razor.cs:47-57 | every arrow shows whether its key is pressed; the keys are unchanged |
| ClientCarPage.CarPage.HandleKeyDown | TrailBlazor/Pages/CarPage.razor.cs:27-34 | the lower-cased key is added, nothing else, and the arrows follow |
| ClientCarPage.CarPage.HandleKeyUp | TrailBlazor/Pages/CarPage.razor.cs:37-44 | the lower-cased key is removed, nothing else, and the arrows follow |
| ClientCarPage.CarPage.HandleDirectionDown | TrailBlazor/Pages/CarPage.razor.cs:59-66 | the key is added, nothing else, and the arrows follow |
| ClientCarPage.CarPage.HandleDirectionUp | TrailBlazor/Pages/CarPage.razor.cs:68-75 | the key is removed, nothing else, and the arrows follow |
| ClientCarPage.CarPage.OnTiltChange | TrailBlazor/Pages/CarPage.razor.cs:116-142 | the set becomes exactly the tilt's keys: a subset of w/a/s/d without an opposing pair |
| ClientCarPage.DirectionDownIsIdempotent | TrailBlazor/Pages/CarPage.razor.cs:59-66 | pressing a direction button twice equals pressing it once |
| ClientCarPage.KeyUpKeepsOthers | TrailBlazor/Pages/CarPage.razor.cs:37-44 | releasing a key leaves the other pressed keys in place |

## Left out

- Sockets and asynchrony are not modelled. This covers `UdpClient`, `SendAsync`/`ReceiveAsync`, the cancellation token, `async void` and `await`. Every send is a returned `Datagram` and every receive is an argument. The receive loop runs over a given sequence of datagrams.
- The `OnMessageReceived`, `OnDataReceived`, `OnPacketReceived` and `OnAckReceived` events, and the console output, are not modelled. A notification is a `Notice` value, not the formatted text.
- The calls that `AppProtocolService` and `ProtocolHandler` make into a UDP service are taken as plain sends. This covers `SendDataAsync`, `SendPacketAsync`, `StartListening` and their event subscriptions, which the modelled `UdpCommunicationService` does not declare.
- `Marshal` pointer copies are not modelled; an explicit byte codec stands in for them.
- Headers.EncodeHeader: `Header.cs` declares four one-byte fields, which would make the header 4 bytes. Every service reads and writes a `SequenceNumber` field, and the header cannot be 4 bytes and also carry it. The model appends it as byte 4, so `HeaderSize` is 5, not 4.
- The concrete flag encoding is not taken from the source: no C# file here defines `IsFlagSet`/`SetFlag`, and `Data/Flags.cs` (ACK=0, NACK=1) matches neither use. Beyond `SetFlag` setting its flag and leaving the other bits alone, the model makes two choices. A flag byte of 0 carries no flag, as the ACK headers' comment `No need for further ACKs` at `UdpCommunicationService.cs:39` implies; `Packets.AckHeader` and the empty-set case of `Packets.OutgoingHeader` depend on it. The ACK flag is bit 0, so a flag byte of 1 asks for an ACK; `UdpCommunication.UdpAcksRejectedDatagram` and `ProtocolHandling.HandlerShortCommandFaults` depend on it. An absent (`null`) flag set is the empty set.
- Counters: the C# statics are modelled as instance fields. This covers `SequenceNumber` in `UdpCommunicationService` and `AppProtocolService`, and `LastReceivedSequenceNumber` in `AppProtocolService`. No sharing between instances is modelled.
- ProtocolHandling.HandlerDispatch: the exception thrown by reading a command past the end of the datagram is modelled only as `faulted`, meaning no notification and no ACK. What an exception escaping an `async void` handler then does to the process is not modelled.
- AppProtocol.AppProtocolService.SendProtocolMessageTo: which strings `IPAddress.Parse` accepts is not modelled; its outcome is the `addressParses` argument, and a rejected address sends nothing and takes no counter value.
- The nullable `UdpService` of the server page is not modelled; `SendCommandToESP` is given a service.
- The `statusMessage` text, `receivedMessages` and `HandleMessageReceived` are not modelled; they are display text.
- The Razor lifecycle and timers are not modelled. This covers the 500 ms `StartTimer`, `OnTimerElapsed`, `OnInitializedAsync`, the `OnAfterRenderAsync` retry loop, `FocusAsync`, `StateHasChanged`, `InvokeAsync` and `Dispose`.
- Tilt values are reals compared with the thresholds. NaN and infinities are not modelled.
- KeyInput.ToLower: only ASCII letters are lowered. The culture-sensitive `string.ToLower` of other characters is not modelled.
- `Data/Command.cs` and `Data/LocationData.cs` are not part of this model: no modelled code encodes or dispatches them.
- The ESP32 firmware and the JavaScript tilt and device-info scripts are not part of this model. They are socket, Wi-Fi and browser glue.
- There is no link-health or reconnect state machine in the code, so none is modelled.
- The `carID` page parameter and the focused element reference are not modelled.
