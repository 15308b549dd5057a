/**
 * The controller page of the server app: the set of pressed keys, changed
 * by keyboard, on-screen direction buttons and device tilt, the four arrow
 * colours kept in step with it, and the control command built from it.
 */
module ServerCarPage {
  import opened Wire
  import opened MessageTypes
  import opened HeaderFlags
  import opened Sequencing
  import opened ControlCommands
  import opened Packets
  import opened UdpCommunication
  import opened KeyInput

  /** The speed every command is sent with. */
  const DefaultSpeed: int32 := 10

  /** The command sent for a set of pressed keys: speed 10, the direction character's code, not stopped. */
  function CommandFor(keys: set<string>): (c: ControlCommand)
    ensures c.speed == DefaultSpeed && c.stop == 0
    ensures c.direction as char == Direction(keys) && c.direction as char in "ABCDEFGHX"
  {
    ControlCommands.ControlCommand(DefaultSpeed, Direction(keys) as int, 0)
  }

  class CarPage {
    var pressedKeys: set<string>
    var upArrowColor: string
    var leftArrowColor: string
    var downArrowColor: string
    var rightArrowColor: string

    /** Each arrow shows whether its key is pressed. */
    predicate ArrowsMatch()
      reads this
    {
      upArrowColor == ArrowColor(pressedKeys, Up) && leftArrowColor == ArrowColor(pressedKeys, Left)
      && downArrowColor == ArrowColor(pressedKeys, Down) && rightArrowColor == ArrowColor(pressedKeys, Right)
    }

    /** The page as created: no key pressed, every arrow black. */
    constructor ()
      ensures pressedKeys == {} && ArrowsMatch()
      ensures upArrowColor == leftArrowColor == downArrowColor == rightArrowColor == "black"
    {
      pressedKeys := {};
      upArrowColor, leftArrowColor, downArrowColor, rightArrowColor := "black", "black", "black", "black";
    }

    /** `UpdateArrowColors`: every arrow green while its key is pressed, black otherwise; the keys stay as they are. */
    method UpdateArrowColors()
      modifies this`upArrowColor, this`leftArrowColor, this`downArrowColor, this`rightArrowColor
      ensures ArrowsMatch()
    {
      upArrowColor := if Up in pressedKeys then "green" else "black";
      leftArrowColor := if Left in pressedKeys then "green" else "black";
      downArrowColor := if Down in pressedKeys then "green" else "black";
      rightArrowColor := if Right in pressedKeys then "green" else "black";
    }

    /** `HandleKeyDown`: the lower-cased key joins the set. */
    method HandleKeyDown(key: string)
      modifies this
      ensures pressedKeys == old(pressedKeys) + {ToLower(key)}
      ensures ArrowsMatch()
    {
      pressedKeys := pressedKeys + {ToLower(key)};
      UpdateArrowColors();
    }

    /** `HandleKeyUp`: the lower-cased key leaves the set; the other keys stay. */
    method HandleKeyUp(key: string)
      modifies this
      ensures pressedKeys == old(pressedKeys) - {ToLower(key)}
      ensures ArrowsMatch()
    {
      pressedKeys := pressedKeys - {ToLower(key)};
      UpdateArrowColors();
    }

    /** `HandleDirectionDown`: the button's key joins the set if it is not there yet. */
    method HandleDirectionDown(direction: string)
      modifies this
      ensures pressedKeys == old(pressedKeys) + {direction}
      ensures ArrowsMatch()
    {
      if direction !in pressedKeys {
        pressedKeys := pressedKeys + {direction};
      }
      UpdateArrowColors();
    }

    /** `HandleDirectionUp`: the button's key leaves the set if it is there. */
    method HandleDirectionUp(direction: string)
      modifies this
      ensures pressedKeys == old(pressedKeys) - {direction}
      ensures ArrowsMatch()
    {
      if direction in pressedKeys {
        pressedKeys := pressedKeys - {direction};
      }
      UpdateArrowColors();
    }

    /** `OnTiltChange`: the previous keys are discarded and the tilt's keys added one by one. */
    method OnTiltChange(tiltX: real, tiltY: real)
      modifies this
      ensures pressedKeys == TiltKeys(tiltX, tiltY)
      ensures ArrowsMatch()
    {
      pressedKeys := {};
      if tiltX < 35.0 {
        pressedKeys := pressedKeys + {Up};
      } else if tiltX > 45.0 {
        pressedKeys := pressedKeys + {Down};
      }
      if tiltY < -5.0 {
        pressedKeys := pressedKeys + {Left};
      } else if tiltY > 5.0 {
        pressedKeys := pressedKeys + {Right};
      }
      UpdateArrowColors();
    }

    /**
     * `SendCommandToESP`: the command for the pressed keys, sent through the
     * UDP service as a control command asking for an acknowledgement.
     */
    method SendCommandToESP(udpService: UdpCommunicationService) returns (sent: seq<Datagram>)
      modifies udpService`sequenceNumber
      ensures sent == Broadcast(udpService.devices,
        SerializePacket(OutgoingHeader(MessageType.ControlCommand, ControlCommandSize, {AckFlag}, old(udpService.sequenceNumber)),
          Control(CommandFor(pressedKeys))))
      ensures udpService.sequenceNumber == Next(old(udpService.sequenceNumber))
    {
      var speed := DefaultSpeed;
      var direction := Direction(pressedKeys);
      var stop := false;
      var controlCommand := ControlCommands.ControlCommand(speed, direction as int, if stop then 1 else 0);
      sent := udpService.SendDataToEspDevices(MessageType.ControlCommand, Control(controlCommand), {AckFlag});
    }
  }

  /** Pressing a direction button twice leaves the same keys as pressing it once. */
  method DirectionDownIsIdempotent(page: CarPage, direction: string)
    modifies page
    ensures page.pressedKeys == old(page.pressedKeys) + {direction}
    ensures page.ArrowsMatch()
  {
    page.HandleDirectionDown(direction);
    page.HandleDirectionDown(direction);
  }
}
