/**
 The server side as objects work on it: the context handle, the signal connections made
 when it is established, and the map of card connections, changed in place by the slots.
 The commands and dialogs under way belong to other objects and are kept as ghosts.
 */
module ServerSessions {
  import opened Server

  class ServerSession {
    var contextHandle: string
    var subscribed: bool
    var cardConnections: seq<Slot>
    ghost var connecting: multiset<string>
    ghost var transmitting: multiset<Command>
    ghost var pacing: multiset<string>
    ghost var pinning: multiset<string>
    ghost var errorsDue: nat

    ghost function State(): State
      reads this
    {
      Server.State(contextHandle, subscribed, cardConnections, connecting, transmitting, pacing, pinning, errorsDue)
    }

    constructor ()
      ensures State() == INIT
    {
      contextHandle, subscribed, cardConnections := "", false, [];
      connecting, transmitting, pacing, pinning, errorsDue := multiset{}, multiset{}, multiset{}, multiset{}, 0;
    }

    /** Writes the context handle into a message; the assertion of the program is its precondition. */
    method Send(out: Out) returns (sent: Sent)
      requires contextHandle != "" || out.IfdError? || out.ContextResponse?
      ensures sent == Sent(out, contextHandle)
    {
      sent := Sent(out, contextHandle);
    }

    method SlotHandleForReaderName(reader: string) returns (handle: string)
      ensures handle == HandleFor(cardConnections, reader)
    {
      for i := 0 to |cardConnections|
        invariant ReaderFrom(cardConnections, 0, reader) == ReaderFrom(cardConnections, i, reader)
      {
        if cardConnections[i].reader == reader {
          return cardConnections[i].handle;
        }
      }
      handle := "";
    }

    method ConvertSlotHandle(name: string) returns (slot: string)
      ensures slot == Resolve(cardConnections, name)
    {
      if !Has(cardConnections, name) {
        var handle := SlotHandleForReaderName(name);
        if handle != "" {
          return handle;
        }
      }
      slot := name;
    }

    method CreateAndSendContext(supported: bool, uuid: string) returns (sent: seq<Sent>)
      requires uuid != ""
      modifies this`contextHandle, this`subscribed
      ensures Effect(State(), sent) == EstablishContext(old(State()), supported, uuid)
    {
      var fail := Null;
      if contextHandle != "" {
        fail := UnknownError;
      }
      if !supported {
        fail := UnknownError;
      }
      if fail == Null {
        contextHandle := uuid;
      }
      var response := Send(ContextResponse(fail));
      if fail == Null {
        subscribed := true;
      }
      sent := [response];
    }

    /** The gate of the dispatcher, and the handler behind it. */
    method OnReceived(msg: Msg, context: string, env: Env) returns (sent: seq<Sent>)
      requires env.uuid != ""
      modifies this
      ensures Effect(State(), sent) == Receive(old(State()), msg, context, env)
    {
      if msg.Undefined? {
        var error := Send(IfdError);
        return [error];
      }
      if msg.Establish? {
        sent := CreateAndSendContext(msg.supported, env.uuid);
        return;
      }
      if context == "" || contextHandle != context {
        return [];
      }
      sent := OnRemoteMessage(msg, env);
    }

    method OnRemoteMessage(msg: Msg, env: Env) returns (sent: seq<Sent>)
      requires contextHandle != ""
      modifies this
      ensures Effect(State(), sent) == Handle(old(State()), msg, env)
    {
      match msg
      case Undefined => sent := [];
      case Establish(_) => sent := [];
      case Ignored => sent := [];
      case Response =>
        errorsDue := errorsDue + 1;
        sent := [];
      case GetStatus(slot) => sent := HandleIfdGetStatus(slot, env);
      case Connect(slot) => sent := HandleIfdConnect(slot, env.info);
      case Disconnect(slot) => sent := HandleIfdDisconnect(slot);
      case Transmit(slot, apdu) => sent := HandleIfdTransmit(slot, apdu);
      case Pace(slot) => sent := HandleIfdEstablishPaceChannel(slot, env);
      case ModifyPin(slot) => sent := HandleIfdModifyPin(slot, env);
    }

    method HandleIfdGetStatus(slot: string, env: Env) returns (sent: seq<Sent>)
      requires contextHandle != ""
      ensures Effect(State(), sent) == Handle(State(), GetStatus(slot), env)
    {
      if slot != "" {
        var status := Send(Status(StatusOf(env.info, env.pinPad)));
        return [status];
      }
      sent := [];
      for i := 0 to |env.infos|
        invariant sent + Statuses(env.infos, i, env.pinPad, contextHandle)
                    == Statuses(env.infos, 0, env.pinPad, contextHandle)
      {
        if env.infos[i].basic {
          var status := Send(Status(StatusOf(env.infos[i], env.pinPad)));
          sent := sent + [status];
        }
      }
    }

    method HandleIfdConnect(slot: string, info: ReaderInfo) returns (sent: seq<Sent>)
      requires contextHandle != ""
      modifies this`connecting
      ensures Effect(State(), sent) == HandleConnect(old(State()), slot, info)
    {
      var minor := Null;
      if !info.connected {
        minor := UnknownSlot;
      } else if !info.eid {
        minor := UnknownError;
      } else if ReaderFrom(cardConnections, 0, slot) < |cardConnections| {
        minor := SharingViolation;
      }
      if minor != Null {
        var response := Send(ConnectResponse(slot, minor));
        return [response];
      }
      connecting := connecting + multiset{slot};
      sent := [];
    }

    method HandleIfdDisconnect(name: string) returns (sent: seq<Sent>)
      requires contextHandle != ""
      modifies this`cardConnections
      ensures Effect(State(), sent) == HandleDisconnect(old(State()), name)
    {
      var slot := ConvertSlotHandle(name);
      var minor := if Has(cardConnections, slot) then Null else InvalidSlotHandle;
      if minor == Null {
        cardConnections := Removed(cardConnections, slot);
      }
      var response := Send(DisconnectResponse(slot, minor));
      sent := [response];
    }

    method HandleIfdTransmit(name: string, apdu: seq<Byte>) returns (sent: seq<Sent>)
      requires contextHandle != ""
      modifies this`transmitting
      ensures Effect(State(), sent) == HandleTransmit(old(State()), name, apdu)
    {
      var slot := ConvertSlotHandle(name);
      if !Has(cardConnections, slot) {
        var response := Send(TransmitResponse(slot, [], InvalidSlotHandle));
        return [response];
      }
      transmitting := transmitting + multiset{Command(slot, apdu)};
      sent := [];
    }

    method HandleIfdEstablishPaceChannel(name: string, env: Env) returns (sent: seq<Sent>)
      requires contextHandle != ""
      modifies this`pacing
      ensures Effect(State(), sent) == HandlePace(old(State()), name, env)
    {
      var slot := ConvertSlotHandle(name);
      var minor := Null;
      if !Has(cardConnections, slot) {
        minor := InvalidSlotHandle;
      } else if env.basic && !env.pinPad {
        minor := UnknownError;
      }
      if minor != Null {
        var response := Send(PaceResponse(slot, [], minor));
        return [response];
      }
      pacing := pacing + multiset{name};
      sent := [];
    }

    method HandleIfdModifyPin(slot: string, env: Env) returns (sent: seq<Sent>)
      requires contextHandle != ""
      modifies this`pinning
      ensures Effect(State(), sent) == HandleModifyPin(old(State()), slot, env)
    {
      var minor := Null;
      if !env.pinPad {
        minor := UnknownError;
      } else if !Has(cardConnections, slot) {
        minor := InvalidSlotHandle;
      }
      if minor != Null {
        var response := Send(PinResponse(slot, [], minor));
        return [response];
      }
      pinning := pinning + multiset{slot};
      sent := [];
    }

    method OnCreateCardConnectionDone(reader: string, ok: bool, handle: string, pos: nat) returns (sent: seq<Sent>)
      requires contextHandle != "" && Enabled(State(), ConnectDone(reader, ok, handle, pos))
      modifies this`cardConnections, this`connecting
      ensures Effect(State(), sent) == Step(old(State()), ConnectDone(reader, ok, handle, pos))
    {
      connecting := connecting - multiset{reader};
      var response;
      if !ok {
        response := Send(ConnectResponse(reader, UnknownError));
      } else {
        cardConnections := Inserted(cardConnections, pos, Slot(handle, reader));
        response := Send(ConnectResponse(handle, Null));
      }
      sent := [response];
    }

    method OnTransmitCardCommandDone(command: Command, ok: bool, response: seq<Byte>) returns (sent: seq<Sent>)
      requires contextHandle != "" && Enabled(State(), TransmitDone(command, ok, response))
      modifies this`transmitting
      ensures Effect(State(), sent) == Step(old(State()), TransmitDone(command, ok, response))
    {
      transmitting := transmitting - multiset{command};
      var handle := ConvertSlotHandle(command.slot);
      var answer;
      if !ok {
        answer := Send(TransmitResponse(handle, [], UnknownError));
      } else {
        answer := Send(TransmitResponse(handle, response, Null));
      }
      sent := [answer];
    }

    method SendEstablishPaceChannelResponse(slot: string, code: PaceCode, ccid: seq<Byte>) returns (sent: seq<Sent>)
      requires contextHandle != "" && Enabled(State(), PaceDone(slot, code, ccid))
      modifies this`pacing
      ensures Effect(State(), sent) == Step(old(State()), PaceDone(slot, code, ccid))
    {
      pacing := pacing - multiset{slot};
      var response;
      if code == PaceUnknown {
        response := Send(PaceResponse(slot, ccid, UnknownError));
      } else if code == CardNotFound {
        response := Send(PaceResponse(slot, ccid, NoCard));
      } else {
        response := Send(PaceResponse(slot, ccid, Null));
      }
      sent := [response];
    }

    method SendModifyPinResponse(slot: string, status: PinStatus, ccid: seq<Byte>) returns (sent: seq<Sent>)
      requires contextHandle != "" && Enabled(State(), PinDone(slot, status, ccid))
      modifies this`pinning
      ensures Effect(State(), sent) == Step(old(State()), PinDone(slot, status, ccid))
    {
      pinning := pinning - multiset{slot};
      var minor := Null;
      match status {
        case Success =>
        case Empty => minor := NoCard;
        case InputTimeout => minor := TimeoutError;
        case InputCancelled => minor := CancellationByUser;
        case PasswordsDiffer => minor := RepeatedDataMismatch;
        case PasswordOutOfRange => minor := UnknownPinFormat;
        case OtherStatus => minor := UnknownError;
      }
      var response := Send(PinResponse(slot, ccid, minor));
      sent := [response];
    }

    /** The queued answer to an unexpected message. */
    method SendError() returns (sent: seq<Sent>)
      requires Enabled(State(), ErrorDue)
      modifies this`errorsDue
      ensures Effect(State(), sent) == Step(old(State()), ErrorDue)
    {
      errorsDue := errorsDue - 1;
      var error := Send(IfdError);
      sent := [error];
    }

    method OnReaderChanged(info: ReaderInfo, pinPad: bool) returns (sent: seq<Sent>)
      requires subscribed && contextHandle != ""
      modifies this`cardConnections
      ensures Effect(State(), sent) == Step(old(State()), ReaderChanged(info, pinPad))
    {
      if !info.eid {
        var handle := SlotHandleForReaderName(info.name);
        cardConnections := Removed(cardConnections, handle);
      }
      var status := Send(Status(StatusOf(info, pinPad)));
      sent := [status];
    }

    method OnReaderRemoved(reader: string, pinPad: bool) returns (sent: seq<Sent>)
      requires subscribed && contextHandle != ""
      ensures Effect(State(), sent) == Step(State(), ReaderRemoved(reader, pinPad))
    {
      var status := Send(Status(StatusOf(GoneReader(reader), pinPad)));
      sent := [status];
    }

    method OnClosed()
      modifies this`cardConnections
      ensures Effect(State(), []) == Step(old(State()), Closed)
    {
      cardConnections := [];
    }
  }
}
