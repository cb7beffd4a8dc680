/**
 One session of the remote card reader server: the context handshake, the gate in front
 of the message handler, and the handler's table of connected slots. Card commands, PIN
 dialogs and queued calls complete later, as events of their own.
 */
module Server {

  type Byte = bv8

  datatype Minor = Null | UnknownError | UnknownSlot | SharingViolation | InvalidSlotHandle | NoCard
                 | TimeoutError | CancellationByUser | RepeatedDataMismatch | UnknownPinFormat

  /** How a PACE dialog ends. */
  datatype PaceCode = PaceUnknown | CardNotFound | OtherReturn

  /** How a PIN dialog ends. */
  datatype PinStatus = Success | Empty | InputTimeout | InputCancelled | PasswordsDiffer
                     | PasswordOutOfRange | OtherStatus

  /** A message from the client; `Response` is any of the six response types, `Ignored` a type without effect. */
  datatype Msg = Undefined | Establish(supported: bool) | GetStatus(slot: string) | Connect(slot: string)
               | Disconnect(slot: string) | Transmit(slot: string, apdu: seq<Byte>) | Pace(slot: string)
               | ModifyPin(slot: string) | Response | Ignored

  /** What a status message says about a reader. */
  datatype SlotStatus = SlotStatus(name: string, pace: bool, maxApduLength: int, connected: bool, card: bool)

  datatype Out = IfdError | ContextResponse(minor: Minor) | Status(status: SlotStatus)
               | ConnectResponse(slot: string, minor: Minor) | DisconnectResponse(slot: string, minor: Minor)
               | TransmitResponse(slot: string, apdu: seq<Byte>, minor: Minor)
               | PaceResponse(slot: string, ccid: seq<Byte>, minor: Minor)
               | PinResponse(slot: string, ccid: seq<Byte>, minor: Minor)

  /** A message as it leaves through the data channel, with the context handle written into it. */
  datatype Sent = Sent(out: Out, context: string)

  datatype ReaderInfo = ReaderInfo(
    name: string, connected: bool, card: bool, eid: bool, basic: bool, maxApduLength: int)

  /** A basic reader can do PACE only while the application serves as its PIN pad. */
  function StatusOf(info: ReaderInfo, pinPad: bool): SlotStatus {
    SlotStatus(info.name, if info.basic then pinPad else true, info.maxApduLength, info.connected, info.card)
  }

  /** What is left of a reader that is gone: its name, everything else by default. */
  function GoneReader(reader: string): ReaderInfo {
    ReaderInfo(reader, false, false, false, true, 500)
  }

  /** A card command under way. */
  datatype Command = Command(slot: string, apdu: seq<Byte>)

  /** What the program asks its surroundings while it handles a message. */
  datatype Env = Env(info: ReaderInfo, infos: seq<ReaderInfo>, pinPad: bool, basic: bool, uuid: string)

  datatype Slot = Slot(handle: string, reader: string)

  /** The table is listed in key order; keys are random, so a new one can fall anywhere. */
  datatype State = State(context: string, subscribed: bool, table: seq<Slot>,
                         connecting: multiset<string>, transmitting: multiset<Command>,
                         pacing: multiset<string>, pinning: multiset<string>, errorsDue: nat)

  const INIT := State("", false, [], multiset{}, multiset{}, multiset{}, multiset{}, 0)

  datatype Effect = Effect(state: State, sent: seq<Sent>)

  datatype Event = Received(msg: Msg, context: string, env: Env)
                 | ConnectDone(reader: string, ok: bool, handle: string, pos: nat)
                 | TransmitDone(command: Command, ok: bool, response: seq<Byte>)
                 | PaceDone(slot: string, code: PaceCode, ccid: seq<Byte>)
                 | PinDone(slot: string, status: PinStatus, ccid: seq<Byte>)
                 | ReaderChanged(info: ReaderInfo, pinPad: bool)
                 | ReaderRemoved(reader: string, pinPad: bool)
                 | ErrorDue
                 | Closed

  // ----- the table

  function IndexFrom(table: seq<Slot>, k: nat, handle: string): (i: nat)
    requires k <= |table|
    ensures k <= i <= |table| && (i < |table| ==> table[i].handle == handle)
    ensures forall j :: k <= j < i ==> table[j].handle != handle
    decreases |table| - k
  {
    if k == |table| || table[k].handle == handle then k else IndexFrom(table, k + 1, handle)
  }

  predicate Has(table: seq<Slot>, handle: string) {
    IndexFrom(table, 0, handle) < |table|
  }

  function Removed(table: seq<Slot>, handle: string): seq<Slot> {
    var i := IndexFrom(table, 0, handle);
    if i < |table| then table[..i] + table[i + 1..] else table
  }

  function Inserted(table: seq<Slot>, pos: nat, slot: Slot): seq<Slot> {
    var p := if pos <= |table| then pos else |table|;
    table[..p] + [slot] + table[p..]
  }

  function ReaderFrom(table: seq<Slot>, k: nat, reader: string): (i: nat)
    requires k <= |table|
    ensures k <= i <= |table| && (i < |table| ==> table[i].reader == reader)
    ensures forall j :: k <= j < i ==> table[j].reader != reader
    decreases |table| - k
  {
    if k == |table| || table[k].reader == reader then k else ReaderFrom(table, k + 1, reader)
  }

  /** The first handle of a reader in key order, or the empty string. */
  function HandleFor(table: seq<Slot>, reader: string): string {
    var i := ReaderFrom(table, 0, reader);
    if i < |table| then table[i].handle else ""
  }

  /** Older clients send the reader name where a handle is due. */
  function Resolve(table: seq<Slot>, slot: string): string {
    if !Has(table, slot) && HandleFor(table, slot) != "" then HandleFor(table, slot) else slot
  }

  // ----- the handler

  function Answer(s: State, out: Out): Effect {
    Effect(s, [Sent(out, s.context)])
  }

  function Statuses(infos: seq<ReaderInfo>, k: nat, pinPad: bool, context: string): seq<Sent>
    requires k <= |infos|
    decreases |infos| - k
  {
    if k == |infos| then []
    else (if infos[k].basic then [Sent(Status(StatusOf(infos[k], pinPad)), context)] else [])
         + Statuses(infos, k + 1, pinPad, context)
  }

  function HandleConnect(s: State, slot: string, info: ReaderInfo): Effect {
    if !info.connected then Answer(s, ConnectResponse(slot, UnknownSlot))
    else if !info.eid then Answer(s, ConnectResponse(slot, UnknownError))
    else if ReaderFrom(s.table, 0, slot) < |s.table| then Answer(s, ConnectResponse(slot, SharingViolation))
    else Effect(s.(connecting := s.connecting + multiset{slot}), [])
  }

  function HandleDisconnect(s: State, name: string): Effect {
    var slot := Resolve(s.table, name);
    if !Has(s.table, slot) then Answer(s, DisconnectResponse(slot, InvalidSlotHandle))
    else Answer(s.(table := Removed(s.table, slot)), DisconnectResponse(slot, Null))
  }

  function HandleTransmit(s: State, name: string, apdu: seq<Byte>): Effect {
    var slot := Resolve(s.table, name);
    if !Has(s.table, slot) then Answer(s, TransmitResponse(slot, [], InvalidSlotHandle))
    else Effect(s.(transmitting := s.transmitting + multiset{Command(slot, apdu)}), [])
  }

  function HandlePace(s: State, name: string, env: Env): Effect {
    var slot := Resolve(s.table, name);
    if !Has(s.table, slot) then Answer(s, PaceResponse(slot, [], InvalidSlotHandle))
    else if env.basic && !env.pinPad then Answer(s, PaceResponse(slot, [], UnknownError))
    else Effect(s.(pacing := s.pacing + multiset{name}), [])
  }

  /** No conversion of reader names here. */
  function HandleModifyPin(s: State, slot: string, env: Env): Effect {
    if !env.pinPad then Answer(s, PinResponse(slot, [], UnknownError))
    else if !Has(s.table, slot) then Answer(s, PinResponse(slot, [], InvalidSlotHandle))
    else Effect(s.(pinning := s.pinning + multiset{slot}), [])
  }

  function Handle(s: State, msg: Msg, env: Env): Effect {
    match msg
    case Undefined => Effect(s, [])
    case Establish(_) => Effect(s, [])
    case Ignored => Effect(s, [])
    case Response => Effect(s.(errorsDue := s.errorsDue + 1), [])
    case GetStatus(slot) =>
      if slot != "" then Answer(s, Status(StatusOf(env.info, env.pinPad)))
      else Effect(s, Statuses(env.infos, 0, env.pinPad, s.context))
    case Connect(slot) => HandleConnect(s, slot, env.info)
    case Disconnect(slot) => HandleDisconnect(s, slot)
    case Transmit(slot, apdu) => HandleTransmit(s, slot, apdu)
    case Pace(slot) => HandlePace(s, slot, env)
    case ModifyPin(slot) => HandleModifyPin(s, slot, env)
  }

  // ----- the dispatcher in front of it

  function EstablishContext(s: State, supported: bool, uuid: string): Effect {
    if s.context != "" || !supported then Answer(s, ContextResponse(UnknownError))
    else Answer(s.(context := uuid, subscribed := true), ContextResponse(Null))
  }

  /** The messages that reach the handler. */
  predicate Admitted(s: State, msg: Msg, context: string) {
    !msg.Undefined? && !msg.Establish? && context != "" && s.context == context
  }

  function Receive(s: State, msg: Msg, context: string, env: Env): Effect {
    if msg.Undefined? then Answer(s, IfdError)
    else if msg.Establish? then EstablishContext(s, msg.supported, env.uuid)
    else if !Admitted(s, msg, context) then Effect(s, [])
    else Handle(s, msg, env)
  }

  // ----- completions and reader events

  function CompleteConnect(s: State, reader: string, ok: bool, handle: string, pos: nat): Effect {
    var t := s.(connecting := s.connecting - multiset{reader});
    if !ok then Answer(t, ConnectResponse(reader, UnknownError))
    else Answer(t.(table := Inserted(t.table, pos, Slot(handle, reader))), ConnectResponse(handle, Null))
  }

  function PaceMinor(code: PaceCode): Minor {
    match code
    case PaceUnknown => UnknownError
    case CardNotFound => NoCard
    case OtherReturn => Null
  }

  function PinMinor(status: PinStatus): Minor {
    match status
    case Success => Null
    case Empty => NoCard
    case InputTimeout => TimeoutError
    case InputCancelled => CancellationByUser
    case PasswordsDiffer => RepeatedDataMismatch
    case PasswordOutOfRange => UnknownPinFormat
    case OtherStatus => UnknownError
  }

  function ChangeReader(s: State, info: ReaderInfo, pinPad: bool): Effect {
    if !s.subscribed then Effect(s, [])
    else
      Answer(if info.eid then s else s.(table := Removed(s.table, HandleFor(s.table, info.name))),
             Status(StatusOf(info, pinPad)))
  }

  function Step(s: State, e: Event): Effect {
    match e
    case Received(msg, context, env) => Receive(s, msg, context, env)
    case ConnectDone(reader, ok, handle, pos) => CompleteConnect(s, reader, ok, handle, pos)
    case TransmitDone(command, ok, response) =>
      Answer(s.(transmitting := s.transmitting - multiset{command}),
             TransmitResponse(Resolve(s.table, command.slot),
                              if ok then response else [], if ok then Null else UnknownError))
    case PaceDone(slot, code, ccid) =>
      Answer(s.(pacing := s.pacing - multiset{slot}), PaceResponse(slot, ccid, PaceMinor(code)))
    case PinDone(slot, status, ccid) =>
      Answer(s.(pinning := s.pinning - multiset{slot}), PinResponse(slot, ccid, PinMinor(status)))
    case ReaderChanged(info, pinPad) => ChangeReader(s, info, pinPad)
    case ReaderRemoved(reader, pinPad) =>
      if s.subscribed then Answer(s, Status(StatusOf(GoneReader(reader), pinPad))) else Effect(s, [])
    case ErrorDue => Answer(s.(errorsDue := if s.errorsDue > 0 then s.errorsDue - 1 else 0), IfdError)
    case Closed => Effect(s.(table := []), [])
  }

  /** Completions belong to commands in flight, and identifiers are new. */
  predicate Enabled(s: State, e: Event) {
    match e
    case Received(_, _, env) => env.uuid != ""
    case ConnectDone(reader, _, handle, _) => reader in s.connecting && handle != "" && !Has(s.table, handle)
    case TransmitDone(command, _, _) => command in s.transmitting
    case PaceDone(slot, _, _) => slot in s.pacing
    case PinDone(slot, _, _) => slot in s.pinning
    case ErrorDue => s.errorsDue > 0
    case ReaderChanged(_, _) => true
    case ReaderRemoved(_, _) => true
    case Closed => true
  }

  // ----- runs

  /** The state before event `n`. */
  function At(events: seq<Event>, n: nat): State
    requires n <= |events|
  {
    if n == 0 then INIT else Step(At(events, n - 1), events[n - 1]).state
  }

  function SentAt(events: seq<Event>, n: nat): seq<Sent>
    requires n < |events|
  {
    Step(At(events, n), events[n]).sent
  }

  predicate EnabledAt(events: seq<Event>, n: nat)
    requires n < |events|
  {
    Enabled(At(events, n), events[n])
  }

  predicate IsRun(events: seq<Event>) {
    forall n {:trigger EnabledAt(events, n)} :: 0 <= n < |events| ==> EnabledAt(events, n)
  }
}
