/**
 What the client is told. For every answer the session can send: at which events exactly it is
 sent, and with which contents; and where commands in flight come from.
 */
module ServerAnswers {
  import opened Counting
  import opened Server
  import opened ServerProofs

  predicate Says(sent: seq<Sent>, out: Out) {
    exists i {:trigger sent[i]} :: 0 <= i < |sent| && sent[i].out == out
  }

  /** The status of this reader, with the PIN pad switched on or off. */
  predicate Describes(status: SlotStatus, info: ReaderInfo, pinPad: bool) {
    && status.name == info.name && status.maxApduLength == info.maxApduLength
    && (status.connected <==> info.connected) && (status.card <==> info.card)
    && (status.pace <==> (info.basic ==> pinPad))
  }

  predicate Gets(s: State, e: Event) {
    e.Received? && Admitted(s, e.msg, e.context)
  }

  predicate ContextDue(s: State, e: Event, minor: Minor) {
    e.Received? && e.msg.Establish?
    && minor == if s.context == "" && e.msg.supported then Null else UnknownError
  }

  predicate StatusDue(s: State, e: Event, status: SlotStatus) {
    || (Gets(s, e) && e.msg.GetStatus? && e.msg.slot != "" && Describes(status, e.env.info, e.env.pinPad))
    || (Gets(s, e) && e.msg.GetStatus? && e.msg.slot == ""
        && exists i {:trigger e.env.infos[i]} :: 0 <= i < |e.env.infos| && e.env.infos[i].basic
             && Describes(status, e.env.infos[i], e.env.pinPad))
    || (e.ReaderChanged? && s.subscribed && Describes(status, e.info, e.pinPad))
    || (e.ReaderRemoved? && s.subscribed
        && Describes(status, ReaderInfo(e.reader, false, false, false, true, 500), e.pinPad))
  }

  /** The first of three reasons to refuse a connect that applies, or the end of its command. */
  predicate ConnectDue(s: State, e: Event, slot: string, minor: Minor) {
    || (e.ConnectDone? && if e.ok then slot == e.handle && minor == Null else slot == e.reader && minor == UnknownError)
    || (Gets(s, e) && e.msg.Connect? && slot == e.msg.slot
        && if !e.env.info.connected then minor == UnknownSlot
           else if !e.env.info.eid then minor == UnknownError
           else minor == SharingViolation
                && exists i {:trigger s.table[i]} :: 0 <= i < |s.table| && s.table[i].reader == slot)
  }

  predicate DisconnectDue(s: State, e: Event, slot: string, minor: Minor) {
    Gets(s, e) && e.msg.Disconnect? && slot == Resolve(s.table, e.msg.slot)
    && minor == if Has(s.table, slot) then Null else InvalidSlotHandle
  }

  /** A command is answered with the bytes of the card, or fails without any. */
  predicate TransmitDue(s: State, e: Event, slot: string, apdu: seq<Byte>, minor: Minor) {
    || (e.TransmitDone? && e.ok && slot == Resolve(s.table, e.command.slot) && apdu == e.response && minor == Null)
    || (e.TransmitDone? && !e.ok && slot == Resolve(s.table, e.command.slot) && apdu == [] && minor == UnknownError)
    || (Gets(s, e) && e.msg.Transmit? && slot == Resolve(s.table, e.msg.slot) && !Has(s.table, slot)
        && apdu == [] && minor == InvalidSlotHandle)
  }

  predicate PaceDue(s: State, e: Event, slot: string, ccid: seq<Byte>, minor: Minor) {
    || (e.PaceDone? && slot == e.slot && ccid == e.ccid
        && (minor == Null <==> e.code == OtherReturn) && (minor == NoCard <==> e.code == CardNotFound)
        && (minor == UnknownError <==> e.code == PaceUnknown))
    || (Gets(s, e) && e.msg.Pace? && slot == Resolve(s.table, e.msg.slot) && ccid == []
        && if !Has(s.table, slot) then minor == InvalidSlotHandle
           else e.env.basic && !e.env.pinPad && minor == UnknownError)
  }

  predicate PinDue(s: State, e: Event, slot: string, ccid: seq<Byte>, minor: Minor) {
    || (e.PinDone? && slot == e.slot && ccid == e.ccid
        && (minor == Null <==> e.status == Success) && (minor == NoCard <==> e.status == Empty)
        && (minor == TimeoutError <==> e.status == InputTimeout)
        && (minor == CancellationByUser <==> e.status == InputCancelled)
        && (minor == RepeatedDataMismatch <==> e.status == PasswordsDiffer)
        && (minor == UnknownPinFormat <==> e.status == PasswordOutOfRange)
        && (minor == UnknownError <==> e.status == OtherStatus))
    || (Gets(s, e) && e.msg.ModifyPin? && slot == e.msg.slot && ccid == []
        && if !e.env.pinPad then minor == UnknownError else !Has(s.table, slot) && minor == InvalidSlotHandle)
  }

  /** The answers by kind, and the events that call for them. */
  predicate Due(s: State, e: Event, out: Out) {
    match out
    case IfdError => e.ErrorDue? || (e.Received? && e.msg.Undefined?)
    case ContextResponse(minor) => ContextDue(s, e, minor)
    case Status(status) => StatusDue(s, e, status)
    case ConnectResponse(slot, minor) => ConnectDue(s, e, slot, minor)
    case DisconnectResponse(slot, minor) => DisconnectDue(s, e, slot, minor)
    case TransmitResponse(slot, apdu, minor) => TransmitDue(s, e, slot, apdu, minor)
    case PaceResponse(slot, ccid, minor) => PaceDue(s, e, slot, ccid, minor)
    case PinResponse(slot, ccid, minor) => PinDue(s, e, slot, ccid, minor)
  }

  // ----- one event

  lemma OneSaid(x: Sent, out: Out)
    ensures Says([x], out) <==> x.out == out
  {
    assert [x][0] == x;
  }

  lemma {:induction false} StatusesSay(infos: seq<ReaderInfo>, k: nat, pinPad: bool, context: string, out: Out)
    requires k <= |infos|
    ensures Says(Statuses(infos, k, pinPad, context), out) <==>
            out.Status? && exists i {:trigger infos[i]} :: k <= i < |infos| && infos[i].basic
                             && Describes(out.status, infos[i], pinPad)
    decreases |infos| - k
  {
    if k < |infos| {
      var rest := Statuses(infos, k + 1, pinPad, context);
      StatusesSay(infos, k + 1, pinPad, context, out);
      if infos[k].basic {
        var first := Sent(Status(StatusOf(infos[k], pinPad)), context);
        assert Statuses(infos, k, pinPad, context) == [first] + rest;
        SaysEither([first], rest, out);
        OneSaid(first, out);
        DescribedBy(out, infos[k], pinPad);
      } else {
        assert Statuses(infos, k, pinPad, context) == rest;
      }
    }
  }

  lemma DescribedBy(out: Out, info: ReaderInfo, pinPad: bool)
    ensures out == Status(StatusOf(info, pinPad)) <==> out.Status? && Describes(out.status, info, pinPad)
  {}

  lemma SaysEither(a: seq<Sent>, b: seq<Sent>, out: Out)
    ensures Says(a + b, out) <==> Says(a, out) || Says(b, out)
  {
    if Says(a, out) {
      var i :| 0 <= i < |a| && a[i].out == out;
      assert (a + b)[i].out == out;
    }
    if Says(b, out) {
      var i :| 0 <= i < |b| && b[i].out == out;
      assert (a + b)[|a| + i].out == out;
    }
  }

  lemma AnswerSays(s: State, x: Out, out: Out)
    ensures Says(Answer(s, x).sent, out) <==> out == x
  {
    OneSaid(Sent(x, s.context), out);
  }

  lemma GetStatusSays(s: State, e: Event, out: Out)
    requires Gets(s, e) && e.msg.GetStatus?
    ensures Says(Step(s, e).sent, out) <==> Due(s, e, out)
  {
    if e.msg.slot != "" {
      AnswerSays(s, Status(StatusOf(e.env.info, e.env.pinPad)), out);
    } else {
      StatusesSay(e.env.infos, 0, e.env.pinPad, s.context, out);
    }
  }

  lemma ConnectSays(s: State, e: Event, out: Out)
    requires Gets(s, e) && e.msg.Connect?
    ensures Says(Step(s, e).sent, out) <==> Due(s, e, out)
  {
    var slot, r := e.msg.slot, HandleConnect(s, e.msg.slot, e.env.info);
    assert Step(s, e) == r;
    if r.sent != [] {
      OneSaid(r.sent[0], out);
    }
    var i := ReaderFrom(s.table, 0, slot);
    assert i < |s.table| ==> s.table[i].reader == slot;
  }

  lemma DisconnectSays(s: State, e: Event, out: Out)
    requires Gets(s, e) && e.msg.Disconnect?
    ensures Says(Step(s, e).sent, out) <==> Due(s, e, out)
  {
    OneSaid(HandleDisconnect(s, e.msg.slot).sent[0], out);
  }

  lemma TransmitSays(s: State, e: Event, out: Out)
    requires Gets(s, e) && e.msg.Transmit?
    ensures Says(Step(s, e).sent, out) <==> Due(s, e, out)
  {
    var r := HandleTransmit(s, e.msg.slot, e.msg.apdu);
    if r.sent != [] {
      OneSaid(r.sent[0], out);
    }
  }

  lemma PaceSays(s: State, e: Event, out: Out)
    requires Gets(s, e) && e.msg.Pace?
    ensures Says(Step(s, e).sent, out) <==> Due(s, e, out)
  {
    var r := HandlePace(s, e.msg.slot, e.env);
    if r.sent != [] {
      OneSaid(r.sent[0], out);
    }
  }

  lemma PinSays(s: State, e: Event, out: Out)
    requires Gets(s, e) && e.msg.ModifyPin?
    ensures Says(Step(s, e).sent, out) <==> Due(s, e, out)
  {
    var r := HandleModifyPin(s, e.msg.slot, e.env);
    if r.sent != [] {
      OneSaid(r.sent[0], out);
    }
  }

  lemma GateSays(s: State, e: Event, out: Out)
    requires e.Received? && !Gets(s, e)
    ensures Says(Step(s, e).sent, out) <==> Due(s, e, out)
  {
    var r := Step(s, e);
    if r.sent != [] {
      OneSaid(r.sent[0], out);
    }
  }

  lemma ReceivedSays(s: State, e: Event, out: Out)
    requires e.Received?
    ensures Says(Step(s, e).sent, out) <==> Due(s, e, out)
  {
    if !Gets(s, e) {
      GateSays(s, e, out);
    } else {
      match e.msg
      case GetStatus(_) => GetStatusSays(s, e, out);
      case Connect(_) => ConnectSays(s, e, out);
      case Disconnect(_) => DisconnectSays(s, e, out);
      case Transmit(_, _) => TransmitSays(s, e, out);
      case Pace(_) => PaceSays(s, e, out);
      case ModifyPin(_) => PinSays(s, e, out);
      case _ =>
    }
  }

  lemma DoneSays(s: State, e: Event, out: Out)
    requires e.ConnectDone? || e.TransmitDone? || e.PaceDone? || e.PinDone?
    ensures Says(Step(s, e).sent, out) <==> Due(s, e, out)
  {
    OneSaid(Step(s, e).sent[0], out);
  }

  lemma OtherSays(s: State, e: Event, out: Out)
    requires e.ReaderChanged? || e.ReaderRemoved? || e.ErrorDue? || e.Closed?
    ensures Says(Step(s, e).sent, out) <==> Due(s, e, out)
  {
    var r := Step(s, e);
    if r.sent != [] {
      OneSaid(r.sent[0], out);
    }
  }

  lemma StepSays(s: State, e: Event, out: Out)
    ensures Says(Step(s, e).sent, out) <==> Due(s, e, out)
  {
    match e
    case Received(_, _, _) => ReceivedSays(s, e, out);
    case ConnectDone(_, _, _, _) => DoneSays(s, e, out);
    case TransmitDone(_, _, _) => DoneSays(s, e, out);
    case PaceDone(_, _, _) => DoneSays(s, e, out);
    case PinDone(_, _, _) => DoneSays(s, e, out);
    case _ => OtherSays(s, e, out);
  }

  // ----- runs

  predicate DueAt(events: seq<Event>, n: nat, out: Out)
    requires n < |events|
  {
    Due(At(events, n), events[n], out)
  }

  /** On every run: an answer is sent at an event exactly when the event calls for it, with exactly these contents. */
  lemma AnswersExact(events: seq<Event>, n: nat, out: Out)
    requires n < |events|
    ensures Says(SentAt(events, n), out) <==> DueAt(events, n, out)
  {
    StepSays(At(events, n), events[n], out);
  }

  function Basics(infos: seq<ReaderInfo>, k: nat): seq<ReaderInfo>
    requires k <= |infos|
    decreases |infos| - k
  {
    if k == |infos| then []
    else if infos[k].basic then [infos[k]] + Basics(infos, k + 1)
    else Basics(infos, k + 1)
  }

  /** Asked for all readers, the session sends one status for each basic reader, in their order. */
  lemma {:induction false} StatusesInOrder(infos: seq<ReaderInfo>, k: nat, pinPad: bool, context: string)
    requires k <= |infos|
    ensures var sent, basics := Statuses(infos, k, pinPad, context), Basics(infos, k);
            && |sent| == |basics|
            && forall i {:trigger sent[i]} :: 0 <= i < |sent| ==>
                 sent[i].context == context && sent[i].out.Status? && Describes(sent[i].out.status, basics[i], pinPad)
    decreases |infos| - k
  {
    if k < |infos| {
      StatusesInOrder(infos, k + 1, pinPad, context);
      assert !infos[k].basic ==> Statuses(infos, k, pinPad, context) == Statuses(infos, k + 1, pinPad, context);
    }
  }

  // ----- commands in flight

  /** The event has put the command on its way: an admitted message with these very bytes. */
  predicate Ordered(s: State, e: Event, c: Command) {
    Gets(s, e) && e.msg.Transmit? && Has(s.table, c.slot)
    && c.slot == Resolve(s.table, e.msg.slot) && c.apdu == e.msg.apdu
  }

  predicate OrderedAt(events: seq<Event>, n: nat, c: Command)
    requires n < |events|
  {
    Ordered(At(events, n), events[n], c)
  }

  lemma NewCommand(s: State, e: Event, c: Command)
    requires c in Step(s, e).state.transmitting && c !in s.transmitting
    ensures Ordered(s, e, c)
  {
    assert Gets(s, e) && e.msg.Transmit? by {
      if !(Gets(s, e) && e.msg.Transmit?) {
        OthersLeave(s, e);
      }
    }
    assert Step(s, e) == HandleTransmit(s, e.msg.slot, e.msg.apdu);
  }

  lemma OthersLeave(s: State, e: Event)
    requires !(Gets(s, e) && e.msg.Transmit?)
    ensures Step(s, e).state.transmitting <= s.transmitting
  {
    match e
    case Received(msg, context, env) =>
      if Gets(s, e) {
        HandleLeaves(s, msg, env);
      } else {
        assert Step(s, e).state.transmitting == s.transmitting;
      }
    case TransmitDone(command, _, _) => Less(s.transmitting, command);
    case _ => assert Step(s, e).state.transmitting == s.transmitting;
  }

  lemma HandleLeaves(s: State, msg: Msg, env: Env)
    requires !msg.Transmit?
    ensures Handle(s, msg, env).state.transmitting == s.transmitting
  {}

  lemma Less<T>(m: multiset<T>, x: T)
    ensures m - multiset{x} <= m
  {}

  /** On every run, each command in flight carries the bytes of an admitted message, for a slot connected then. */
  lemma {:induction false} CommandsOrdered(events: seq<Event>, n: nat, c: Command) returns (m: nat)
    requires n <= |events| && c in At(events, n).transmitting
    ensures m < n && OrderedAt(events, m, c)
  {
    assert n > 0 by {
      assert At(events, 0).transmitting == multiset{};
    }
    if c in At(events, n - 1).transmitting {
      m := CommandsOrdered(events, n - 1, c);
    } else {
      m := n - 1;
      NewCommand(At(events, m), events[m], c);
    }
  }

  /**
   On every run: a client that is answered a command without an error gets the bytes of the
   card, and the card has got the bytes of an admitted message.
   */
  lemma AnsweredFromCard(events: seq<Event>, n: nat, slot: string, apdu: seq<Byte>) returns (m: nat)
    requires IsRun(events) && n < |events| && Says(SentAt(events, n), TransmitResponse(slot, apdu, Null))
    ensures events[n].TransmitDone? && events[n].ok && events[n].response == apdu
    ensures m < n && OrderedAt(events, m, events[n].command)
  {
    AnswersExact(events, n, TransmitResponse(slot, apdu, Null));
    assert EnabledAt(events, n);
    m := CommandsOrdered(events, n, events[n].command);
  }

  // ----- connects and dialogs in flight

  function Flying(s: State, kind: Kind): multiset<string> {
    match kind
    case Connecting => s.connecting
    case Pacing => s.pacing
    case Pinning => s.pinning
    case _ => multiset{}
  }

  /** The event has started the connect or the dialog: an admitted message, none of whose refusals applied. */
  predicate Starts(s: State, e: Event, kind: Kind, slot: string) {
    Gets(s, e)
    && match kind
       case Connecting =>
         && e.msg == Connect(slot) && e.env.info.connected && e.env.info.eid
         && forall i {:trigger s.table[i]} :: 0 <= i < |s.table| ==> s.table[i].reader != slot
       case Pacing => e.msg == Pace(slot) && Has(s.table, Resolve(s.table, slot)) && (e.env.basic ==> e.env.pinPad)
       case Pinning => e.msg == ModifyPin(slot) && Has(s.table, slot) && e.env.pinPad
       case _ => false
  }

  predicate StartsAt(events: seq<Event>, n: nat, kind: Kind, slot: string)
    requires n < |events|
  {
    Starts(At(events, n), events[n], kind, slot)
  }

  lemma CompletionsEnd(s: State, e: Event, kind: Kind)
    requires !e.Received?
    ensures Flying(Step(s, e).state, kind) <= Flying(s, kind)
  {
    match e
    case ConnectDone(reader, _, _, _) => Less(s.connecting, reader);
    case PaceDone(slot, _, _) => Less(s.pacing, slot);
    case PinDone(slot, _, _) => Less(s.pinning, slot);
    case TransmitDone(_, _, _) =>
    case ReaderChanged(_, _) =>
    case ReaderRemoved(_, _) =>
    case ErrorDue =>
    case Closed =>
  }

  lemma NewStart(s: State, e: Event, kind: Kind, slot: string)
    requires slot in Flying(Step(s, e).state, kind) && slot !in Flying(s, kind)
    ensures Starts(s, e, kind, slot)
  {
    assert e.Received? by {
      if !e.Received? {
        CompletionsEnd(s, e, kind);
      }
    }
    assert Gets(s, e);
    if e.msg.Connect? {
      assert Step(s, e) == HandleConnect(s, e.msg.slot, e.env.info);
    } else if e.msg.Pace? {
      assert Step(s, e) == HandlePace(s, e.msg.slot, e.env);
    } else if e.msg.ModifyPin? {
      assert Step(s, e) == HandleModifyPin(s, e.msg.slot, e.env);
    }
  }

  predicate FlyingAt(events: seq<Event>, n: nat, kind: Kind, slot: string)
    requires n <= |events|
  {
    slot in Flying(At(events, n), kind)
  }

  lemma NothingFlies(events: seq<Event>, kind: Kind, slot: string)
    ensures !FlyingAt(events, 0, kind, slot)
  {}

  lemma NewStartAt(events: seq<Event>, n: nat, next: nat, kind: Kind, slot: string)
    requires n < |events| && next == n + 1 && FlyingAt(events, next, kind, slot) && !FlyingAt(events, n, kind, slot)
    ensures StartsAt(events, n, kind, slot)
  {
    NewStart(At(events, n), events[n], kind, slot);
  }

  /**
   On every run, each connect and each dialog under way was started by an admitted message
   that none of the refusals applied to.
   */
  lemma StartedBefore(events: seq<Event>, n: nat, kind: Kind, slot: string) returns (m: nat)
    requires n <= |events| && FlyingAt(events, n, kind, slot)
    ensures m < n && StartsAt(events, m, kind, slot)
  {
    NothingFlies(events, kind, slot);
    m := n;
    while m > 0 && FlyingAt(events, m, kind, slot)
      invariant m <= n && (m < n ==> FlyingAt(events, m + 1, kind, slot))
      invariant m == n ==> FlyingAt(events, n, kind, slot)
      decreases m
    {
      m := m - 1;
    }
    NewStartAt(events, m, m + 1, kind, slot);
  }

  // ----- unexpected messages

  /** How many admitted messages before event `n` had no business at the server. */
  function Unexpected(events: seq<Event>, n: nat): nat
    requires n <= |events|
  {
    if n == 0 then 0
    else Unexpected(events, n - 1) + Bit(Gets(At(events, n - 1), events[n - 1]) && events[n - 1].msg.Response?)
  }

  /** How many of them have been answered. */
  function Reported(events: seq<Event>, n: nat): nat
    requires n <= |events|
  {
    if n == 0 then 0 else Reported(events, n - 1) + Bit(events[n - 1].ErrorDue?)
  }

  predicate ErrorsAt(events: seq<Event>, n: nat)
    requires n <= |events|
  {
    Unexpected(events, n) == Reported(events, n) + At(events, n).errorsDue
  }

  lemma StepErrors(s: State, e: Event)
    requires Enabled(s, e)
    ensures s.errorsDue + Bit(Gets(s, e) && e.msg.Response?) == Step(s, e).state.errorsDue + Bit(e.ErrorDue?)
  {}

  lemma NoErrors(events: seq<Event>)
    ensures ErrorsAt(events, 0)
  {}

  lemma ErrorsNext(events: seq<Event>, n: nat)
    requires IsRun(events) && n < |events| && ErrorsAt(events, n)
    ensures ErrorsAt(events, n + 1)
  {
    assert EnabledAt(events, n);
    StepErrors(At(events, n), events[n]);
  }

  /** On every run, each unexpected message is answered by one queued error, or its error is still due. */
  lemma ErrorsBalance(events: seq<Event>, n: nat)
    requires IsRun(events) && n <= |events|
    ensures ErrorsAt(events, n)
  {
    NoErrors(events);
    for i := 0 to n
      invariant ErrorsAt(events, i)
    {
      ErrorsNext(events, i);
    }
  }
}
