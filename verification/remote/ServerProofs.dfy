/**
 What the server session keeps over every run.
 */
module ServerProofs {
  import opened Counting
  import opened Server

  // ----- the context

  /** Whatever can still answer was started under a context. */
  predicate Grounded(s: State) {
    s.context == "" ==>
      && !s.subscribed && s.connecting == s.pacing == s.pinning == multiset{} && s.transmitting == multiset{}
         && s.errorsDue == 0
  }

  /** The messages that may leave without a context. */
  predicate NeedsNoContext(out: Out) {
    out.IfdError? || out.ContextResponse?
  }

  predicate SendsSafely(sent: seq<Sent>) {
    forall i {:trigger sent[i]} :: 0 <= i < |sent| ==> sent[i].context != "" || NeedsNoContext(sent[i].out)
  }

  predicate Carries(sent: seq<Sent>, context: string) {
    forall i {:trigger sent[i]} :: 0 <= i < |sent| ==> sent[i].context == context
  }

  lemma {:induction false} StatusesCarry(infos: seq<ReaderInfo>, k: nat, pinPad: bool, context: string)
    requires k <= |infos|
    ensures Carries(Statuses(infos, k, pinPad, context), context)
    decreases |infos| - k
  {
    if k < |infos| {
      StatusesCarry(infos, k + 1, pinPad, context);
    }
  }

  lemma HandleCarries(s: State, msg: Msg, env: Env)
    ensures Handle(s, msg, env).state.context == s.context && Carries(Handle(s, msg, env).sent, s.context)
  {
    if msg.GetStatus? {
      StatusesCarry(env.infos, 0, env.pinPad, s.context);
    }
  }

  /** The step is grounded, sends safely and keeps a context that is set. */
  predicate Safe(s: State, r: Effect) {
    Grounded(r.state) && SendsSafely(r.sent) && (s.context != "" ==> r.state.context == s.context)
  }

  lemma ReceiveSafe(s: State, msg: Msg, context: string, env: Env)
    requires Grounded(s) && env.uuid != ""
    ensures Safe(s, Receive(s, msg, context, env))
  {
    if Admitted(s, msg, context) {
      HandleCarries(s, msg, env);
    } else {
      OnlyAdmitted(s, msg, context, env);
    }
  }

  lemma StepSafe(s: State, e: Event)
    requires Grounded(s) && Enabled(s, e)
    ensures Safe(s, Step(s, e))
  {
    if e.Received? {
      ReceiveSafe(s, e.msg, e.context, e.env);
    }
  }

  predicate GroundedAt(events: seq<Event>, n: nat)
    requires n <= |events|
  {
    Grounded(At(events, n))
  }

  lemma InitGrounded(events: seq<Event>)
    ensures GroundedAt(events, 0)
  {}

  lemma SafeAt(events: seq<Event>, n: nat)
    requires IsRun(events) && n < |events| && GroundedAt(events, n)
    ensures GroundedAt(events, n + 1) && SendsSafely(SentAt(events, n))
    ensures At(events, n).context != "" ==> At(events, n + 1).context == At(events, n).context
  {
    assert EnabledAt(events, n);
    StepSafe(At(events, n), events[n]);
  }

  lemma RunGrounded(events: seq<Event>, n: nat)
    requires IsRun(events) && n <= |events|
    ensures GroundedAt(events, n)
  {
    InitGrounded(events);
    for i := 0 to n
      invariant GroundedAt(events, i)
    {
      SafeAt(events, i);
    }
  }

  lemma ContextKept(events: seq<Event>, n: nat, next: nat)
    requires IsRun(events) && n < |events| && next == n + 1 && At(events, n).context != ""
    ensures At(events, next).context == At(events, n).context
  {
    RunGrounded(events, n);
    SafeAt(events, n);
  }

  /** Over a whole run the context is assigned at most once: once set it never changes. */
  lemma {:induction false} ContextOnce(events: seq<Event>, m: nat, n: nat)
    requires IsRun(events) && m <= n <= |events| && At(events, m).context != ""
    ensures At(events, n).context == At(events, m).context
    decreases n - m
  {
    if m < n {
      var next := m + 1;
      ContextKept(events, m, next);
      ContextOnce(events, next, n);
    }
  }

  /**
   Every send of every run satisfies the assertion in `send`, reader events included, and
   carries the one context of the session.
   */
  lemma SendAssertion(events: seq<Event>, n: nat)
    requires IsRun(events) && n < |events|
    ensures SendsSafely(SentAt(events, n))
  {
    RunGrounded(events, n);
    SafeAt(events, n);
  }

  /** A message that changes anything but the context has passed the gate with the session's context. */
  lemma OnlyAdmitted(s: State, msg: Msg, context: string, env: Env)
    requires !Admitted(s, msg, context)
    ensures var r := Receive(s, msg, context, env);
            && r.state.(context := s.context, subscribed := s.subscribed) == s
            && (r.state.context != s.context ==> s.context == "" && msg == Establish(true))
            && forall i :: 0 <= i < |r.sent| ==> NeedsNoContext(r.sent[i].out)
  {}

  lemma ReceiveCarries(s: State, msg: Msg, context: string, env: Env)
    ensures Carries(Receive(s, msg, context, env).sent, Receive(s, msg, context, env).state.context)
  {
    if Admitted(s, msg, context) {
      HandleCarries(s, msg, env);
    }
  }

  lemma StepCarries(s: State, e: Event)
    ensures Carries(Step(s, e).sent, Step(s, e).state.context)
  {
    if e.Received? {
      ReceiveCarries(s, e.msg, e.context, e.env);
    }
  }

  predicate AdmittedAt(events: seq<Event>, n: nat)
    requires n < |events|
  {
    events[n].Received? && Admitted(At(events, n), events[n].msg, events[n].context)
  }

  /**
   One session, one context: all messages that reach the handler came with the same
   non-empty handle, and from the first of them on everything sent carries it.
   */
  lemma OneContext(events: seq<Event>, m: nat, n: nat)
    requires IsRun(events) && m <= n < |events| && AdmittedAt(events, m)
    ensures events[m].context != "" && Carries(SentAt(events, n), events[m].context)
    ensures AdmittedAt(events, n) ==> events[n].context == events[m].context
  {
    ContextOnce(events, m, n);
    ContextOnce(events, m, n + 1);
    StepCarries(At(events, n), events[n]);
    assert At(events, n + 1) == Step(At(events, n), events[n]).state;
  }

  // ----- accounting

  datatype Kind = Connecting | Disconnecting | Transmitting | Pacing | Pinning

  predicate Asks(msg: Msg, kind: Kind) {
    match kind
    case Connecting => msg.Connect?
    case Disconnecting => msg.Disconnect?
    case Transmitting => msg.Transmit?
    case Pacing => msg.Pace?
    case Pinning => msg.ModifyPin?
  }

  predicate Answers(out: Out, kind: Kind) {
    match kind
    case Connecting => out.ConnectResponse?
    case Disconnecting => out.DisconnectResponse?
    case Transmitting => out.TransmitResponse?
    case Pacing => out.PaceResponse?
    case Pinning => out.PinResponse?
  }

  function AskedBy(s: State, e: Event, kind: Kind): nat {
    Bit(e.Received? && Admitted(s, e.msg, e.context) && Asks(e.msg, kind))
  }

  function CountAnswers(sent: seq<Sent>, k: nat, kind: Kind): nat
    requires k <= |sent|
    decreases |sent| - k
  {
    if k == |sent| then 0 else Bit(Answers(sent[k].out, kind)) + CountAnswers(sent, k + 1, kind)
  }

  function Asked(events: seq<Event>, n: nat, kind: Kind): nat
    requires n <= |events|
  {
    if n == 0 then 0 else Asked(events, n - 1, kind) + AskedBy(At(events, n - 1), events[n - 1], kind)
  }

  function Answered(events: seq<Event>, n: nat, kind: Kind): nat
    requires n <= |events|
  {
    if n == 0 then 0 else Answered(events, n - 1, kind) + CountAnswers(SentAt(events, n - 1), 0, kind)
  }

  function InFlight(s: State, kind: Kind): nat {
    match kind
    case Connecting => |s.connecting|
    case Disconnecting => 0
    case Transmitting => |s.transmitting|
    case Pacing => |s.pacing|
    case Pinning => |s.pinning|
  }

  lemma {:induction false} StatusesAnswerNothing(infos: seq<ReaderInfo>, k: nat, pinPad: bool, context: string)
    requires k <= |infos|
    ensures forall i {:trigger Statuses(infos, k, pinPad, context)[i]} ::
              0 <= i < |Statuses(infos, k, pinPad, context)| ==> Statuses(infos, k, pinPad, context)[i].out.Status?
    decreases |infos| - k
  {
    if k < |infos| {
      StatusesAnswerNothing(infos, k + 1, pinPad, context);
    }
  }

  lemma {:induction false} NoAnswers(sent: seq<Sent>, k: nat, kind: Kind)
    requires k <= |sent| && forall i :: 0 <= i < |sent| ==> sent[i].out.Status?
    ensures CountAnswers(sent, k, kind) == 0
    decreases |sent| - k
  {
    if k < |sent| {
      NoAnswers(sent, k + 1, kind);
    }
  }

  lemma OneAnswer(sent: Sent, kind: Kind)
    ensures CountAnswers([], 0, kind) == 0
    ensures CountAnswers([sent], 0, kind) == Bit(Answers(sent.out, kind))
  {
    assert CountAnswers([sent], 1, kind) == 0;
  }

  predicate Balanced(s: State, asked: bool, r: Effect, kind: Kind) {
    InFlight(s, kind) + Bit(asked) == InFlight(r.state, kind) + CountAnswers(r.sent, 0, kind)
  }

  /** Nothing enters or leaves, beside what is answered at once. */
  lemma AnsweredAtOnce(s: State, t: State, asked: bool, out: Out, kind: Kind)
    requires InFlight(s, kind) + Bit(asked) == InFlight(t, kind) + Bit(Answers(out, kind))
    ensures Balanced(s, asked, Answer(t, out), kind)
  {
    OneAnswer(Sent(out, t.context), kind);
  }

  lemma Silent(s: State, t: State, asked: bool, kind: Kind)
    requires InFlight(s, kind) + Bit(asked) == InFlight(t, kind)
    ensures Balanced(s, asked, Effect(t, []), kind)
  {
    assert CountAnswers([], 0, kind) == 0;
  }

  lemma Added<T>(m: multiset<T>, x: T)
    ensures |m + multiset{x}| == |m| + 1
    ensures x in m ==> |m - multiset{x}| == |m| - 1
  {}

  lemma ConnectBalance(s: State, slot: string, info: ReaderInfo, kind: Kind)
    ensures Balanced(s, kind == Connecting, HandleConnect(s, slot, info), kind)
  {
    var r := HandleConnect(s, slot, info);
    if r.sent == [] {
      Added(s.connecting, slot);
      Silent(s, r.state, kind == Connecting, kind);
    } else {
      AnsweredAtOnce(s, s, kind == Connecting, r.sent[0].out, kind);
    }
  }

  lemma DisconnectBalance(s: State, slot: string, kind: Kind)
    ensures Balanced(s, kind == Disconnecting, HandleDisconnect(s, slot), kind)
  {
    var r := HandleDisconnect(s, slot);
    AnsweredAtOnce(s, r.state, kind == Disconnecting, r.sent[0].out, kind);
  }

  lemma TransmitBalance(s: State, slot: string, apdu: seq<Byte>, kind: Kind)
    ensures Balanced(s, kind == Transmitting, HandleTransmit(s, slot, apdu), kind)
  {
    var r := HandleTransmit(s, slot, apdu);
    if r.sent == [] {
      Added(s.transmitting, Command(Resolve(s.table, slot), apdu));
      Silent(s, r.state, kind == Transmitting, kind);
    } else {
      AnsweredAtOnce(s, s, kind == Transmitting, r.sent[0].out, kind);
    }
  }

  lemma DialogBalance(s: State, slot: string, env: Env, kind: Kind)
    ensures Balanced(s, kind == Pacing, HandlePace(s, slot, env), kind)
    ensures Balanced(s, kind == Pinning, HandleModifyPin(s, slot, env), kind)
  {
    var p, m := HandlePace(s, slot, env), HandleModifyPin(s, slot, env);
    if p.sent == [] {
      Added(s.pacing, slot);
      Silent(s, p.state, kind == Pacing, kind);
    } else {
      AnsweredAtOnce(s, s, kind == Pacing, p.sent[0].out, kind);
    }
    if m.sent == [] {
      Added(s.pinning, slot);
      Silent(s, m.state, kind == Pinning, kind);
    } else {
      AnsweredAtOnce(s, s, kind == Pinning, m.sent[0].out, kind);
    }
  }

  lemma QuietBalance(s: State, msg: Msg, env: Env, kind: Kind)
    requires msg.Undefined? || msg.Establish? || msg.Ignored? || msg.Response?
    ensures Balanced(s, false, Handle(s, msg, env), kind)
  {
    Silent(s, Handle(s, msg, env).state, false, kind);
  }

  lemma CardBalance(s: State, msg: Msg, env: Env, kind: Kind)
    requires msg.Connect? || msg.Disconnect? || msg.Transmit?
    ensures Balanced(s, Asks(msg, kind), Handle(s, msg, env), kind)
  {
    if msg.Connect? {
      ConnectBalance(s, msg.slot, env.info, kind);
    } else if msg.Disconnect? {
      DisconnectBalance(s, msg.slot, kind);
    } else {
      TransmitBalance(s, msg.slot, msg.apdu, kind);
    }
  }

  lemma HandleBalance(s: State, msg: Msg, env: Env, kind: Kind)
    ensures Balanced(s, Asks(msg, kind), Handle(s, msg, env), kind)
  {
    if msg.Connect? || msg.Disconnect? || msg.Transmit? {
      CardBalance(s, msg, env, kind);
    } else if msg.Pace? || msg.ModifyPin? {
      DialogBalance(s, msg.slot, env, kind);
    } else if msg.GetStatus? {
      StatusBalance(s, msg.slot, env, kind);
    } else {
      QuietBalance(s, msg, env, kind);
    }
  }

  lemma StatusBalance(s: State, slot: string, env: Env, kind: Kind)
    ensures Balanced(s, false, Handle(s, GetStatus(slot), env), kind)
  {
    if slot == "" {
      StatusesAnswerNothing(env.infos, 0, env.pinPad, s.context);
      NoAnswers(Statuses(env.infos, 0, env.pinPad, s.context), 0, kind);
    } else {
      AnsweredAtOnce(s, s, false, Status(StatusOf(env.info, env.pinPad)), kind);
    }
  }

  lemma ReceiveBalance(s: State, msg: Msg, context: string, env: Env, kind: Kind)
    ensures Balanced(s, Admitted(s, msg, context) && Asks(msg, kind), Receive(s, msg, context, env), kind)
  {
    var r := Receive(s, msg, context, env);
    if Admitted(s, msg, context) {
      HandleBalance(s, msg, env, kind);
    } else if r.sent == [] {
      Silent(s, s, false, kind);
    } else {
      AnsweredAtOnce(s, r.state, false, r.sent[0].out, kind);
    }
  }

  lemma ConnectDoneBalance(s: State, e: Event, kind: Kind)
    requires e.ConnectDone? && Enabled(s, e)
    ensures Balanced(s, false, Step(s, e), kind)
  {
    Added(s.connecting, e.reader);
    var r := Step(s, e);
    AnsweredAtOnce(s, r.state, false, r.sent[0].out, kind);
  }

  lemma TransmitDoneBalance(s: State, e: Event, kind: Kind)
    requires e.TransmitDone? && Enabled(s, e)
    ensures Balanced(s, false, Step(s, e), kind)
  {
    Added(s.transmitting, e.command);
    var r := Step(s, e);
    AnsweredAtOnce(s, r.state, false, r.sent[0].out, kind);
  }

  lemma PaceDoneBalance(s: State, e: Event, kind: Kind)
    requires e.PaceDone? && Enabled(s, e)
    ensures Balanced(s, false, Step(s, e), kind)
  {
    Added(s.pacing, e.slot);
    var r := Step(s, e);
    AnsweredAtOnce(s, r.state, false, r.sent[0].out, kind);
  }

  lemma PinDoneBalance(s: State, e: Event, kind: Kind)
    requires e.PinDone? && Enabled(s, e)
    ensures Balanced(s, false, Step(s, e), kind)
  {
    Added(s.pinning, e.slot);
    var r := Step(s, e);
    AnsweredAtOnce(s, r.state, false, r.sent[0].out, kind);
  }

  lemma ReaderBalance(s: State, e: Event, kind: Kind)
    requires e.ReaderChanged? || e.ReaderRemoved? || e.ErrorDue? || e.Closed?
    ensures Balanced(s, false, Step(s, e), kind)
  {
    var r := Step(s, e);
    if r.sent == [] {
      Silent(s, r.state, false, kind);
    } else {
      AnsweredAtOnce(s, r.state, false, r.sent[0].out, kind);
    }
  }

  lemma StepBalance(s: State, e: Event, kind: Kind)
    requires Enabled(s, e)
    ensures Balanced(s, e.Received? && Admitted(s, e.msg, e.context) && Asks(e.msg, kind), Step(s, e), kind)
  {
    match e
    case Received(msg, context, env) => ReceiveBalance(s, msg, context, env, kind);
    case ConnectDone(_, _, _, _) => ConnectDoneBalance(s, e, kind);
    case TransmitDone(_, _, _) => TransmitDoneBalance(s, e, kind);
    case PaceDone(_, _, _) => PaceDoneBalance(s, e, kind);
    case PinDone(_, _, _) => PinDoneBalance(s, e, kind);
    case _ => ReaderBalance(s, e, kind);
  }

  predicate AnsweredAt(events: seq<Event>, n: nat, kind: Kind)
    requires n <= |events|
  {
    Asked(events, n, kind) == Answered(events, n, kind) + InFlight(At(events, n), kind)
  }

  lemma AnsweredInit(events: seq<Event>, kind: Kind)
    ensures AnsweredAt(events, 0, kind)
  {}

  lemma AnsweredNext(events: seq<Event>, n: nat, kind: Kind)
    requires IsRun(events) && n < |events| && AnsweredAt(events, n, kind)
    ensures AnsweredAt(events, n + 1, kind)
  {
    assert EnabledAt(events, n);
    StepBalance(At(events, n), events[n], kind);
  }

  /** In every run and for every kind: requests admitted are requests answered plus requests in flight. */
  lemma EveryRequestAnswered(events: seq<Event>, n: nat, kind: Kind)
    requires IsRun(events) && n <= |events|
    ensures AnsweredAt(events, n, kind)
  {
    AnsweredInit(events, kind);
    for i := 0 to n
      invariant AnsweredAt(events, i, kind)
    {
      AnsweredNext(events, i, kind);
    }
  }
}
