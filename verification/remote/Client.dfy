/**
 The client side of connection building: the client object with its list of requests not
 yet answered, the connector object on a thread of its own with the connections it is
 building, and the two queues of calls between the threads.
 */
module Client {
  import opened Options
  import opened Descriptors

  datatype Code = InvalidRequest | NoSupportedApiLevel | Timeout | ConnectionError | Refused
  datatype Result = Created | Failed(code: Code)

  /** A request. Its number tells requests apart; the program itself only sees descriptors. */
  datatype Ticket = Ticket(no: nat, d: Descriptor)
  datatype Outcome = Outcome(ticket: Ticket, result: Result)
  datatype Answer = Answer(to: Ticket, outcome: Outcome)

  datatype State = State(asked: seq<Ticket>, pending: seq<Ticket>, queued: seq<Ticket>, requests: seq<Ticket>,
                         transit: seq<Outcome>, answers: seq<Answer>,
                         counters: map<string, nat>, removals: seq<string>)

  const INIT := State([], [], [], [], [], [], map[], [])

  // ----- the client's list

  function FirstEquivalent(pending: seq<Ticket>, k: nat, d: Descriptor): (i: nat)
    requires k <= |pending|
    ensures k <= i <= |pending| && (i < |pending| ==> Equivalent(pending[i].d, d))
    ensures forall j :: k <= j < i ==> !Equivalent(pending[j].d, d)
    decreases |pending| - k
  {
    if k == |pending| || Equivalent(pending[k].d, d) then k else FirstEquivalent(pending, k + 1, d)
  }

  function Without<T>(s: seq<T>, i: nat): seq<T> {
    if i < |s| then s[..i] + s[i + 1..] else s
  }

  // ----- the strike counter

  const STRIKES := 7

  function StrikesOf(counters: map<string, nat>, id: string): nat {
    if id in counters then counters[id] else 0
  }

  predicate IsStrike(r: Result) {
    r == Failed(Refused) || r == Failed(NoSupportedApiLevel)
  }

  /** The counter of the device after an outcome; the certificate goes when it reaches seven. */
  function Counted(counters: map<string, nat>, id: string, r: Result): map<string, nat> {
    if IsStrike(r) && StrikesOf(counters, id) + 1 < STRIKES then counters[id := StrikesOf(counters, id) + 1]
    else counters[id := 0]
  }

  predicate RemovesCertificate(counters: map<string, nat>, id: string, r: Result) {
    IsStrike(r) && StrikesOf(counters, id) + 1 >= STRIKES
  }

  /** The client's part of a delivery: its list and counters, the entry taken, and whether a certificate goes. */
  datatype Reception = Reception(pending: seq<Ticket>, counters: map<string, nat>, entry: Option<Ticket>, removed: bool)

  /** An outcome that finds no entry trips an assertion of the program; a success has reset the counter by then. */
  function Receive(pending: seq<Ticket>, counters: map<string, nat>, d: Descriptor, r: Result): Reception {
    var i := FirstEquivalent(pending, 0, d);
    if i == |pending| then Reception(pending, if r == Created then counters[Id(d) := 0] else counters, None, false)
    else
      Reception(Without(pending, i), Counted(counters, Id(d), r), Some(pending[i]),
          RemovesCertificate(counters, Id(d), r))
  }

  // ----- the connector

  predicate Valid(d: Descriptor) {
    d.Descriptor? && d.name != ""
  }

  /** What the connector makes of a request: an error at once, or a connection to build. */
  function Refusal(d: Descriptor): (r: Result) {
    if !Valid(d) then Failed(InvalidRequest)
    else if V0 !in d.versions then Failed(NoSupportedApiLevel)
    else Created
  }

  /** Every request with this very descriptor is dropped. */
  function Dropped(requests: seq<Ticket>, k: nat, d: Descriptor): seq<Ticket>
    requires k <= |requests|
    decreases |requests| - k
  {
    if k == |requests| then []
    else (if requests[k].d == d then [] else [requests[k]]) + Dropped(requests, k + 1, d)
  }

  // ----- steps of the two threads

  datatype Event = Establish(d: Descriptor) | Take | Finish(i: nat, result: Result) | Deliver

  function EstablishStep(s: State, d: Descriptor): State {
    var t := Ticket(|s.asked|, d);
    s.(asked := s.asked + [t], pending := s.pending + [t], queued := s.queued + [t])
  }

  function TakeStep(s: State): State
    requires s.queued != []
  {
    var t := s.queued[0];
    var rest := s.(queued := s.queued[1..]);
    if Refusal(t.d) == Created then rest.(requests := s.requests + [t])
    else rest.(transit := s.transit + [Outcome(t, Refusal(t.d))])
  }

  /** A connection is built, refused, broken or timed out. */
  function FinishStep(s: State, i: nat, r: Result): State
    requires i < |s.requests|
  {
    var t := s.requests[i];
    s.(requests := Dropped(s.requests, 0, t.d), transit := s.transit + [Outcome(t, r)])
  }

  function DeliverStep(s: State): State
    requires s.transit != []
  {
    var o := s.transit[0];
    var r := Receive(s.pending, s.counters, o.ticket.d, o.result);
    s.(transit := s.transit[1..], pending := r.pending, counters := r.counters,
       answers := s.answers + (if r.entry.Some? then [Answer(r.entry.value, o)] else []),
       removals := s.removals + (if r.removed then [Id(o.ticket.d)] else []))
  }

  /** A step that has nothing to work on leaves the state alone. */
  function Step(s: State, e: Event): State {
    match e
    case Establish(d) => EstablishStep(s, d)
    case Take => if s.queued != [] then TakeStep(s) else s
    case Finish(i, r) => if i < |s.requests| then FinishStep(s, i, r) else s
    case Deliver => if s.transit != [] then DeliverStep(s) else s
  }

  // ----- runs

  /** The state before event `n`. */
  function At(events: seq<Event>, n: nat): State
    requires n <= |events|
  {
    if n == 0 then INIT else Step(At(events, n - 1), events[n - 1])
  }

  /** A device is asked for only while no request for it is unanswered. */
  predicate AloneAt(events: seq<Event>, n: nat)
    requires n < |events|
  {
    events[n].Establish? ==>
      FirstEquivalent(At(events, n).pending, 0, events[n].d) == |At(events, n).pending|
  }

  predicate Alone(events: seq<Event>) {
    forall n {:trigger AloneAt(events, n)} :: 0 <= n < |events| ==> AloneAt(events, n)
  }
}
