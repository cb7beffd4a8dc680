/**
 Accounting between the two threads: every request is answered exactly once, by its own
 outcome, as long as no device is asked for twice at a time.
 */
module ClientProofs {
  import opened Descriptors
  import opened Client

  // ----- lists as multisets

  lemma WithoutBag<T>(s: seq<T>, i: nat)
    requires i < |s|
    ensures multiset(Without(s, i)) == multiset(s) - multiset{s[i]}
  {
    assert s == s[..i] + [s[i]] + s[i + 1..];
  }

  lemma HeadBag<T>(s: seq<T>)
    requires s != []
    ensures multiset(s) == multiset{s[0]} + multiset(s[1..])
  {
    assert s == [s[0]] + s[1..];
  }

  lemma TwiceInBag<T>(s: seq<T>, i: nat, j: nat)
    requires i < j < |s| && s[i] == s[j]
    ensures multiset(s)[s[i]] >= 2
  {
    assert s == s[..i] + [s[i]] + s[i + 1..];
    assert s[i + 1..] == s[i + 1..j] + [s[j]] + s[j + 1..];
  }

  // ----- accounting

  function Carried(transit: seq<Outcome>): (tickets: seq<Ticket>)
    ensures |tickets| == |transit|
  {
    seq(|transit|, i requires 0 <= i < |transit| => transit[i].ticket)
  }

  function Served(answers: seq<Answer>): (tickets: seq<Ticket>)
    ensures |tickets| == |answers|
  {
    seq(|answers|, i requires 0 <= i < |answers| => answers[i].to)
  }

  function OnTheWay(s: State): multiset<Ticket> {
    multiset(s.queued) + multiset(s.requests) + multiset(Carried(s.transit))
  }

  /** The client waits for exactly the requests that are queued, being built, or coming back. */
  predicate Accounted(s: State) {
    multiset(s.pending) == OnTheWay(s)
  }

  /** No two requests for one device are waiting. */
  predicate Distinct(tickets: seq<Ticket>) {
    forall i, j :: 0 <= i < j < |tickets| ==> !Equivalent(tickets[i].d, tickets[j].d)
  }

  /** Every answer is the outcome of the very request it answers. */
  predicate AllOwn(answers: seq<Answer>) {
    forall i {:trigger answers[i]} :: 0 <= i < |answers| ==> answers[i].to == answers[i].outcome.ticket
  }

  predicate Inv(s: State) {
    Accounted(s) && Distinct(s.pending) && AllOwn(s.answers)
  }

  lemma CarriedAppend(transit: seq<Outcome>, o: Outcome)
    ensures Carried(transit + [o]) == Carried(transit) + [o.ticket]
  {}

  lemma CarriedHead(transit: seq<Outcome>)
    requires transit != []
    ensures multiset(Carried(transit)) == multiset{transit[0].ticket} + multiset(Carried(transit[1..]))
  {
    HeadBag(Carried(transit));
    assert Carried(transit)[1..] == Carried(transit[1..]);
  }

  /** Waiting requests for the same device are one and the same. */
  lemma SameTicket(pending: seq<Ticket>, t: Ticket, u: Ticket)
    requires Distinct(pending) && t in pending && u in pending && Equivalent(t.d, u.d)
    ensures t == u
  {
    var i :| 0 <= i < |pending| && pending[i] == t;
    var j :| 0 <= j < |pending| && pending[j] == u;
    assert !(i < j) && !(j < i);
  }

  lemma DistinctOnce(pending: seq<Ticket>, t: Ticket)
    requires Distinct(pending)
    ensures multiset(pending)[t] <= 1
    decreases |pending|
  {
    if pending != [] {
      HeadBag(pending);
      DistinctOnce(pending[1..], t);
      forall j | 0 <= j < |pending| - 1 ensures pending[1..][j] != pending[0] {
        assert !Equivalent(pending[0].d, pending[j + 1].d);
      }
    }
  }

  lemma {:induction false} DroppedOther(requests: seq<Ticket>, k: nat, d: Descriptor)
    requires k <= |requests| && forall j :: k <= j < |requests| ==> requests[j].d != d
    ensures Dropped(requests, k, d) == requests[k..]
    decreases |requests| - k
  {
    if k < |requests| {
      DroppedOther(requests, k + 1, d);
    }
  }

  lemma {:induction false} DroppedLength(requests: seq<Ticket>, k: nat, d: Descriptor)
    requires k <= |requests|
    ensures |Dropped(requests, k, d)| <= |requests| - k
    ensures (exists j :: k <= j < |requests| && requests[j].d == d) ==> |Dropped(requests, k, d)| < |requests| - k
    ensures (exists i, j :: k <= i < j < |requests| && requests[i].d == d && requests[j].d == d)
            ==> |Dropped(requests, k, d)| < |requests| - k - 1
    decreases |requests| - k
  {
    if k < |requests| {
      DroppedLength(requests, k + 1, d);
    }
  }

  predicate OnlyOne(requests: seq<Ticket>, i: nat)
    requires i < |requests|
  {
    forall j :: 0 <= j < |requests| && j != i ==> requests[j].d != requests[i].d
  }

  /** With one request of the descriptor, dropping is removing that one. */
  lemma {:induction false} DroppedOne(requests: seq<Ticket>, k: nat, i: nat)
    requires k <= i < |requests| && OnlyOne(requests, i)
    ensures Dropped(requests, k, requests[i].d) == requests[k..i] + requests[i + 1..]
    decreases |requests| - k
  {
    if k < i {
      DroppedOne(requests, k + 1, i);
      assert requests[k].d != requests[i].d;
      assert requests[k..i] == [requests[k]] + requests[k + 1..i];
    } else {
      DroppedOther(requests, i + 1, requests[i].d);
      assert Dropped(requests, i, requests[i].d) == Dropped(requests, i + 1, requests[i].d);
    }
  }

  lemma SumKept(q: multiset<Ticket>, a: multiset<Ticket>, c: multiset<Ticket>, t: Ticket)
    requires t in a
    ensures q + (a - multiset{t}) + c + multiset{t} == q + a + c
  {}

  lemma SumShrinks(q: multiset<Ticket>, kept: multiset<Ticket>, a: multiset<Ticket>, c: multiset<Ticket>, t: Ticket)
    requires |kept| < |a| - 1
    ensures q + kept + c + multiset{t} != q + a + c
  {
    assert |q + kept + c + multiset{t}| < |q + a + c|;
  }

  lemma FinishBag(s: State, i: nat, r: Result)
    requires i < |s.requests|
    ensures var f := FinishStep(s, i, r);
            OnTheWay(f) == multiset(s.queued) + multiset(Dropped(s.requests, 0, s.requests[i].d))
                           + multiset(Carried(s.transit)) + multiset{s.requests[i]}
  {
    CarriedAppend(s.transit, Outcome(s.requests[i], r));
  }

  /**
   The step that finishes a connection keeps the accounts exactly when no other
   connection is being built for the same descriptor: removal by equality takes them all.
   */
  lemma FinishExact(s: State, i: nat, r: Result)
    requires Accounted(s) && i < |s.requests|
    ensures Accounted(FinishStep(s, i, r)) <==> OnlyOne(s.requests, i)
  {
    var t := s.requests[i];
    var kept := Dropped(s.requests, 0, t.d);
    FinishBag(s, i, r);
    if OnlyOne(s.requests, i) {
      DroppedOne(s.requests, 0, i);
      assert kept == Without(s.requests, i);
      WithoutBag(s.requests, i);
      SumKept(multiset(s.queued), multiset(s.requests), multiset(Carried(s.transit)), t);
    } else {
      var j :| 0 <= j < |s.requests| && j != i && s.requests[j].d == t.d;
      DroppedLength(s.requests, 0, t.d);
      SumShrinks(multiset(s.queued), multiset(kept), multiset(s.requests), multiset(Carried(s.transit)), t);
    }
  }

  // ----- the steps

  lemma EstablishKeeps(s: State, d: Descriptor)
    requires Inv(s) && FirstEquivalent(s.pending, 0, d) == |s.pending|
    ensures Inv(EstablishStep(s, d))
  {}

  lemma TakeKeeps(s: State)
    requires Inv(s) && s.queued != []
    ensures Inv(TakeStep(s))
  {
    HeadBag(s.queued);
    CarriedAppend(s.transit, Outcome(s.queued[0], Refusal(s.queued[0].d)));
  }

  /**
   What the connector makes of a request it takes: an error at once for an invalid descriptor,
   or for one without the API level the client speaks; otherwise a connection to build.
   */
  lemma TakeExact(s: State)
    requires s.queued != []
    ensures var t, u := s.queued[0], TakeStep(s);
            && u.queued == s.queued[1..]
            && if t.d.NoDescriptor? || t.d.name == "" then
                 u.requests == s.requests && u.transit == s.transit + [Outcome(t, Failed(InvalidRequest))]
               else if V0 !in t.d.versions then
                 u.requests == s.requests && u.transit == s.transit + [Outcome(t, Failed(NoSupportedApiLevel))]
               else u.requests == s.requests + [t] && u.transit == s.transit
  {}

  lemma FinishKeeps(s: State, i: nat, r: Result)
    requires Inv(s) && i < |s.requests|
    ensures Inv(FinishStep(s, i, r))
  {
    forall j | 0 <= j < |s.requests| && j != i ensures s.requests[j].d != s.requests[i].d {
      var t, u := s.requests[i], s.requests[j];
      if u.d == t.d {
        assert t in multiset(s.requests) && u in multiset(s.requests);
        assert t in multiset(s.pending) && u in multiset(s.pending);
        SameTicket(s.pending, t, u);
        TwiceInBag(s.requests, if i < j then i else j, if i < j then j else i);
        DistinctOnce(s.pending, t);
        assert false;
      }
    }
    FinishExact(s, i, r);
  }

  /** Every outcome finds an entry, and it is the entry of its own request. */
  lemma DeliverFinds(s: State)
    requires Inv(s) && s.transit != []
    ensures var i := FirstEquivalent(s.pending, 0, s.transit[0].ticket.d);
            i < |s.pending| && s.pending[i] == s.transit[0].ticket
  {
    var t := s.transit[0].ticket;
    CarriedHead(s.transit);
    assert t in multiset(s.pending);
    var i := FirstEquivalent(s.pending, 0, t.d);
    SameTicket(s.pending, s.pending[i], t);
  }

  lemma WithoutDistinct(pending: seq<Ticket>, i: nat)
    requires Distinct(pending) && i < |pending|
    ensures Distinct(Without(pending, i))
  {
    var rest := Without(pending, i);
    forall j, k | 0 <= j < k < |rest| ensures !Equivalent(rest[j].d, rest[k].d) {
      assert rest[j] == pending[if j < i then j else j + 1] && rest[k] == pending[if k < i then k else k + 1];
    }
  }

  /** What a delivery does when it finds its entry, and when it does not. */
  lemma Delivered(s: State)
    requires s.transit != []
    ensures var o := s.transit[0];
            var i := FirstEquivalent(s.pending, 0, o.ticket.d);
            var t := DeliverStep(s);
            && t.asked == s.asked && t.queued == s.queued && t.requests == s.requests && t.transit == s.transit[1..]
            && t.pending == Without(s.pending, i)
            && t.answers == if i < |s.pending| then s.answers + [Answer(s.pending[i], o)] else s.answers
  {}

  lemma DeliverKeeps(s: State)
    requires Inv(s) && s.transit != []
    ensures Inv(DeliverStep(s))
  {
    DeliverFinds(s);
    Delivered(s);
    var i := FirstEquivalent(s.pending, 0, s.transit[0].ticket.d);
    WithoutBag(s.pending, i);
    WithoutDistinct(s.pending, i);
    CarriedHead(s.transit);
  }

  lemma StepKeeps(s: State, e: Event)
    requires Inv(s) && (e.Establish? ==> FirstEquivalent(s.pending, 0, e.d) == |s.pending|)
    ensures Inv(Step(s, e))
  {
    match e
    case Establish(d) => EstablishKeeps(s, d);
    case Take => if s.queued != [] { TakeKeeps(s); }
    case Finish(i, r) => if i < |s.requests| { FinishKeeps(s, i, r); }
    case Deliver => if s.transit != [] { DeliverKeeps(s); }
  }

  // ----- runs

  predicate InvAt(events: seq<Event>, n: nat)
    requires n <= |events|
  {
    Inv(At(events, n))
  }

  lemma InitInv(events: seq<Event>)
    ensures InvAt(events, 0)
  {}

  lemma StepAt(events: seq<Event>, n: nat)
    requires Alone(events) && n < |events| && InvAt(events, n)
    ensures InvAt(events, n + 1)
  {
    assert AloneAt(events, n);
    StepKeeps(At(events, n), events[n]);
  }

  /** In every interleaving without overlapping requests, the accounts balance before every step. */
  lemma RunAccounts(events: seq<Event>, n: nat)
    requires Alone(events) && n <= |events|
    ensures InvAt(events, n)
  {
    InitInv(events);
    for i := 0 to n
      invariant InvAt(events, i)
    {
      StepAt(events, i);
    }
  }

  lemma ServedAppend(answers: seq<Answer>, a: Answer)
    ensures Served(answers + [a]) == Served(answers) + [a.to]
  {}

  lemma DeliverConserves(s: State)
    requires s.transit != []
    ensures var t := DeliverStep(s);
            multiset(t.pending) + multiset(Served(t.answers)) == multiset(s.pending) + multiset(Served(s.answers))
  {
    Delivered(s);
    var i := FirstEquivalent(s.pending, 0, s.transit[0].ticket.d);
    if i < |s.pending| {
      WithoutBag(s.pending, i);
      ServedAppend(s.answers, Answer(s.pending[i], s.transit[0]));
    }
  }

  predicate Conserved(s: State) {
    multiset(s.asked) == multiset(s.pending) + multiset(Served(s.answers))
  }

  lemma StepConserves(s: State, e: Event)
    requires Conserved(s)
    ensures Conserved(Step(s, e))
  {
    if e.Deliver? {
      if s.transit != [] {
        Delivered(s);
        DeliverConserves(s);
      }
    } else {
      assert Step(s, e).answers == s.answers;
    }
  }

  lemma ConservesAt(events: seq<Event>, n: nat)
    requires n < |events| && Conserved(At(events, n))
    ensures Conserved(At(events, n + 1))
  {
    StepConserves(At(events, n), events[n]);
  }

  /** On every run at all, a request is either waiting or has been answered once. */
  lemma AnsweredOrWaiting(events: seq<Event>, n: nat)
    requires n <= |events|
    ensures Conserved(At(events, n))
  {
    for i := 0 to n
      invariant Conserved(At(events, i))
    {
      ConservesAt(events, i);
    }
  }

  /**
   When both threads have nothing left to do, every request has been answered exactly
   once, and by its own outcome.
   */
  lemma EveryRequestAnswered(events: seq<Event>, n: nat)
    requires Alone(events) && n <= |events|
    requires var s := At(events, n); s.queued == [] && s.requests == [] && s.transit == []
    ensures var s := At(events, n);
            s.pending == [] && multiset(s.asked) == multiset(Served(s.answers)) && AllOwn(s.answers)
  {
    var s := At(events, n);
    RunAccounts(events, n);
    AnsweredOrWaiting(events, n);
    assert Carried(s.transit) == [];
    assert |multiset(s.pending)| == 0;
  }

  // ----- two requests for one device

  /** The two requests are queued, started, and the first one finishes. */
  function TwoRequests(d: Descriptor, r: Result): seq<Event> {
    [Establish(d), Establish(d), Take, Take, Finish(0, r), Deliver]
  }

  lemma Next(events: seq<Event>, n: nat, e: Event, s: State)
    requires n < |events| && events[n] == e && At(events, n) == s
    ensures At(events, n + 1) == Step(s, e)
  {}

  lemma TwoAsked(d: Descriptor)
    ensures var a, b := Ticket(0, d), Ticket(1, d);
            EstablishStep(EstablishStep(INIT, d), d) == INIT.(asked := [a, b], pending := [a, b], queued := [a, b])
  {
    assert EstablishStep(INIT, d) ==
        INIT.(asked := [Ticket(0, d)], pending := [Ticket(0, d)], queued := [Ticket(0, d)]);
  }

  lemma TwoTaken(d: Descriptor)
    requires Refusal(d) == Created
    ensures var a, b := Ticket(0, d), Ticket(1, d);
            var s := INIT.(asked := [a, b], pending := [a, b], queued := [a, b]);
            TakeStep(s) == s.(queued := [b], requests := [a])
            && TakeStep(TakeStep(s)) == s.(queued := [], requests := [a, b])
  {
    var a, b := Ticket(0, d), Ticket(1, d);
    assert [a, b][1..] == [b] && [b][1..] == [] && [] + [a] == [a] && [a] + [b] == [a, b];
  }

  lemma TwoFinished(d: Descriptor, r: Result)
    requires Refusal(d) == Created
    ensures var a, b := Ticket(0, d), Ticket(1, d);
            var s := INIT.(asked := [a, b], pending := [a, b], requests := [a, b]);
            var t := s.(requests := [], transit := [Outcome(a, r)]);
            && FinishStep(s, 0, r) == t
            && DeliverStep(t).transit == [] && DeliverStep(t).pending == [b] && Served(DeliverStep(t).answers) == [a]
            && DeliverStep(t).queued == [] && DeliverStep(t).requests == []
  {
    var a, b := Ticket(0, d), Ticket(1, d);
    var s := INIT.(asked := [a, b], pending := [a, b], requests := [a, b]);
    assert Dropped([a, b], 2, d) == [] && Dropped([a, b], 1, d) == [] && Dropped([a, b], 0, d) == [];
    var t := s.(requests := [], transit := [Outcome(a, r)]);
    assert FirstEquivalent([a, b], 0, d) == 0;
    Delivered(t);
    assert Without([a, b], 0) == [b] && [Outcome(a, r)][1..] == [];
    assert DeliverStep(t).answers == [] + [Answer(a, Outcome(a, r))];
  }

  lemma TwoStarted(d: Descriptor, r: Result)
    requires Refusal(d) == Created
    ensures var a, b := Ticket(0, d), Ticket(1, d);
            At(TwoRequests(d, r), 4) == INIT.(asked := [a, b], pending := [a, b], requests := [a, b])
  {
    var events := TwoRequests(d, r);
    var s1 := EstablishStep(INIT, d);
    var s2 := EstablishStep(s1, d);
    Next(events, 0, Establish(d), INIT);
    Next(events, 1, Establish(d), s1);
    TwoAsked(d);
    TwoTaken(d);
    Next(events, 2, Take, s2);
    Next(events, 3, Take, TakeStep(s2));
  }

  lemma TwoOverlap(d: Descriptor, r: Result)
    ensures !Alone(TwoRequests(d, r))
  {
    var events, a := TwoRequests(d, r), Ticket(0, d);
    Next(events, 0, Establish(d), INIT);
    assert At(events, 1).pending == [a] && FirstEquivalent([a], 0, d) == 0;
    assert !AloneAt(events, 1);
  }

  /**
   With two requests for one device under way it fails: the first outcome drops both
   connections, the threads come to rest, and one request is never answered.
   */
  lemma SecondRequestLost(d: Descriptor, r: Result)
    requires Refusal(d) == Created
    ensures var events := TwoRequests(d, r);
            var s := At(events, 6);
            && !Alone(events) && s.queued == [] && s.requests == [] && s.transit == []
            && s.pending == [Ticket(1, d)] && Served(s.answers) == [Ticket(0, d)]
  {
    var events := TwoRequests(d, r);
    TwoOverlap(d, r);
    TwoStarted(d, r);
    TwoFinished(d, r);
    var s := At(events, 4);
    Next(events, 4, Finish(0, r), s);
    Next(events, 5, Deliver, FinishStep(s, 0, r));
  }
}
