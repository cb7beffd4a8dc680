/**
 Whose outcome a request gets. Outcomes find their entry by device, not by request: for
 every device answers are given in the order of asking, whatever order the outcomes come in.
 */
module ClientOrder {
  import opened Descriptors
  import opened Client
  import opened ClientProofs
  import opened ClientLosses

  /** The requests for one device, from index `k` on. */
  function Of(tickets: seq<Ticket>, k: nat, d: Descriptor): seq<Ticket>
    requires k <= |tickets|
    decreases |tickets| - k
  {
    if k == |tickets| then []
    else if Equivalent(tickets[k].d, d) then [tickets[k]] + Of(tickets, k + 1, d)
    else Of(tickets, k + 1, d)
  }

  lemma {:induction false} OfShift(a: seq<Ticket>, b: seq<Ticket>, j: nat, d: Descriptor)
    requires j <= |b|
    ensures Of(a + b, |a| + j, d) == Of(b, j, d)
    decreases |b| - j
  {
    if j < |b| {
      OfShift(a, b, j + 1, d);
    }
  }

  lemma {:induction false} OfConcat(a: seq<Ticket>, b: seq<Ticket>, k: nat, d: Descriptor)
    requires k <= |a|
    ensures Of(a + b, k, d) == Of(a, k, d) + Of(b, 0, d)
    decreases |a| - k
  {
    if k == |a| {
      OfShift(a, b, 0, d);
    } else {
      OfConcat(a, b, k + 1, d);
      assert [a[k]] + (Of(a, k + 1, d) + Of(b, 0, d)) == ([a[k]] + Of(a, k + 1, d)) + Of(b, 0, d);
    }
  }

  lemma OfAppend(tickets: seq<Ticket>, t: Ticket, d: Descriptor)
    ensures Of(tickets + [t], 0, d) == Of(tickets, 0, d) + if Equivalent(t.d, d) then [t] else []
  {
    OfConcat(tickets, [t], 0, d);
    assert Of([t], 1, d) == [];
  }

  lemma {:induction false} OfNone(tickets: seq<Ticket>, k: nat, d: Descriptor)
    requires k <= |tickets| && forall i :: k <= i < |tickets| ==> !Equivalent(tickets[i].d, d)
    ensures Of(tickets, k, d) == []
    decreases |tickets| - k
  {
    if k < |tickets| {
      OfNone(tickets, k + 1, d);
    }
  }

  lemma OfSplit(tickets: seq<Ticket>, i: nat, d: Descriptor)
    requires i < |tickets|
    ensures Of(tickets, 0, d) == Of(tickets[..i], 0, d)
              + (if Equivalent(tickets[i].d, d) then [tickets[i]] else []) + Of(tickets[i + 1..], 0, d)
    ensures Of(Without(tickets, i), 0, d) == Of(tickets[..i], 0, d) + Of(tickets[i + 1..], 0, d)
  {
    var a, b := tickets[..i], tickets[i + 1..];
    assert tickets == (a + [tickets[i]]) + b;
    OfConcat(a + [tickets[i]], b, 0, d);
    OfAppend(a, tickets[i], d);
    OfConcat(a, b, 0, d);
  }

  /** Taking out the first entry of a device takes the first of its requests, and none of another device. */
  lemma OfTaken(pending: seq<Ticket>, i: nat, d: Descriptor)
    requires i < |pending| && forall j :: 0 <= j < i ==> !Equivalent(pending[j].d, pending[i].d)
    ensures Of(pending, 0, d) ==
            if Equivalent(pending[i].d, d) then [pending[i]] + Of(Without(pending, i), 0, d)
            else Of(Without(pending, i), 0, d)
  {
    OfSplit(pending, i, d);
    var a, b := Of(pending[..i], 0, d), Of(pending[i + 1..], 0, d);
    if Equivalent(pending[i].d, d) {
      assert a == [] by {
        OfNone(pending[..i], 0, d);
      }
      assert a + [pending[i]] + b == [pending[i]] + (a + b);
    } else {
      assert a + [] + b == a + b;
    }
  }

  // ----- answers in the order of asking

  /** The requests for a device, in the order of asking, are those answered and then those waiting. */
  predicate FirstCome(s: State, d: Descriptor) {
    Of(s.asked, 0, d) == Of(Served(s.answers), 0, d) + Of(s.pending, 0, d)
  }

  lemma EstablishFirstCome(s: State, asked: Descriptor, d: Descriptor)
    requires FirstCome(s, d)
    ensures FirstCome(EstablishStep(s, asked), d)
  {
    var t := Ticket(|s.asked|, asked);
    OfAppend(s.asked, t, d);
    OfAppend(s.pending, t, d);
  }

  /** A request that moves from the waiting to the answered ones keeps its place among those of its device. */
  lemma MovesOver(served: seq<Ticket>, pending: seq<Ticket>, i: nat, d: Descriptor)
    requires i < |pending| && forall j :: 0 <= j < i ==> !Equivalent(pending[j].d, pending[i].d)
    ensures Of(served + [pending[i]], 0, d) + Of(Without(pending, i), 0, d) == Of(served, 0, d) + Of(pending, 0, d)
  {
    OfTaken(pending, i, d);
    OfAppend(served, pending[i], d);
  }

  lemma DeliverFirstCome(s: State, d: Descriptor)
    requires FirstCome(s, d) && s.transit != []
    ensures FirstCome(DeliverStep(s), d)
  {
    Delivered(s);
    var o, t := s.transit[0], DeliverStep(s);
    var i := FirstEquivalent(s.pending, 0, o.ticket.d);
    if i < |s.pending| {
      ServedAppend(s.answers, Answer(s.pending[i], o));
      MovesOver(Served(s.answers), s.pending, i, d);
    }
  }

  lemma StepFirstCome(s: State, e: Event, d: Descriptor)
    requires FirstCome(s, d)
    ensures FirstCome(Step(s, e), d)
  {
    match e
    case Establish(asked) => EstablishFirstCome(s, asked, d);
    case Take =>
    case Finish(_, _) =>
    case Deliver => if s.transit != [] { DeliverFirstCome(s, d); }
  }

  /** Every answer was given to a request for the device of its outcome. */
  predicate SameDevice(answers: seq<Answer>) {
    forall i {:trigger answers[i]} :: 0 <= i < |answers| ==>
      Equivalent(answers[i].to.d, answers[i].outcome.ticket.d)
  }

  lemma StepSameDevice(s: State, e: Event)
    requires SameDevice(s.answers)
    ensures SameDevice(Step(s, e).answers)
  {
    if e.Deliver? && s.transit != [] {
      Delivered(s);
    } else {
      assert Step(s, e).answers == s.answers;
    }
  }

  predicate OrderAt(events: seq<Event>, n: nat, d: Descriptor)
    requires n <= |events|
  {
    FirstCome(At(events, n), d) && SameDevice(At(events, n).answers)
  }

  lemma InitOrder(events: seq<Event>, d: Descriptor)
    ensures OrderAt(events, 0, d)
  {}

  lemma OrderNext(events: seq<Event>, n: nat, d: Descriptor)
    requires n < |events| && OrderAt(events, n, d)
    ensures OrderAt(events, n + 1, d)
  {
    StepFirstCome(At(events, n), events[n], d);
    StepSameDevice(At(events, n), events[n]);
  }

  /** On every run and for every device, answers are given in the order of asking, each to a request for its device. */
  lemma RunOrder(events: seq<Event>, n: nat, d: Descriptor)
    requires n <= |events|
    ensures OrderAt(events, n, d)
  {
    InitOrder(events, d);
    for i := 0 to n
      invariant OrderAt(events, i, d)
    {
      OrderNext(events, i, d);
    }
  }

  // ----- whose outcome

  /** The requests whose outcomes have come back, in that order. */
  function Returned(answers: seq<Answer>): (tickets: seq<Ticket>)
    ensures |tickets| == |answers|
  {
    seq(|answers|, i requires 0 <= i < |answers| => answers[i].outcome.ticket)
  }

  /** The outcomes for the device have come back in the order of asking, none passed over. */
  predicate BackInOrder(s: State, d: Descriptor) {
    Of(Returned(s.answers), 0, d) <= Of(s.asked, 0, d)
  }

  /** Two lists that agree on the device at every place. */
  predicate Paired(a: seq<Ticket>, b: seq<Ticket>) {
    |a| == |b| && forall i {:trigger a[i]} {:trigger b[i]} :: 0 <= i < |a| ==> Equivalent(a[i].d, b[i].d)
  }

  lemma {:induction false} PairedLength(a: seq<Ticket>, b: seq<Ticket>, k: nat, d: Descriptor)
    requires Paired(a, b) && k <= |a|
    ensures |Of(a, k, d)| == |Of(b, k, d)|
    decreases |a| - k
  {
    if k < |a| {
      assert Equivalent(a[k].d, b[k].d);
      PairedLength(a, b, k + 1, d);
    }
  }

  lemma {:induction false} PairedSame(a: seq<Ticket>, b: seq<Ticket>, k: nat, i: nat, d: Descriptor)
    requires Paired(a, b) && k <= i < |a| && Of(a, k, d) == Of(b, k, d) && Equivalent(a[i].d, d)
    ensures a[i] == b[i]
    decreases |a| - k
  {
    assert Equivalent(a[k].d, b[k].d);
    if Equivalent(a[k].d, d) {
      assert Of(a, k, d)[0] == a[k] && Of(b, k, d)[0] == b[k];
      assert Of(a, k, d)[1..] == Of(a, k + 1, d) && Of(b, k, d)[1..] == Of(b, k + 1, d);
    }
    if k < i {
      PairedSame(a, b, k + 1, i, d);
    }
  }

  lemma OwnAt(s: State, i: nat)
    requires SameDevice(s.answers) && i < |s.answers|
    requires var d := s.answers[i].to.d; FirstCome(s, d) && BackInOrder(s, d)
    ensures s.answers[i].to == s.answers[i].outcome.ticket
  {
    var served, returned, d := Served(s.answers), Returned(s.answers), s.answers[i].to.d;
    assert Paired(served, returned);
    PairedLength(served, returned, 0, d);
    var all := Of(s.asked, 0, d);
    assert Of(served, 0, d) == all[..|Of(served, 0, d)|] == Of(returned, 0, d);
    PairedSame(served, returned, 0, i, d);
  }

  /**
   On every run: each request answered so far got its own outcome if and only if, for every
   device, the outcomes have come back in the order of asking with none passed over.
   */
  lemma OwnExact(events: seq<Event>, n: nat)
    requires n <= |events|
    ensures AllOwn(At(events, n).answers) <==>
            forall d {:trigger BackInOrder(At(events, n), d)} :: BackInOrder(At(events, n), d)
  {
    var s := At(events, n);
    if AllOwn(s.answers) {
      assert Served(s.answers) == Returned(s.answers);
      forall d {:trigger BackInOrder(s, d)} ensures BackInOrder(s, d) {
        RunOrder(events, n, d);
      }
    } else if forall d {:trigger BackInOrder(s, d)} :: BackInOrder(s, d) {
      forall i | 0 <= i < |s.answers| ensures s.answers[i].to == s.answers[i].outcome.ticket {
        RunOrder(events, n, s.answers[i].to.d);
        assert BackInOrder(s, s.answers[i].to.d);
        OwnAt(s, i);
      }
      assert false;
    }
  }

  // ----- two addresses of one device

  /** Two requests for one device at two addresses, finished in the other order. */
  function Crossed(a: Descriptor, b: Descriptor, first: Result, second: Result): seq<Event> {
    [Establish(a), Establish(b), Take, Take, Finish(1, second), Finish(0, first), Deliver, Deliver]
  }

  lemma CrossedTaken(a: Descriptor, b: Descriptor, first: Result, second: Result)
    requires Refusal(a) == Refusal(b) == Created
    ensures var x, y := Ticket(0, a), Ticket(1, b);
            At(Crossed(a, b, first, second), 4) == INIT.(asked := [x, y], pending := [x, y], requests := [x, y])
  {
    var events, x, y := Crossed(a, b, first, second), Ticket(0, a), Ticket(1, b);
    var s1 := INIT.(asked := [x], pending := [x], queued := [x]);
    var s2 := INIT.(asked := [x, y], pending := [x, y], queued := [x, y]);
    Next(events, 0, Establish(a), INIT);
    Next(events, 1, Establish(b), s1);
    assert At(events, 2) == s2;
    assert [x, y][1..] == [y] && [y][1..] == [] && [x] + [y] == [x, y];
    Next(events, 2, Take, s2);
    Next(events, 3, Take, s2.(queued := [y], requests := [x]));
  }

  lemma CrossedFinished(a: Descriptor, b: Descriptor, first: Result, second: Result)
    requires a != b && Refusal(a) == Refusal(b) == Created
    ensures var x, y := Ticket(0, a), Ticket(1, b);
            var events := Crossed(a, b, first, second);
            && At(events, 6) ==
               INIT.(asked := [x, y], pending := [x, y], transit := [Outcome(y, second), Outcome(x, first)])
            && At(events, 5) ==
               INIT.(asked := [x, y], pending := [x, y], requests := [x], transit := [Outcome(y, second)])
  {
    var events, x, y := Crossed(a, b, first, second), Ticket(0, a), Ticket(1, b);
    CrossedTaken(a, b, first, second);
    var s4 := INIT.(asked := [x, y], pending := [x, y], requests := [x, y]);
    assert Dropped([x, y], 2, b) == [] && Dropped([x, y], 1, b) == [] && Dropped([x, y], 0, b) == [x];
    Next(events, 4, Finish(1, second), s4);
    var s5 := s4.(requests := [x], transit := [Outcome(y, second)]);
    assert Dropped([x], 1, a) == [] && Dropped([x], 0, a) == [];
    Next(events, 5, Finish(0, first), s5);
  }

  lemma CrossedDelivered(a: Descriptor, b: Descriptor, first: Result, second: Result)
    requires Equivalent(a, b) && a != b && Refusal(a) == Refusal(b) == Created
    ensures var x, y := Ticket(0, a), Ticket(1, b);
            var s := At(Crossed(a, b, first, second), 8);
            && s.pending == [] && s.queued == [] && s.requests == [] && s.transit == []
            && s.answers == [Answer(x, Outcome(y, second)), Answer(y, Outcome(x, first))]
  {
    var events, x, y := Crossed(a, b, first, second), Ticket(0, a), Ticket(1, b);
    CrossedFinished(a, b, first, second);
    var s6 := At(events, 6);
    FirstDelivered(s6, x, y, first, second);
    Next(events, 6, Deliver, s6);
    SecondDelivered(DeliverStep(s6), x, y, first);
    Next(events, 7, Deliver, DeliverStep(s6));
  }

  lemma FirstDelivered(s: State, x: Ticket, y: Ticket, first: Result, second: Result)
    requires Equivalent(x.d, y.d) && s.pending == [x, y] && s.transit == [Outcome(y, second), Outcome(x, first)]
    requires s.answers == []
    ensures var t := DeliverStep(s);
            && t.pending == [y] && t.transit == [Outcome(x, first)] && t.answers == [Answer(x, Outcome(y, second))]
            && t.queued == s.queued && t.requests == s.requests
  {
    assert FirstEquivalent([x, y], 0, y.d) == 0;
    Delivered(s);
    assert Without([x, y], 0) == [y] && s.transit[1..] == [Outcome(x, first)];
  }

  lemma SecondDelivered(s: State, x: Ticket, y: Ticket, first: Result)
    requires Equivalent(x.d, y.d) && s.pending == [y] && s.transit == [Outcome(x, first)]
    ensures var t := DeliverStep(s);
            && t.pending == [] && t.transit == [] && t.answers == s.answers + [Answer(y, Outcome(x, first))]
            && t.queued == s.queued && t.requests == s.requests
  {
    assert FirstEquivalent([y], 0, x.d) == 0;
    Delivered(s);
    assert Without([y], 0) == [];
  }

  /** Nothing is lost and all requests are answered, each with the outcome of the other. */
  lemma OutcomesSwapped(a: Descriptor, b: Descriptor, first: Result, second: Result)
    requires Equivalent(a, b) && a != b && Refusal(a) == Refusal(b) == Created
    ensures var events := Crossed(a, b, first, second);
            var s := At(events, 8);
            && AloneBefore(events, 8) && s.pending == [] && s.queued == [] && s.requests == [] && s.transit == []
            && s.answers == [Answer(Ticket(0, a), Outcome(Ticket(1, b), second)),
                             Answer(Ticket(1, b), Outcome(Ticket(0, a), first))]
  {
    CrossedDelivered(a, b, first, second);
    AllAnsweredExact(Crossed(a, b, first, second), 8);
  }
}
