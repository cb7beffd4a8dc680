/**
 The accounts of every run, overlapping requests included: what each class of equivalent
 descriptors waits for in vain is exactly what finished connections dropped beside themselves.
 */
module ClientLosses {
  import opened Counting
  import opened Descriptors
  import opened Client
  import opened ClientProofs

  /** How many requests are for the device, from index `k` on. */
  function Count(tickets: seq<Ticket>, k: nat, d: Descriptor): nat
    requires k <= |tickets|
    decreases |tickets| - k
  {
    if k == |tickets| then 0 else Bit(Equivalent(tickets[k].d, d)) + Count(tickets, k + 1, d)
  }

  /** How many requests carry the very same descriptor, address included. */
  function Equals(tickets: seq<Ticket>, k: nat, d: Descriptor): nat
    requires k <= |tickets|
    decreases |tickets| - k
  {
    if k == |tickets| then 0 else Bit(tickets[k].d == d) + Equals(tickets, k + 1, d)
  }

  lemma {:induction false} CountShift(a: seq<Ticket>, b: seq<Ticket>, j: nat, d: Descriptor)
    requires j <= |b|
    ensures Count(a + b, |a| + j, d) == Count(b, j, d)
    decreases |b| - j
  {
    if j < |b| {
      CountShift(a, b, j + 1, d);
    }
  }

  lemma {:induction false} CountConcat(a: seq<Ticket>, b: seq<Ticket>, k: nat, d: Descriptor)
    requires k <= |a|
    ensures Count(a + b, k, d) == Count(a, k, d) + Count(b, 0, d)
    decreases |a| - k
  {
    if k == |a| {
      CountShift(a, b, 0, d);
    } else {
      CountConcat(a, b, k + 1, d);
    }
  }

  lemma CountOne(t: Ticket, d: Descriptor)
    ensures Count([t], 0, d) == Bit(Equivalent(t.d, d))
  {
    assert Count([t], 1, d) == 0;
  }

  lemma CountAppend(tickets: seq<Ticket>, t: Ticket, d: Descriptor)
    ensures Count(tickets + [t], 0, d) == Count(tickets, 0, d) + Bit(Equivalent(t.d, d))
  {
    CountConcat(tickets, [t], 0, d);
    CountOne(t, d);
  }

  lemma CountHead(tickets: seq<Ticket>, d: Descriptor)
    requires tickets != []
    ensures Count(tickets, 0, d) == Bit(Equivalent(tickets[0].d, d)) + Count(tickets[1..], 0, d)
  {
    assert tickets == [tickets[0]] + tickets[1..];
    CountConcat([tickets[0]], tickets[1..], 0, d);
    CountOne(tickets[0], d);
  }

  lemma CountWithout(tickets: seq<Ticket>, i: nat, d: Descriptor)
    requires i < |tickets|
    ensures Count(tickets, 0, d) == Count(Without(tickets, i), 0, d) + Bit(Equivalent(tickets[i].d, d))
  {
    var a, b := tickets[..i], tickets[i + 1..];
    assert tickets == (a + [tickets[i]]) + b;
    CountConcat(a + [tickets[i]], b, 0, d);
    CountAppend(a, tickets[i], d);
    CountConcat(a, b, 0, d);
  }

  lemma {:induction false} CountNone(tickets: seq<Ticket>, k: nat, d: Descriptor)
    requires k <= |tickets|
    ensures Count(tickets, k, d) == 0 <==> forall i :: k <= i < |tickets| ==> !Equivalent(tickets[i].d, d)
    decreases |tickets| - k
  {
    if k < |tickets| {
      CountNone(tickets, k + 1, d);
    }
  }

  lemma CountKept(tickets: seq<Ticket>, k: nat, gone: Descriptor, d: Descriptor)
    requires k < |tickets|
    ensures Count(Dropped(tickets, k, gone), 0, d)
            == (if tickets[k].d == gone then 0 else Bit(Equivalent(tickets[k].d, d)))
               + Count(Dropped(tickets, k + 1, gone), 0, d)
  {
    var rest := Dropped(tickets, k + 1, gone);
    if tickets[k].d == gone {
      assert Dropped(tickets, k, gone) == rest;
    } else {
      assert Dropped(tickets, k, gone) == [tickets[k]] + rest;
      CountConcat([tickets[k]], rest, 0, d);
      CountOne(tickets[k], d);
    }
  }

  lemma {:induction false} CountDropped(tickets: seq<Ticket>, k: nat, gone: Descriptor, d: Descriptor)
    requires k <= |tickets|
    ensures Count(tickets, k, d)
            == Count(Dropped(tickets, k, gone), 0, d) + (if Equivalent(gone, d) then Equals(tickets, k, gone) else 0)
    decreases |tickets| - k
  {
    if k < |tickets| {
      CountDropped(tickets, k + 1, gone, d);
      CountKept(tickets, k, gone, d);
    }
  }

  lemma {:induction false} EqualsNone(tickets: seq<Ticket>, k: nat, d: Descriptor)
    requires k <= |tickets|
    ensures Equals(tickets, k, d) == 0 <==> forall j :: k <= j < |tickets| ==> tickets[j].d != d
    decreases |tickets| - k
  {
    if k < |tickets| {
      EqualsNone(tickets, k + 1, d);
    }
  }

  lemma {:induction false} EqualsOnlyOne(tickets: seq<Ticket>, k: nat, i: nat)
    requires k <= i < |tickets|
    ensures Equals(tickets, k, tickets[i].d) >= 1
    ensures Equals(tickets, k, tickets[i].d) == 1 <==>
            forall j :: k <= j < |tickets| && j != i ==> tickets[j].d != tickets[i].d
    decreases |tickets| - k
  {
    if k == i {
      EqualsNone(tickets, k + 1, tickets[i].d);
    } else {
      EqualsOnlyOne(tickets, k + 1, i);
    }
  }

  // ----- runs

  function Arriving(s: State, d: Descriptor): nat {
    Count(s.queued, 0, d) + Count(s.requests, 0, d) + Count(Carried(s.transit), 0, d)
  }

  /** How many requests for the device a step drops beside the connection it finishes. */
  function DroppedBeside(s: State, e: Event, d: Descriptor): nat {
    if e.Finish? && e.i < |s.requests| && Equivalent(s.requests[e.i].d, d) then
      EqualsOnlyOne(s.requests, 0, e.i);
      Equals(s.requests, 0, s.requests[e.i].d) - 1
    else 0
  }

  function Lost(events: seq<Event>, n: nat, d: Descriptor): nat
    requires n <= |events|
  {
    if n == 0 then 0 else Lost(events, n - 1, d) + DroppedBeside(At(events, n - 1), events[n - 1], d)
  }

  /** The client waits for what is on its way and for what was lost. */
  predicate Waits(s: State, lost: nat, d: Descriptor) {
    Count(s.pending, 0, d) == Arriving(s, d) + lost
  }

  lemma EstablishWaits(s: State, lost: nat, asked: Descriptor, d: Descriptor)
    requires Waits(s, lost, d)
    ensures Waits(EstablishStep(s, asked), lost, d)
  {
    var t := Ticket(|s.asked|, asked);
    CountAppend(s.pending, t, d);
    CountAppend(s.queued, t, d);
  }

  lemma TakeWaits(s: State, lost: nat, d: Descriptor)
    requires Waits(s, lost, d) && s.queued != []
    ensures Waits(TakeStep(s), lost, d)
  {
    var t := s.queued[0];
    CountHead(s.queued, d);
    CountAppend(s.requests, t, d);
    CarriedAppend(s.transit, Outcome(t, Refusal(t.d)));
    CountAppend(Carried(s.transit), t, d);
  }

  lemma FinishWaits(s: State, lost: nat, i: nat, r: Result, d: Descriptor)
    requires Waits(s, lost, d) && i < |s.requests|
    ensures Waits(FinishStep(s, i, r), lost + DroppedBeside(s, Finish(i, r), d), d)
  {
    var t := s.requests[i];
    CountDropped(s.requests, 0, t.d, d);
    EqualsOnlyOne(s.requests, 0, i);
    CarriedAppend(s.transit, Outcome(t, r));
    CountAppend(Carried(s.transit), t, d);
  }

  /** An outcome of a device somebody waits for finds an entry of that device. */
  lemma OutcomeFinds(s: State, lost: nat)
    requires s.transit != [] && Waits(s, lost, s.transit[0].ticket.d)
    ensures FirstEquivalent(s.pending, 0, s.transit[0].ticket.d) < |s.pending|
  {
    var d := s.transit[0].ticket.d;
    CountHead(Carried(s.transit), d);
    CountNone(s.pending, 0, d);
  }

  lemma DeliverWaits(s: State, lost: nat, d: Descriptor)
    requires Waits(s, lost, d) && s.transit != []
    requires FirstEquivalent(s.pending, 0, s.transit[0].ticket.d) < |s.pending|
    ensures Waits(DeliverStep(s), lost, d)
  {
    var t := s.transit[0].ticket;
    var i := FirstEquivalent(s.pending, 0, t.d);
    Delivered(s);
    CountWithout(s.pending, i, d);
    CountHead(Carried(s.transit), d);
    assert Carried(s.transit)[1..] == Carried(s.transit[1..]);
  }

  /** The outcome that a step delivers, if any, finds its entry. */
  predicate Finds(s: State, e: Event) {
    e.Deliver? && s.transit != [] ==> FirstEquivalent(s.pending, 0, s.transit[0].ticket.d) < |s.pending|
  }

  lemma StepWaits(s: State, lost: nat, e: Event, d: Descriptor)
    requires Waits(s, lost, d) && Finds(s, e)
    ensures Waits(Step(s, e), lost + DroppedBeside(s, e, d), d)
  {
    match e
    case Establish(asked) => EstablishWaits(s, lost, asked, d);
    case Take => if s.queued != [] { TakeWaits(s, lost, d); }
    case Finish(i, r) => if i < |s.requests| { FinishWaits(s, lost, i, r, d); }
    case Deliver => if s.transit != [] { DeliverWaits(s, lost, d); }
  }

  /** Every device is accounted for before event `n`. */
  ghost predicate AllWait(events: seq<Event>, n: nat)
    requires n <= |events|
  {
    forall d {:trigger Lost(events, n, d)} :: Waits(At(events, n), Lost(events, n, d), d)
  }

  lemma FindsAt(events: seq<Event>, n: nat)
    requires n < |events| && AllWait(events, n)
    ensures Finds(At(events, n), events[n])
  {
    var s := At(events, n);
    if s.transit != [] {
      OutcomeFinds(s, Lost(events, n, s.transit[0].ticket.d));
    }
  }

  lemma WaitsAt(events: seq<Event>, n: nat)
    requires n < |events| && AllWait(events, n)
    ensures AllWait(events, n + 1)
  {
    FindsAt(events, n);
    var next := n + 1;
    forall d {:trigger Lost(events, next, d)} ensures Waits(At(events, next), Lost(events, next, d), d) {
      StepWaits(At(events, n), Lost(events, n, d), events[n], d);
    }
  }

  lemma AllRunsWait(events: seq<Event>, n: nat)
    requires n <= |events|
    ensures AllWait(events, n)
  {
    for i := 0 to n
      invariant AllWait(events, i)
    {
      WaitsAt(events, i);
    }
  }

  /**
   On every run, and for every device: the client waits for exactly the requests that are
   queued, being built or coming back, and for those dropped beside a finished connection.
   */
  lemma EveryRunAccounts(events: seq<Event>, n: nat, d: Descriptor)
    requires n <= |events|
    ensures Waits(At(events, n), Lost(events, n, d), d)
  {
    AllRunsWait(events, n);
  }

  /** On every run every delivered outcome finds an entry of its device. */
  lemma EveryOutcomeFinds(events: seq<Event>, n: nat)
    requires n < |events|
    ensures Finds(At(events, n), events[n])
  {
    AllRunsWait(events, n);
    FindsAt(events, n);
  }

  /** No other connection for the same descriptor is dropped by this step. */
  predicate FinishesAlone(s: State, e: Event) {
    e.Finish? && e.i < |s.requests| ==> OnlyOne(s.requests, e.i)
  }

  predicate AloneBefore(events: seq<Event>, n: nat)
    requires n <= |events|
  {
    forall m {:trigger At(events, m)} :: 0 <= m < n ==> FinishesAlone(At(events, m), events[m])
  }

  lemma {:induction false} LostNothing(events: seq<Event>, n: nat, d: Descriptor)
    requires n <= |events| && AloneBefore(events, n)
    ensures Lost(events, n, d) == 0
  {
    if n > 0 {
      LostNothing(events, n - 1, d);
      var s, e := At(events, n - 1), events[n - 1];
      assert FinishesAlone(s, e);
      if e.Finish? && e.i < |s.requests| {
        EqualsOnlyOne(s.requests, 0, e.i);
      }
    }
  }

  lemma {:induction false} LostSomething(events: seq<Event>, n: nat, m: nat)
    requires m < n <= |events| && !FinishesAlone(At(events, m), events[m])
    ensures Lost(events, n, At(events, m).requests[events[m].i].d) > 0
  {
    var s, i := At(events, m), events[m].i;
    EqualsOnlyOne(s.requests, 0, i);
    if m < n - 1 {
      LostSomething(events, n - 1, m);
    }
  }

  /**
   When both threads are at rest, every request has been answered if and only if no finished
   connection had another one of the same descriptor beside it.
   */
  lemma AllAnsweredExact(events: seq<Event>, n: nat)
    requires n <= |events|
    requires var s := At(events, n); s.queued == [] && s.requests == [] && s.transit == []
    ensures At(events, n).pending == [] <==> AloneBefore(events, n)
  {
    var s := At(events, n);
    assert Carried(s.transit) == [];
    if AloneBefore(events, n) {
      if s.pending != [] {
        CountNone(s.pending, 0, s.pending[0].d);
        LostNothing(events, n, s.pending[0].d);
        EveryRunAccounts(events, n, s.pending[0].d);
      }
    } else {
      var m :| 0 <= m < n && !FinishesAlone(At(events, m), events[m]);
      LostSomething(events, n, m);
      EveryRunAccounts(events, n, At(events, m).requests[events[m].i].d);
    }
  }
}
