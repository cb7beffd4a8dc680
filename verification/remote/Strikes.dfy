/**
 Seven strikes: what the client's error counters say about the outcomes delivered so far,
 and when exactly a trusted certificate is removed.
 */
module Strikes {
  import opened Descriptors
  import opened Client
  import opened ClientLosses

  /** An outcome that found its entry, as far as the counters look at it. */
  datatype Told = Told(id: string, result: Result)

  function CountersAfter(told: seq<Told>, n: nat): map<string, nat>
    requires n <= |told|
  {
    if n == 0 then map[] else Counted(CountersAfter(told, n - 1), told[n - 1].id, told[n - 1].result)
  }

  /** How many refusals in a row a device has answered with, counted back from outcome `n`. */
  function TrailingRun(told: seq<Told>, n: nat, id: string): nat
    requires n <= |told|
  {
    if n == 0 then 0
    else if told[n - 1].id != id then TrailingRun(told, n - 1, id)
    else if told[n - 1].result == Failed(Refused) || told[n - 1].result == Failed(NoSupportedApiLevel)
    then TrailingRun(told, n - 1, id) + 1
    else 0
  }

  /** For any interleaving of devices, each counter is the length of that device's run of refusals modulo seven. */
  lemma {:induction false} CounterIsRun(told: seq<Told>, n: nat, id: string)
    requires n <= |told|
    ensures StrikesOf(CountersAfter(told, n), id) == TrailingRun(told, n, id) % 7
  {
    if n > 0 {
      CounterIsRun(told, n - 1, id);
    }
  }

  /** An outcome removes the certificate exactly when it completes another seven refusals in a row. */
  lemma RemovedAtEverySeventh(told: seq<Told>, n: nat)
    requires n < |told|
    ensures RemovesCertificate(CountersAfter(told, n), told[n].id, told[n].result)
            <==> told[n].result in {Failed(Refused), Failed(NoSupportedApiLevel)}
                 && TrailingRun(told, n + 1, told[n].id) % 7 == 0
  {
    var id := told[n].id;
    CounterIsRun(told, n, id);
    SeventhExact(TrailingRun(told, n, id));
    if told[n].result in {Failed(Refused), Failed(NoSupportedApiLevel)} {
      assert TrailingRun(told, n + 1, id) == TrailingRun(told, n, id) + 1;
    }
  }

  lemma SeventhExact(run: nat)
    ensures run % 7 + 1 >= 7 <==> (run + 1) % 7 == 0
  {}

  /**
   What one outcome that finds its entry does, code by code: a refusal and a missing API level
   add one or complete the seventh; success and every other failure start over.
   */
  lemma OutcomeCounts(pending: seq<Ticket>, counters: map<string, nat>, d: Descriptor, r: Result, other: string)
    requires FirstEquivalent(pending, 0, d) < |pending|
    ensures var after := Receive(pending, counters, d, r);
            match r
            case Created => StrikesOf(after.counters, Id(d)) == 0 && !after.removed
            case Failed(InvalidRequest) => StrikesOf(after.counters, Id(d)) == 0 && !after.removed
            case Failed(Timeout) => StrikesOf(after.counters, Id(d)) == 0 && !after.removed
            case Failed(ConnectionError) => StrikesOf(after.counters, Id(d)) == 0 && !after.removed
            case Failed(_) =>
              if StrikesOf(counters, Id(d)) < 6
              then StrikesOf(after.counters, Id(d)) == StrikesOf(counters, Id(d)) + 1 && !after.removed
              else StrikesOf(after.counters, Id(d)) == 0 && after.removed
    ensures other != Id(d) ==> StrikesOf(Receive(pending, counters, d, r).counters, other) == StrikesOf(counters, other)
  {}

  /** An outcome without an entry removes nothing; all it can do is start the count over, after a success. */
  lemma OutcomeWithoutEntry(pending: seq<Ticket>, counters: map<string, nat>, d: Descriptor, r: Result)
    requires forall i :: 0 <= i < |pending| ==> !Equivalent(pending[i].d, d)
    ensures var after := Receive(pending, counters, d, r);
            && after.pending == pending && after.entry.None? && !after.removed
            && after.counters == match r case Created => counters[Id(d) := 0] case Failed(_) => counters
  {}

  /** The certificates removed by the first `n` outcomes, in order. */
  function RemovedBy(told: seq<Told>, n: nat): seq<string>
    requires n <= |told|
  {
    if n == 0 then []
    else RemovedBy(told, n - 1)
         + (if RemovesCertificate(CountersAfter(told, n - 1), told[n - 1].id, told[n - 1].result)
             then [told[n - 1].id] else [])
  }

  function AllTold(answers: seq<Answer>): (told: seq<Told>)
    ensures |told| == |answers|
  {
    seq(|answers|, i requires 0 <= i < |answers| => Told(Id(answers[i].outcome.ticket.d), answers[i].outcome.result))
  }

  lemma {:induction false} PrefixTold(told: seq<Told>, more: seq<Told>, n: nat)
    requires n <= |told|
    ensures CountersAfter(told + more, n) == CountersAfter(told, n) && RemovedBy(told + more, n) == RemovedBy(told, n)
  {
    if n > 0 {
      PrefixTold(told, more, n - 1);
      assert (told + more)[n - 1] == told[n - 1];
    }
  }

  predicate CountsAnswers(s: State) {
    var told := AllTold(s.answers);
    s.counters == CountersAfter(told, |told|) && s.removals == RemovedBy(told, |told|)
  }

  lemma DeliverCounts(s: State)
    requires s.transit != [] && CountsAnswers(s)
    requires FirstEquivalent(s.pending, 0, s.transit[0].ticket.d) < |s.pending|
    ensures CountsAnswers(DeliverStep(s))
  {
    var o, t := s.transit[0], DeliverStep(s);
    var told, last := AllTold(s.answers), Told(Id(o.ticket.d), o.result);
    assert AllTold(t.answers) == told + [last];
    PrefixTold(told, [last], |told|);
    assert (told + [last])[|told|] == last;
  }

  lemma StepCounts(s: State, e: Event)
    requires CountsAnswers(s) && Finds(s, e)
    ensures CountsAnswers(Step(s, e))
  {
    if e.Deliver? && s.transit != [] {
      DeliverCounts(s);
    } else {
      var t := Step(s, e);
      assert t.answers == s.answers && t.counters == s.counters && t.removals == s.removals;
    }
  }

  predicate CountsAt(events: seq<Event>, n: nat)
    requires n <= |events|
  {
    CountsAnswers(At(events, n))
  }

  lemma InitCounts(events: seq<Event>)
    ensures CountsAt(events, 0)
  {}

  lemma CountsNext(events: seq<Event>, n: nat)
    requires n < |events| && CountsAt(events, n)
    ensures CountsAt(events, n + 1)
  {
    EveryOutcomeFinds(events, n);
    StepCounts(At(events, n), events[n]);
  }

  /** In every run, overlapping requests included, the client's counters and removals are those of the answers given. */
  lemma RunCounts(events: seq<Event>, n: nat)
    requires n <= |events|
    ensures CountsAt(events, n)
  {
    InitCounts(events);
    for i := 0 to n
      invariant CountsAt(events, i)
    {
      CountsNext(events, i);
    }
  }
}
