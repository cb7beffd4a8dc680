/**
 What the device list tells about its devices. A device that vanishes is reported with the
 slot its entry had, read after the removal: the signal names the next device, or reads a
 destroyed slot. Here a destroyed slot counts as what it held last.
 */
module DeviceSignals {
  import opened Options
  import opened Descriptors
  import opened DeviceList
  import opened DeviceListProofs

  /** The device a listener takes a signal to be about. */
  function Named(signal: Signal): Descriptor {
    if signal.Appeared? then signal.d else signal.slot.d
  }

  /** The signals about one device: `true` for appeared. */
  function About(signals: seq<Signal>, k: nat, d: Descriptor): seq<bool>
    requires k <= |signals|
    decreases |signals| - k
  {
    if k == |signals| then []
    else (if Equivalent(Named(signals[k]), d) then [signals[k].Appeared?] else []) + About(signals, k + 1, d)
  }

  lemma {:induction false} AboutShift(a: seq<Signal>, b: seq<Signal>, j: nat, d: Descriptor)
    requires j <= |b|
    ensures About(a + b, |a| + j, d) == About(b, j, d)
    decreases |b| - j
  {
    if j < |b| {
      AboutShift(a, b, j + 1, d);
    }
  }

  /** No vanished signal holds the device that was removed: it holds another one, or the slot is destroyed. */
  lemma SlotNeverHolds(list: seq<Entry>, k: nat)
    requires Distinct(list) && k < |list|
    ensures SlotAfter(list, k).Destroyed? <==> k == |list| - 1
    ensures SlotAfter(list, k).Holds? ==> !Equivalent(SlotAfter(list, k).d, list[k].d)
  {
    if k + 1 < |list| {
      assert !Equivalent(list[k].d, list[k + 1].d);
    }
  }

  // ----- one tick

  predicate StaleAt(list: seq<Entry>, k: nat, now: nat, timeout: nat)
    requires k < |list|
  {
    Stale(list[k].lastSeen, now, timeout)
  }

  /** No stale entry stands in front of another entry, from entry `k` on. */
  predicate OnlyLast(list: seq<Entry>, k: nat, now: nat, timeout: nat) {
    forall i {:trigger StaleAt(list, i, now, timeout)} :: k <= i < |list| - 1 ==> !StaleAt(list, i, now, timeout)
  }

  lemma {:induction false} GoneOnlyLast(list: seq<Entry>, k: nat, now: nat, timeout: nat)
    requires k < |list| && OnlyLast(list, k, now, timeout)
    ensures Gone(list, k, now, timeout) ==
            if StaleAt(list, |list| - 1, now, timeout) then [Vanished(Destroyed(list[|list| - 1].d))] else []
    decreases |list| - k
  {
    if k < |list| - 1 {
      assert !StaleAt(list, k, now, timeout);
      GoneOnlyLast(list, k + 1, now, timeout);
    } else {
      assert Gone(list, k + 1, now, timeout) == [];
    }
  }

  /** Where the list has a device. */
  lemma SeenAt(list: seq<Entry>, i: nat, d: Descriptor)
    requires Distinct(list) && i < |list| && Equivalent(list[i].d, d)
    ensures Seen(list, 0, d) == Some(list[i].lastSeen)
  {
    SeenNone(list, 0, d);
    SeenIs(list, 0, i, d);
  }

  lemma {:induction false} SeenIs(list: seq<Entry>, k: nat, i: nat, d: Descriptor)
    requires Distinct(list) && k <= i < |list| && Equivalent(list[i].d, d)
    ensures Seen(list, k, d) == Some(list[i].lastSeen)
    decreases |list| - k
  {
    if k < i {
      assert !Equivalent(list[k].d, list[i].d);
      SeenIs(list, k + 1, i, d);
    }
  }

  /** The signals about a device are right: one exactly when it enters or leaves the list. */
  predicate Tells(s: State, e: Event, timeout: nat, d: Descriptor) {
    var r := Step(s, e, timeout);
    About(r.signals, 0, d) == if Listed(s, d) == Listed(r.state, d) then [] else [Listed(r.state, d)]
  }

  lemma AnnounceTells(s: State, e: Event, timeout: nat, d: Descriptor)
    requires Tidy(s) && e.Announce?
    ensures Tells(s, e, timeout, d)
  {
    UpdateSeen(s, e.d, e.now, d);
    FindSeen(s.list, e.d);
    if Equivalent(e.d, d) {
      EquivalentBoth(e.d, d, s.list);
    }
    assert About([Appeared(e.d)], 1, d) == [];
  }

  lemma OnlyLastTells(s: State, e: Event, timeout: nat, d: Descriptor)
    requires Tidy(s) && e.Tick? && OnlyLast(s.list, 0, e.now, timeout)
    ensures Tells(s, e, timeout, d)
  {
    var list, last := s.list, |s.list| - 1;
    ProcessSeen(s, e.now, timeout, d);
    if list != [] {
      GoneOnlyLast(list, 0, e.now, timeout);
      if Equivalent(list[last].d, d) {
        SeenAt(list, last, d);
      } else if Seen(list, 0, d).Some? {
        var i := Find(list, 0, d);
        FindSeen(list, d);
        SeenAt(list, i, d);
        assert !StaleAt(list, i, e.now, timeout);
      }
      assert About([Vanished(Destroyed(list[last].d))], 1, d) == [];
    }
  }

  /** The signals from entry `k` on name no device in front of it. */
  lemma {:induction false} NamesLater(list: seq<Entry>, k: nat, now: nat, timeout: nat, i: nat)
    requires Distinct(list) && i < k <= |list|
    ensures About(Gone(list, k, now, timeout), 0, list[i].d) == []
    decreases |list| - k
  {
    if k < |list| {
      NamesLater(list, k + 1, now, timeout, i);
      GoneFirst(list, k, now, timeout, list[i].d);
      assert !Equivalent(list[i].d, list[k].d);
      if k + 1 < |list| {
        assert !Equivalent(list[i].d, list[k + 1].d);
      }
    }
  }

  lemma GoneFirst(list: seq<Entry>, k: nat, now: nat, timeout: nat, d: Descriptor)
    requires k < |list|
    ensures About(Gone(list, k, now, timeout), 0, d) ==
            (if StaleAt(list, k, now, timeout) && Equivalent(SlotAfter(list, k).d, d) then [false] else [])
            + About(Gone(list, k + 1, now, timeout), 0, d)
  {
    var rest := Gone(list, k + 1, now, timeout);
    if StaleAt(list, k, now, timeout) {
      AboutShift([Vanished(SlotAfter(list, k))], rest, 0, d);
    } else {
      assert Gone(list, k, now, timeout) == rest;
    }
  }

  lemma GoneSkip(list: seq<Entry>, k: nat, now: nat, timeout: nat)
    requires k < |list| && !StaleAt(list, k, now, timeout)
    ensures Gone(list, k, now, timeout) == Gone(list, k + 1, now, timeout)
  {}

  lemma {:induction false} GoneSkips(list: seq<Entry>, k: nat, i: nat, now: nat, timeout: nat)
    requires k <= i <= |list|
             && forall j {:trigger StaleAt(list, j, now, timeout)} :: k <= j < i ==> !StaleAt(list, j, now, timeout)
    ensures Gone(list, k, now, timeout) == Gone(list, i, now, timeout)
    decreases i - k
  {
    if k < i {
      GoneSkip(list, k, now, timeout);
      GoneSkips(list, k + 1, i, now, timeout);
    }
  }

  function FirstStale(list: seq<Entry>, k: nat, now: nat, timeout: nat): (i: nat)
    requires k <= |list|
    ensures k <= i <= |list| && (i < |list| ==> StaleAt(list, i, now, timeout))
    ensures forall j {:trigger StaleAt(list, j, now, timeout)} :: k <= j < i ==> !StaleAt(list, j, now, timeout)
    decreases |list| - k
  {
    if k == |list| || StaleAt(list, k, now, timeout) then k else FirstStale(list, k + 1, now, timeout)
  }

  /** The first stale entry, if it stands in front of another one, leaves without a signal of its own. */
  lemma LeavesUntold(s: State, e: Event, timeout: nat) returns (d: Descriptor)
    requires Tidy(s) && e.Tick? && !OnlyLast(s.list, 0, e.now, timeout)
    ensures Listed(s, d) && !Listed(Step(s, e, timeout).state, d) && About(Step(s, e, timeout).signals, 0, d) == []
  {
    var list := s.list;
    var i := FirstStale(list, 0, e.now, timeout);
    assert i < |list| - 1;
    d := list[i].d;
    SeenAt(list, i, d);
    ProcessSeen(s, e.now, timeout, d);
    GoneSkips(list, 0, i, e.now, timeout);
    GoneFirst(list, i, e.now, timeout, d);
    assert !Equivalent(list[i].d, list[i + 1].d);
    NamesLater(list, i + 1, e.now, timeout, i);
  }

  /** A tick finds no stale entry in front of another one. */
  predicate InTurn(s: State, e: Event, timeout: nat) {
    e.Tick? ==> OnlyLast(s.list, 0, e.now, timeout)
  }

  /**
   A step that is not a clear signals all devices rightly, each one exactly when it enters
   or leaves the list, if and only if it is not a tick that finds a stale entry in front of
   another one.
   */
  lemma SignalsExact(s: State, e: Event, timeout: nat)
    requires Tidy(s) && !e.Clear?
    ensures (forall d {:trigger Tells(s, e, timeout, d)} :: Tells(s, e, timeout, d)) <==> InTurn(s, e, timeout)
  {
    if InTurn(s, e, timeout) {
      forall d {:trigger Tells(s, e, timeout, d)} ensures Tells(s, e, timeout, d) {
        if e.Announce? {
          AnnounceTells(s, e, timeout, d);
        } else {
          OnlyLastTells(s, e, timeout, d);
        }
      }
    } else {
      var d := LeavesUntold(s, e, timeout);
      assert !Tells(s, e, timeout, d);
    }
  }

  // ----- runs

  /** The signals about a device since the last clear. */
  function Heard(events: seq<Event>, n: nat, timeout: nat, d: Descriptor): seq<bool>
    requires n <= |events|
  {
    if n == 0 || events[n - 1].Clear? then []
    else
      Heard(events, n - 1, timeout, d)
      + About(Step(At(events, n - 1, timeout), events[n - 1], timeout).signals, 0, d)
  }

  predicate Alternates(heard: seq<bool>) {
    forall i {:trigger heard[i]} :: 0 <= i < |heard| ==> heard[i] == (i % 2 == 0)
  }

  /** The device has appeared and vanished in turn, and is listed exactly when it appeared last. */
  predicate Follows(s: State, heard: seq<bool>, d: Descriptor) {
    Alternates(heard) && (Listed(s, d) <==> |heard| % 2 == 1)
  }

  predicate FollowsAt(events: seq<Event>, n: nat, timeout: nat, d: Descriptor)
    requires n <= |events|
  {
    Follows(At(events, n, timeout), Heard(events, n, timeout, d), d)
  }

  predicate InTurnAt(events: seq<Event>, n: nat, timeout: nat)
    requires n < |events|
  {
    InTurn(At(events, n, timeout), events[n], timeout)
  }

  /** The event, unless it is a clear, signals all devices rightly. */
  ghost predicate AllTold(events: seq<Event>, n: nat, timeout: nat)
    requires n < |events|
  {
    var s, e := At(events, n, timeout), events[n];
    !e.Clear? ==> forall d {:trigger Tells(s, e, timeout, d)} :: Tells(s, e, timeout, d)
  }

  /**
   On every run: each event signals each device rightly, if and only if no tick finds a
   stale entry in front of another one.
   */
  lemma RunTells(events: seq<Event>, timeout: nat)
    ensures (forall n {:trigger AllTold(events, n, timeout)} :: 0 <= n < |events| ==> AllTold(events, n, timeout)) <==>
            (forall n {:trigger InTurnAt(events, n, timeout)} :: 0 <= n < |events| ==> InTurnAt(events, n, timeout))
  {
    forall n | 0 <= n < |events| ensures AllTold(events, n, timeout) <==> InTurnAt(events, n, timeout) {
      RunTidy(events, n, timeout);
      if !events[n].Clear? {
        SignalsExact(At(events, n, timeout), events[n], timeout);
      }
    }
  }

  lemma AlternatesOn(heard: seq<bool>, b: bool)
    requires Alternates(heard) && b == (|heard| % 2 == 0)
    ensures Alternates(heard + [b])
  {}

  lemma FollowsStep(s: State, heard: seq<bool>, e: Event, timeout: nat, d: Descriptor)
    requires Follows(s, heard, d) && Tells(s, e, timeout, d)
    ensures Follows(Step(s, e, timeout).state, heard + About(Step(s, e, timeout).signals, 0, d), d)
  {
    var listed := Listed(Step(s, e, timeout).state, d);
    if listed == Listed(s, d) {
      assert heard + [] == heard;
    } else {
      AlternatesOn(heard, listed);
    }
  }

  lemma FollowsNext(events: seq<Event>, n: nat, timeout: nat, d: Descriptor)
    requires n < |events| && FollowsAt(events, n, timeout, d) && InTurnAt(events, n, timeout)
    ensures FollowsAt(events, n + 1, timeout, d)
  {
    var s := At(events, n, timeout);
    RunTidy(events, n, timeout);
    if !events[n].Clear? {
      SignalsExact(s, events[n], timeout);
      assert Tells(s, events[n], timeout, d);
      FollowsStep(s, Heard(events, n, timeout, d), events[n], timeout, d);
    }
  }

  lemma InitFollows(events: seq<Event>, timeout: nat, d: Descriptor)
    ensures FollowsAt(events, 0, timeout, d)
  {}

  lemma RunFollows(events: seq<Event>, n: nat, timeout: nat, d: Descriptor)
    requires n <= |events|
    requires forall m {:trigger InTurnAt(events, m, timeout)} :: 0 <= m < n ==> InTurnAt(events, m, timeout)
    ensures FollowsAt(events, n, timeout, d)
  {
    InitFollows(events, timeout, d);
    for i := 0 to n
      invariant FollowsAt(events, i, timeout, d)
    {
      assert InTurnAt(events, i, timeout);
      FollowsNext(events, i, timeout, d);
    }
  }

  /** A tick out of turn loses track of a device. */
  lemma TrackLost(events: seq<Event>, n: nat, timeout: nat) returns (d: Descriptor)
    requires n < |events| && !InTurnAt(events, n, timeout)
    ensures !FollowsAt(events, n, timeout, d) || !FollowsAt(events, n + 1, timeout, d)
  {
    RunTidy(events, n, timeout);
    d := LeavesUntold(At(events, n, timeout), events[n], timeout);
    assert Heard(events, n + 1, timeout, d) == Heard(events, n, timeout, d);
  }

  /** All devices are followed rightly before event `n`. */
  ghost predicate AllFollow(events: seq<Event>, n: nat, timeout: nat)
    requires n <= |events|
  {
    forall d {:trigger FollowsAt(events, n, timeout, d)} :: FollowsAt(events, n, timeout, d)
  }

  /**
   On every run: every device appears and vanishes in turn between clears, and is listed
   exactly when it appeared last, if and only if no tick finds a stale entry in front of
   another one.
   */
  lemma RunSignals(events: seq<Event>, timeout: nat)
    ensures (forall n {:trigger AllFollow(events, n, timeout)} ::
               0 <= n <= |events| ==> AllFollow(events, n, timeout)) <==>
            (forall n {:trigger InTurnAt(events, n, timeout)} ::
               0 <= n < |events| ==> InTurnAt(events, n, timeout))
  {
    if forall n {:trigger InTurnAt(events, n, timeout)} :: 0 <= n < |events| ==> InTurnAt(events, n, timeout) {
      forall n {:trigger AllFollow(events, n, timeout)} | 0 <= n <= |events| ensures AllFollow(events, n, timeout) {
        forall d {:trigger FollowsAt(events, n, timeout, d)} ensures FollowsAt(events, n, timeout, d) {
          RunFollows(events, n, timeout, d);
        }
      }
    } else {
      var n :| 0 <= n < |events| && !InTurnAt(events, n, timeout);
      var d := TrackLost(events, n, timeout);
      assert !AllFollow(events, n, timeout) || !AllFollow(events, n + 1, timeout);
    }
  }

  // ----- an old entry in front of a new one

  /** The first device falls silent, the second announces itself just before the tick. */
  function Silence(a: Descriptor, b: Descriptor): seq<Event> {
    [Announce(a, 0), Announce(b, 6000), Tick(6000), Tick(12000)]
  }

  /**
   The tick drops the first device and reports the second, which stays listed and is
   reported as vanished once more when it falls silent too.
   */
  lemma WrongDeviceVanishes(a: Descriptor, b: Descriptor)
    requires !Equivalent(a, b)
    ensures Reached(Silence(a, b), 2, State([Entry(a, 0), Entry(b, 6000)], true), a, [true], b, [true])
    ensures Reached(Silence(a, b), 3, State([Entry(b, 6000)], true), a, [true], b, [true, false])
    ensures Reached(Silence(a, b), 4, State([], false), a, [true], b, [true, false, false])
    ensures !InTurnAt(Silence(a, b), 2, 5000)
  {
    BothAnnounced(a, b);
    FirstTick(a, b);
    Next(Silence(a, b), 2, State([Entry(a, 0), Entry(b, 6000)], true), [Vanished(Holds(b))], a, [true], b, [true]);
    SecondTick(b);
    Next(Silence(a, b), 3, State([Entry(b, 6000)], true), [Vanished(Destroyed(b))], a, [true], b, [true, false]);
  }

  lemma BothAnnounced(a: Descriptor, b: Descriptor)
    requires !Equivalent(a, b)
    ensures Reached(Silence(a, b), 2, State([Entry(a, 0), Entry(b, 6000)], true), a, [true], b, [true])
    ensures !InTurnAt(Silence(a, b), 2, 5000)
  {
    Next(Silence(a, b), 0, INIT, [Appeared(a)], a, [], b, []);
    Next(Silence(a, b), 1, State([Entry(a, 0)], true), [Appeared(b)], a, [true], b, []);
    assert StaleAt([Entry(a, 0), Entry(b, 6000)], 0, 6000, 5000);
  }

  /** Before event `n`: the state, and what has been heard of two devices. */
  predicate Reached(events: seq<Event>, n: nat, s: State, a: Descriptor, x: seq<bool>, b: Descriptor, y: seq<bool>)
    requires n <= |events|
  {
    At(events, n, 5000) == s && Heard(events, n, 5000, a) == x && Heard(events, n, 5000, b) == y
  }

  function Told(signals: seq<Signal>, d: Descriptor): seq<bool>
    requires |signals| == 1
  {
    if Equivalent(Named(signals[0]), d) then [signals[0].Appeared?] else []
  }

  lemma Next(events: seq<Event>, n: nat, s: State, signals: seq<Signal>,
             a: Descriptor, x: seq<bool>, b: Descriptor, y: seq<bool>)
    requires n < |events| && !events[n].Clear? && Reached(events, n, s, a, x, b, y)
    requires Step(s, events[n], 5000).signals == signals && |signals| == 1
    ensures Reached(events, n + 1, Step(s, events[n], 5000).state, a, x + Told(signals, a), b, y + Told(signals, b))
  {
    assert signals == [signals[0]];
    AboutOne(signals[0], a);
    AboutOne(signals[0], b);
  }

  lemma FirstTick(a: Descriptor, b: Descriptor)
    ensures var list := [Entry(a, 0), Entry(b, 6000)];
            Process(State(list, true), 6000, 5000) == Effect(State([Entry(b, 6000)], true), [Vanished(Holds(b))])
  {
    var list := [Entry(a, 0), Entry(b, 6000)];
    assert Stale(0, 6000, 5000) && !Stale(6000, 6000, 5000);
    assert Kept(list, 2, 6000, 5000) == [] && Gone(list, 2, 6000, 5000) == [];
    assert Kept(list, 1, 6000, 5000) == [Entry(b, 6000)] && Gone(list, 1, 6000, 5000) == [];
  }

  lemma SecondTick(b: Descriptor)
    ensures Process(State([Entry(b, 6000)], true), 12000, 5000) == Effect(State([], false), [Vanished(Destroyed(b))])
  {
    var list := [Entry(b, 6000)];
    assert Stale(6000, 12000, 5000);
    assert Kept(list, 1, 12000, 5000) == [] && Gone(list, 1, 12000, 5000) == [];
  }

  lemma AboutOne(signal: Signal, d: Descriptor)
    ensures About([signal], 0, d) == if Equivalent(Named(signal), d) then [signal.Appeared?] else []
  {
    assert About([signal], 1, d) == [];
  }
}
