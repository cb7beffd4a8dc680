/**
 What the device list keeps: no device twice, a timer that runs while it is needed, and
 agreement with the history of announcements while the time of
 day does not wrap. And exactly when the timer's verdict about an entry is right.
 */
module DeviceListProofs {
  import opened Options
  import opened Descriptors
  import opened DeviceList

  // ----- the verdict about one entry

  /**
   With less than a day since the announcement and a timeout of less than a day, the
   comparison of times of day is right exactly when the announcement and the threshold
   fall on the same day.
   */
  lemma VerdictExact(seen: nat, now: nat, timeout: nat)
    requires seen <= now && now - seen < DAY && timeout < DAY
    ensures DAY == 24 * 60 * 60 * 1000
    ensures (Stale(seen % DAY, now, timeout) <==> seen < now - timeout) <==> seen / DAY == (now - timeout) / DAY
  {
    var t := now - timeout;
    if seen / DAY == t / DAY {
      SameDay(seen, now, timeout);
    } else {
      assert seen == DAY * (seen / DAY) + seen % DAY;
      assert t == DAY * (t / DAY) + t % DAY;
    }
  }

  /** On the same day it is right whatever has passed since. */
  lemma SameDay(seen: nat, now: nat, timeout: nat)
    requires seen / DAY == (now - timeout) / DAY
    ensures Stale(seen % DAY, now, timeout) <==> seen < now - timeout
  {
    var t := now - timeout;
    assert seen == DAY * (seen / DAY) + seen % DAY;
    assert t == DAY * (t / DAY) + t % DAY;
  }

  /** Shortly after midnight a device that has just announced itself is dropped. */
  lemma FreshDeviceDropped(d: Descriptor)
    ensures var now := DAY + 1000;
            Process(Update(INIT, d, now).state, now, 5000) == Effect(State([], false), [Vanished(Destroyed(d))])
  {
    var now := DAY + 1000;
    var s := Update(INIT, d, now).state;
    assert s.list == [Entry(d, 1000)];
    assert Stale(1000, now, 5000);
    assert Kept(s.list, 1, now, 5000) == [] && Gone(s.list, 1, now, 5000) == [];
  }

  // ----- one device in the list

  /** The time of day at which the list has last seen the device, looking from entry `k` on. */
  function Seen(list: seq<Entry>, k: nat, d: Descriptor): Option<nat>
    requires k <= |list|
    decreases |list| - k
  {
    if k == |list| then None
    else if Equivalent(list[k].d, d) then Some(list[k].lastSeen)
    else Seen(list, k + 1, d)
  }

  predicate Distinct(list: seq<Entry>) {
    forall i, j :: 0 <= i < j < |list| ==> !Equivalent(list[i].d, list[j].d)
  }

  lemma {:induction false} SeenShift(a: seq<Entry>, b: seq<Entry>, j: nat, d: Descriptor)
    requires j <= |b|
    ensures Seen(a + b, |a| + j, d) == Seen(b, j, d)
    decreases |b| - j
  {
    if j < |b| {
      SeenShift(a, b, j + 1, d);
    }
  }

  lemma {:induction false} SeenNone(list: seq<Entry>, k: nat, d: Descriptor)
    requires k <= |list|
    ensures Seen(list, k, d) == None <==> forall i :: k <= i < |list| ==> !Equivalent(list[i].d, d)
    decreases |list| - k
  {
    if k < |list| {
      SeenNone(list, k + 1, d);
    }
  }

  lemma {:induction false} SeenAppend(list: seq<Entry>, k: nat, e: Entry, d: Descriptor)
    requires k <= |list|
    ensures Seen(list + [e], k, d) ==
            if Seen(list, k, d).Some? then Seen(list, k, d)
            else if Equivalent(e.d, d) then Some(e.lastSeen) else None
    decreases |list| - k
  {
    if k < |list| {
      SeenAppend(list, k + 1, e, d);
    }
  }

  lemma {:induction false} SeenUpdate(list: seq<Entry>, k: nat, i: nat, at: nat, d: Descriptor)
    requires k <= |list| && i < |list| && Distinct(list)
    ensures Seen(list[i := list[i].(lastSeen := at)], k, d) ==
            if k <= i && Equivalent(list[i].d, d) then Some(at) else Seen(list, k, d)
    decreases |list| - k
  {
    if k < |list| {
      SeenUpdate(list, k + 1, i, at, d);
      if k < i && Equivalent(list[k].d, d) {
        assert !Equivalent(list[k].d, list[i].d);
      }
    }
  }

  /** Every entry that survives a tick was there before. */
  lemma {:induction false} KeptFrom(list: seq<Entry>, k: nat, now: nat, timeout: nat, e: Entry)
    requires k <= |list| && e in Kept(list, k, now, timeout)
    ensures e in list[k..]
    decreases |list| - k
  {
    if e != list[k] || Stale(list[k].lastSeen, now, timeout) {
      KeptFrom(list, k + 1, now, timeout, e);
      assert list[k..] == [list[k]] + list[k + 1..];
    }
  }

  lemma {:induction false} KeptDistinct(list: seq<Entry>, k: nat, now: nat, timeout: nat)
    requires k <= |list| && Distinct(list)
    ensures Distinct(Kept(list, k, now, timeout))
    decreases |list| - k
  {
    if k < |list| {
      var rest := Kept(list, k + 1, now, timeout);
      KeptDistinct(list, k + 1, now, timeout);
      forall j | 0 <= j < |rest| ensures !Equivalent(list[k].d, rest[j].d) {
        KeptFrom(list, k + 1, now, timeout, rest[j]);
        var i :| 0 <= i < |list| - k - 1 && list[k + 1..][i] == rest[j];
        assert list[k + 1 + i] == rest[j];
      }
    }
  }

  /** A tick takes a device off the list exactly when its entry is stale. */
  lemma {:induction false} KeptSeen(list: seq<Entry>, k: nat, now: nat, timeout: nat, d: Descriptor)
    requires k <= |list| && Distinct(list)
    ensures Seen(Kept(list, k, now, timeout), 0, d) ==
            if Seen(list, k, d).Some? && !Stale(Seen(list, k, d).value, now, timeout) then Seen(list, k, d) else None
    decreases |list| - k
  {
    if k < |list| {
      KeptSeen(list, k + 1, now, timeout, d);
      var rest := Kept(list, k + 1, now, timeout);
      if Stale(list[k].lastSeen, now, timeout) {
        assert Kept(list, k, now, timeout) == rest;
        if Equivalent(list[k].d, d) {
          NoOther(list, k, d);
        }
      } else {
        SeenShift([list[k]], rest, 0, d);
      }
    }
  }

  lemma NoOther(list: seq<Entry>, k: nat, d: Descriptor)
    requires k < |list| && Distinct(list) && Equivalent(list[k].d, d)
    ensures Seen(list, k + 1, d) == None
  {
    SeenNone(list, k + 1, d);
    forall i | k < i < |list| ensures !Equivalent(list[i].d, d) {
      assert !Equivalent(list[k].d, list[i].d);
    }
  }

  // ----- the list as a whole

  predicate Listed(s: State, d: Descriptor) {
    Seen(s.list, 0, d).Some?
  }

  lemma FindSeen(list: seq<Entry>, d: Descriptor)
    ensures Find(list, 0, d) < |list| <==> Seen(list, 0, d).Some?
  {
    SeenNone(list, 0, d);
  }

  lemma EquivalentBoth(a: Descriptor, b: Descriptor, list: seq<Entry>)
    requires Equivalent(a, b)
    ensures Seen(list, 0, a).Some? <==> Seen(list, 0, b).Some?
  {
    SeenNone(list, 0, a);
    SeenNone(list, 0, b);
  }

  // ----- one step

  /** No device is listed twice, and the timer runs whenever there is something to watch. */
  predicate Tidy(s: State) {
    Distinct(s.list) && (s.list != [] ==> s.active)
  }

  /** What an announcement does to any device in the list. */
  lemma UpdateSeen(s: State, a: Descriptor, now: nat, d: Descriptor)
    requires Tidy(s)
    ensures var r := Update(s, a, now);
            && Tidy(r.state)
            && Seen(r.state.list, 0, d) == (if Equivalent(a, d) then Some(now % DAY) else Seen(s.list, 0, d))
  {
    var i := Find(s.list, 0, a);
    FindSeen(s.list, a);
    if Equivalent(a, d) {
      EquivalentBoth(a, d, s.list);
    }
    if i < |s.list| {
      SeenUpdate(s.list, 0, i, now % DAY, d);
    } else {
      SeenAppend(s.list, 0, Entry(a, now % DAY), d);
    }
  }

  lemma ProcessSeen(s: State, now: nat, timeout: nat, d: Descriptor)
    requires Tidy(s)
    ensures var r, before := Process(s, now, timeout), Seen(s.list, 0, d);
            && Tidy(r.state)
            && Seen(r.state.list, 0, d) == (if before.Some? && !Stale(before.value, now, timeout) then before else None)
  {
    KeptDistinct(s.list, 0, now, timeout);
    KeptSeen(s.list, 0, now, timeout, d);
    if s.list == [] {
      assert Kept(s.list, 0, now, timeout) == [];
    }
  }

  // ----- runs

  predicate TidyAt(events: seq<Event>, n: nat, timeout: nat)
    requires n <= |events|
  {
    Tidy(At(events, n, timeout))
  }

  lemma TidyNext(events: seq<Event>, n: nat, timeout: nat)
    requires n < |events| && TidyAt(events, n, timeout)
    ensures TidyAt(events, n + 1, timeout)
  {
    var s := At(events, n, timeout);
    match events[n]
    case Clear =>
    case Announce(a, now) => UpdateSeen(s, a, now, a);
    case Tick(now) => ProcessSeen(s, now, timeout, NoDescriptor);
  }

  /** On every run: entries are pairwise of different devices, and the timer runs whenever the list is not empty. */
  lemma RunTidy(events: seq<Event>, n: nat, timeout: nat)
    requires n <= |events|
    ensures TidyAt(events, n, timeout)
  {
    assert TidyAt(events, 0, timeout);
    for i := 0 to n
      invariant TidyAt(events, i, timeout)
    {
      TidyNext(events, i, timeout);
    }
  }

  /**
   The timer is started by the announcement of a device that is not listed, and stopped by a
   tick that leaves nothing on the list; clearing the list does not touch it.
   */
  lemma TimerChanges(s: State, e: Event, timeout: nat)
    ensures Step(s, e, timeout).state.active <==>
            (e.Announce? && !Listed(s, e.d)) || (s.active && !(e.Tick? && Step(s, e, timeout).state.list == []))
  {
    if e.Announce? {
      FindSeen(s.list, e.d);
    }
  }

  /** Before the first announcement it does not run. */
  lemma {:induction false} TimerStartsOff(events: seq<Event>, n: nat, timeout: nat)
    requires n <= |events| && forall i :: 0 <= i < n ==> !events[i].Announce?
    ensures !At(events, n, timeout).active
  {
    if n > 0 {
      TimerStartsOff(events, n - 1, timeout);
      TimerChanges(At(events, n - 1, timeout), events[n - 1], timeout);
    }
  }

  /** When the device was last announced since the last clear. */
  function LastAnnounced(events: seq<Event>, n: nat, d: Descriptor): Option<nat>
    requires n <= |events|
  {
    if n == 0 then None
    else
      match events[n - 1]
      case Clear => None
      case Tick(_) => LastAnnounced(events, n - 1, d)
      case Announce(a, now) => if Equivalent(a, d) then Some(now) else LastAnnounced(events, n - 1, d)
  }

  /** The moment of the last tick. */
  function LastTick(events: seq<Event>, n: nat): Option<nat>
    requires n <= |events|
  {
    if n == 0 then None
    else if events[n - 1].Tick? then Some(events[n - 1].now)
    else LastTick(events, n - 1)
  }

  /** Ticks come in order. */
  predicate Ordered(events: seq<Event>) {
    forall n {:trigger LastTick(events, n)} :: 0 <= n < |events| && events[n].Tick? && LastTick(events, n).Some? ==>
      LastTick(events, n).value <= events[n].now
  }

  /** An entry carries the time of day of the last announcement. */
  predicate Remembers(events: seq<Event>, n: nat, timeout: nat, d: Descriptor)
    requires n <= |events|
  {
    var seen, last := Seen(At(events, n, timeout).list, 0, d), LastAnnounced(events, n, d);
    Tidy(At(events, n, timeout)) && (seen.Some? ==> last.Some? && seen.value == last.value % DAY)
  }

  lemma RemembersNext(events: seq<Event>, n: nat, timeout: nat, d: Descriptor)
    requires n < |events| && Remembers(events, n, timeout, d)
    ensures Remembers(events, n + 1, timeout, d)
  {
    var s := At(events, n, timeout);
    match events[n]
    case Clear =>
    case Announce(a, now) => UpdateSeen(s, a, now, d);
    case Tick(now) => ProcessSeen(s, now, timeout, d);
  }

  lemma RunRemembers(events: seq<Event>, n: nat, timeout: nat, d: Descriptor)
    requires n <= |events|
    ensures Remembers(events, n, timeout, d)
  {
    assert Remembers(events, 0, timeout, d);
    for i := 0 to n
      invariant Remembers(events, i, timeout, d)
    {
      RemembersNext(events, i, timeout, d);
    }
  }

  /** A tick keeps a device exactly when its last announcement does not look too old. */
  lemma TickListed(events: seq<Event>, n: nat, timeout: nat, d: Descriptor)
    requires n < |events| && events[n].Tick?
    ensures var last := LastAnnounced(events, n, d);
            Listed(At(events, n + 1, timeout), d) <==>
            Listed(At(events, n, timeout), d) && last.Some? && !Stale(last.value % DAY, events[n].now, timeout)
  {
    RunRemembers(events, n, timeout, d);
    ProcessSeen(At(events, n, timeout), events[n].now, timeout, d);
  }

  /** After a tick the device is listed exactly when it was announced no longer ago than the timeout. */
  predicate RightAt(events: seq<Event>, n: nat, timeout: nat, d: Descriptor)
    requires n < |events|
  {
    var last := LastAnnounced(events, n, d);
    events[n].Tick? ==>
      (Listed(At(events, n + 1, timeout), d) <==> last.Some? && last.value >= events[n].now - timeout)
  }

  /** A tick that finds the device listed has its threshold on the day of the last announcement. */
  predicate SameDayAt(events: seq<Event>, n: nat, timeout: nat, d: Descriptor)
    requires n < |events|
  {
    var last := LastAnnounced(events, n, d);
    events[n].Tick? && Listed(At(events, n, timeout), d) && last.Some? ==>
      last.value / DAY == (events[n].now - timeout) / DAY
  }

  /** A device that is not listed was not announced, or a tick has found it too old. */
  predicate Missing(events: seq<Event>, n: nat, timeout: nat, d: Descriptor)
    requires n <= |events|
  {
    var last, tick := LastAnnounced(events, n, d), LastTick(events, n);
    !Listed(At(events, n, timeout), d) ==> last.None? || (tick.Some? && last.value < tick.value - timeout)
  }

  lemma RightTick(events: seq<Event>, n: nat, timeout: nat, d: Descriptor)
    requires n < |events| && events[n].Tick? && Ordered(events)
    requires Missing(events, n, timeout, d) && SameDayAt(events, n, timeout, d)
    ensures RightAt(events, n, timeout, d)
  {
    var last, now := LastAnnounced(events, n, d), events[n].now;
    TickListed(events, n, timeout, d);
    if Listed(At(events, n, timeout), d) {
      if last.Some? {
        SameDay(last.value, now, timeout);
      }
    } else {
      assert LastTick(events, n).Some? ==> LastTick(events, n).value <= now;
    }
  }

  lemma MissingNext(events: seq<Event>, n: nat, timeout: nat, d: Descriptor)
    requires n < |events| && Ordered(events)
    requires Missing(events, n, timeout, d) && SameDayAt(events, n, timeout, d)
    ensures Missing(events, n + 1, timeout, d)
  {
    var s := At(events, n, timeout);
    RunRemembers(events, n, timeout, d);
    match events[n]
    case Clear =>
    case Announce(a, now) => UpdateSeen(s, a, now, d);
    case Tick(now) => RightTick(events, n, timeout, d);
  }

  lemma RunMissing(events: seq<Event>, n: nat, timeout: nat, d: Descriptor)
    requires n <= |events| && Ordered(events)
    requires forall m {:trigger SameDayAt(events, m, timeout, d)} :: 0 <= m < n ==> SameDayAt(events, m, timeout, d)
    ensures Missing(events, n, timeout, d)
  {
    for i := 0 to n
      invariant Missing(events, i, timeout, d)
    {
      assert SameDayAt(events, i, timeout, d);
      MissingNext(events, i, timeout, d);
    }
  }

  /** Ticks come less than a day after the last announcement of a device they find listed. */
  predicate Frequent(events: seq<Event>, timeout: nat, d: Descriptor) {
    forall n {:trigger SameDayAt(events, n, timeout, d)} :: 0 <= n < |events| && events[n].Tick? ==>
      var last := LastAnnounced(events, n, d);
      Listed(At(events, n, timeout), d) && last.Some? ==> last.value <= events[n].now < last.value + DAY
  }

  /**
   On every run with ticks in order and less than a day behind the announcements: the list
   is right about a device after every tick if and only if no tick finds the device listed
   with the threshold on another day than the announcement.
   */
  lemma HistoryExact(events: seq<Event>, timeout: nat, d: Descriptor)
    requires Ordered(events) && Frequent(events, timeout, d) && timeout < DAY
    ensures (forall n {:trigger RightAt(events, n, timeout, d)} ::
               0 <= n < |events| ==> RightAt(events, n, timeout, d)) <==>
            (forall n {:trigger SameDayAt(events, n, timeout, d)} ::
               0 <= n < |events| ==> SameDayAt(events, n, timeout, d))
  {
    if forall n {:trigger SameDayAt(events, n, timeout, d)} :: 0 <= n < |events| ==> SameDayAt(events, n, timeout, d) {
      forall n {:trigger RightAt(events, n, timeout, d)} | 0 <= n < |events| ensures RightAt(events, n, timeout, d) {
        if events[n].Tick? {
          RunMissing(events, n, timeout, d);
          assert SameDayAt(events, n, timeout, d);
          RightTick(events, n, timeout, d);
        }
      }
    } else {
      var n :| 0 <= n < |events| && !SameDayAt(events, n, timeout, d);
      VerdictExact(LastAnnounced(events, n, d).value, events[n].now, timeout);
      TickListed(events, n, timeout, d);
      assert !RightAt(events, n, timeout, d);
    }
  }

  // ----- runs within a day

  /** All announcements and all thresholds fall on one day. */
  predicate OneDay(events: seq<Event>, timeout: nat, day: int) {
    forall n {:trigger events[n]} :: 0 <= n < |events| ==>
      match events[n]
      case Announce(_, now) => now / DAY == day
      case Tick(now) => (now - timeout) / DAY == day
      case Clear => true
  }

  lemma {:induction false} LastOnDay(events: seq<Event>, n: nat, timeout: nat, day: int, d: Descriptor)
    requires n <= |events| && OneDay(events, timeout, day)
    ensures LastAnnounced(events, n, d).Some? ==> LastAnnounced(events, n, d).value / DAY == day
  {
    if n > 0 {
      LastOnDay(events, n - 1, timeout, day, d);
    }
  }

  /**
   While the time of day does not wrap, after every tick the list holds exactly the
   devices announced since the last clear and no longer ago than the timeout.
   */
  lemma ListIsHistory(events: seq<Event>, n: nat, timeout: nat, day: int, d: Descriptor)
    requires n < |events| && events[n].Tick? && Ordered(events) && OneDay(events, timeout, day)
    ensures RightAt(events, n, timeout, d)
  {
    forall m {:trigger SameDayAt(events, m, timeout, d)} | 0 <= m <= n ensures SameDayAt(events, m, timeout, d) {
      LastOnDay(events, m, timeout, day, d);
    }
    RunMissing(events, n, timeout, d);
    RightTick(events, n, timeout, d);
  }
}
