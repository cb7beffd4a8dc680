/**
 The list of announcing devices. Entries remember the time of day of the last
 announcement, and a timer drops those that have been silent for too long.
 */
module DeviceList {
  import opened Descriptors

  /** Milliseconds of a day, after which the time of day starts again. */
  const DAY := 86400000

  datatype Entry = Entry(d: Descriptor, lastSeen: nat)

  /**
   What a reference to a slot of the vector reads once the entry in it is removed: the entry
   that has moved down into the slot, or a destroyed slot past the end. Reading that one is
   undefined; `d` is what it held last, and what it still reads if nothing has overwritten it.
   */
  datatype Slot = Holds(d: Descriptor) | Destroyed(d: Descriptor)

  datatype Signal = Appeared(d: Descriptor) | Vanished(slot: Slot)

  datatype State = State(list: seq<Entry>, active: bool)

  /** Moments are counted in milliseconds without end; the program reads their time of day. */
  datatype Event = Announce(d: Descriptor, now: nat) | Tick(now: nat) | Clear

  datatype Effect = Effect(state: State, signals: seq<Signal>)

  const INIT := State([], false)

  function Find(list: seq<Entry>, k: nat, d: Descriptor): (i: nat)
    requires k <= |list|
    ensures k <= i <= |list| && (i < |list| ==> Equivalent(list[i].d, d))
    ensures forall j :: k <= j < i ==> !Equivalent(list[j].d, d)
    decreases |list| - k
  {
    if k == |list| || Equivalent(list[k].d, d) then k else Find(list, k + 1, d)
  }

  function Update(s: State, d: Descriptor, now: nat): Effect {
    var i := Find(s.list, 0, d);
    if i < |s.list| then Effect(s.(list := s.list[i := s.list[i].(lastSeen := now % DAY)]), [])
    else Effect(State(s.list + [Entry(d, now % DAY)], true), [Appeared(d)])
  }

  /** The comparison of the timer: times of day, with the threshold taken back around midnight. */
  predicate Stale(lastSeen: nat, now: nat, timeout: nat) {
    lastSeen < (now - timeout) % DAY
  }

  function Kept(list: seq<Entry>, k: nat, now: nat, timeout: nat): seq<Entry>
    requires k <= |list|
    decreases |list| - k
  {
    if k == |list| then []
    else (if Stale(list[k].lastSeen, now, timeout) then [] else [list[k]]) + Kept(list, k + 1, now, timeout)
  }

  /** The slot of entry `k` after the removal of that entry. */
  function SlotAfter(list: seq<Entry>, k: nat): Slot
    requires k < |list|
  {
    if k + 1 < |list| then Holds(list[k + 1].d) else Destroyed(list[k].d)
  }

  /** The signals of a tick: each one passes the slot on, not the entry. */
  function Gone(list: seq<Entry>, k: nat, now: nat, timeout: nat): seq<Signal>
    requires k <= |list|
    decreases |list| - k
  {
    if k == |list| then []
    else
      (if Stale(list[k].lastSeen, now, timeout) then [Vanished(SlotAfter(list, k))] else [])
      + Gone(list, k + 1, now, timeout)
  }

  function Process(s: State, now: nat, timeout: nat): Effect {
    var kept := Kept(s.list, 0, now, timeout);
    Effect(State(kept, s.active && kept != []), Gone(s.list, 0, now, timeout))
  }

  function Step(s: State, e: Event, timeout: nat): Effect {
    match e
    case Announce(d, now) => Update(s, d, now)
    case Tick(now) => Process(s, now, timeout)
    case Clear => Effect(s.(list := []), [])
  }

  /** The list before event `n`. */
  function At(events: seq<Event>, n: nat, timeout: nat): State
    requires n <= |events|
  {
    if n == 0 then INIT else Step(At(events, n - 1, timeout), events[n - 1], timeout).state
  }
}
