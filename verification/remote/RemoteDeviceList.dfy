/**
 The device list as an object: entries and timer, changed in place by announcements and ticks.
 */
module RemoteDeviceLists {
  import opened Descriptors
  import opened DeviceList

  /** The entry behind those kept, and what stands there when it is kept or removed. */
  lemma Front(kept: seq<Entry>, list: seq<Entry>, k: nat)
    requires k < |list|
    ensures var all := kept + list[k..];
            && all[|kept|] == list[k] && all == (kept + [list[k]]) + list[k + 1..]
            && all[..|kept|] + all[|kept| + 1..] == kept + list[k + 1..]
            && (k + 1 < |list| ==> (kept + list[k + 1..])[|kept|] == list[k + 1])
  {}

  /** The first `k` entries leave these entries and these signals. */
  predicate Passed(list: seq<Entry>, k: nat, kept: seq<Entry>, signals: seq<Signal>, now: nat, timeout: nat)
    requires k <= |list|
  {
    && kept + Kept(list, k, now, timeout) == Kept(list, 0, now, timeout)
    && signals + Gone(list, k, now, timeout) == Gone(list, 0, now, timeout)
  }

  lemma PassesOne(list: seq<Entry>, k: nat, kept: seq<Entry>, signals: seq<Signal>, now: nat, timeout: nat)
    requires k < |list| && Passed(list, k, kept, signals, now, timeout)
    ensures if Stale(list[k].lastSeen, now, timeout)
            then Passed(list, k + 1, kept, signals + [Vanished(SlotAfter(list, k))], now, timeout)
            else Passed(list, k + 1, kept + [list[k]], signals, now, timeout)
  {
    var rest, gone := Kept(list, k + 1, now, timeout), Gone(list, k + 1, now, timeout);
    if Stale(list[k].lastSeen, now, timeout) {
      assert signals + ([Vanished(SlotAfter(list, k))] + gone) == (signals + [Vanished(SlotAfter(list, k))]) + gone;
    } else {
      assert kept + ([list[k]] + rest) == (kept + [list[k]]) + rest;
    }
  }

  class RemoteDeviceList {
    const responsiveTimeout: nat
    var responsiveList: seq<Entry>
    var timerActive: bool

    function State(): State
      reads this
    {
      DeviceList.State(responsiveList, timerActive)
    }

    constructor (timeout: nat)
      ensures State() == INIT && responsiveTimeout == timeout
    {
      responsiveTimeout, responsiveList, timerActive := timeout, [], false;
    }

    method OnUpdate(d: Descriptor, now: nat) returns (signals: seq<Signal>)
      modifies this
      ensures Effect(State(), signals) == Update(old(State()), d, now)
    {
      for i := 0 to |responsiveList|
        invariant State() == old(State())
        invariant Find(responsiveList, 0, d) == Find(responsiveList, i, d)
      {
        if Equivalent(responsiveList[i].d, d) {
          responsiveList := responsiveList[i := responsiveList[i].(lastSeen := now % DAY)];
          return [];
        }
      }
      responsiveList := responsiveList + [Entry(d, now % DAY)];
      timerActive := true;
      signals := [Appeared(d)];
    }

    method OnClear()
      modifies this`responsiveList
      ensures Effect(State(), []) == Step(old(State()), Clear, responsiveTimeout)
    {
      responsiveList := [];
    }

    /**
     Removes stale entries while iterating, and stops the timer when nothing is left. The
     signal is sent after the removal, with the slot of the entry.
     */
    method OnProcessUnresponsiveRemoteReaders(now: nat) returns (signals: seq<Signal>)
      modifies this
      ensures Effect(State(), signals) == Process(old(State()), now, responsiveTimeout)
    {
      var threshold := (now - responsiveTimeout) % DAY;
      var i := 0;
      signals := [];
      ghost var list, kept, k := responsiveList, [], 0;
      while i < |responsiveList|
        invariant timerActive == old(timerActive)
        invariant i == |kept| && k <= |list| && responsiveList == kept + list[k..]
        invariant Passed(list, k, kept, signals, now, responsiveTimeout)
        decreases |responsiveList| - i
      {
        var entry := responsiveList[i];
        Front(kept, list, k);
        PassesOne(list, k, kept, signals, now, responsiveTimeout);
        if entry.lastSeen < threshold {
          responsiveList := responsiveList[..i] + responsiveList[i + 1..];
          var slot := if i < |responsiveList| then Holds(responsiveList[i].d) else Destroyed(entry.d);
          signals := signals + [Vanished(slot)];
        } else {
          kept := kept + [entry];
          i := i + 1;
        }
        k := k + 1;
      }
      if responsiveList == [] {
        timerActive := false;
      }
    }
  }
}
