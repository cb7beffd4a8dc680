/**
 The two objects of the client side, with the lists and counters their slots change in place.
 */
module RemoteClients {
  import opened Options
  import opened Descriptors
  import opened Client

  class RemoteClient {
    var remoteConnectorPending: seq<Ticket>
    var errorCounter: map<string, nat>
    var connectedDeviceIds: seq<string>

    constructor ()
      ensures remoteConnectorPending == [] && errorCounter == map[] && connectedDeviceIds == []
    {
      remoteConnectorPending, errorCounter, connectedDeviceIds := [], map[], [];
    }

    /** Finds the first entry for the device and takes it out of the list. */
    method MapToAndTake(d: Descriptor) returns (entry: Option<Ticket>)
      modifies this`remoteConnectorPending
      ensures var i := FirstEquivalent(old(remoteConnectorPending), 0, d);
              && remoteConnectorPending == Without(old(remoteConnectorPending), i)
              && entry == if i < |old(remoteConnectorPending)| then Some(old(remoteConnectorPending)[i]) else None
    {
      for i := 0 to |remoteConnectorPending|
        invariant remoteConnectorPending == old(remoteConnectorPending)
        invariant FirstEquivalent(remoteConnectorPending, 0, d) == FirstEquivalent(remoteConnectorPending, i, d)
      {
        var ticket := remoteConnectorPending[i];
        if Equivalent(ticket.d, d) {
          remoteConnectorPending := remoteConnectorPending[..i] + remoteConnectorPending[i + 1..];
          return Some(ticket);
        }
      }
      entry := None;
    }

    /** Remembers the entry and queues a call for the connector. */
    method EstablishConnection(entry: Ticket) returns (queued: Ticket)
      modifies this`remoteConnectorPending
      ensures remoteConnectorPending == old(remoteConnectorPending) + [entry] && queued == entry
    {
      remoteConnectorPending := remoteConnectorPending + [entry];
      queued := entry;
    }

    method OnRemoteDispatcherCreated(d: Descriptor) returns (entry: Option<Ticket>)
      modifies this
      ensures Reception(remoteConnectorPending, errorCounter, entry, false)
              == Receive(old(remoteConnectorPending), old(errorCounter), d, Created)
      ensures connectedDeviceIds == old(connectedDeviceIds) + (if entry.Some? then [Id(entry.value.d)] else [])
    {
      errorCounter := errorCounter[Id(d) := 0];
      entry := MapToAndTake(d);
      if entry.None? {
        return;
      }
      connectedDeviceIds := connectedDeviceIds + [Id(entry.value.d)];
    }

    method OnRemoteDispatcherError(d: Descriptor, code: Code) returns (entry: Option<Ticket>, removed: bool)
      modifies this`remoteConnectorPending, this`errorCounter
      ensures Reception(remoteConnectorPending, errorCounter, entry, removed)
              == Receive(old(remoteConnectorPending), old(errorCounter), d, Failed(code))
    {
      removed := false;
      entry := MapToAndTake(d);
      if entry.None? {
        return;
      }
      var id := Id(d);
      var counters := errorCounter;
      if code == Refused || code == NoSupportedApiLevel {
        counters := counters[id := StrikesOf(counters, id) + 1];
        if counters[id] >= STRIKES {
          removed := true;
          counters := counters[id := 0];
        }
      } else {
        counters := counters[id := 0];
      }
      errorCounter := counters;
    }
  }

  class RemoteConnector {
    var pendingRequests: seq<Ticket>

    constructor ()
      ensures pendingRequests == []
    {
      pendingRequests := [];
    }

    /** Drops every request with this descriptor while iterating over the list. */
    method RemoveRequest(d: Descriptor)
      modifies this
      ensures pendingRequests == Dropped(old(pendingRequests), 0, d)
    {
      var kept: seq<Ticket>, i := [], 0;
      while i < |pendingRequests|
        invariant 0 <= i <= |pendingRequests| && pendingRequests == old(pendingRequests)
        invariant kept + Dropped(pendingRequests, i, d) == Dropped(pendingRequests, 0, d)
      {
        if pendingRequests[i].d != d {
          kept := kept + [pendingRequests[i]];
        }
        i := i + 1;
      }
      pendingRequests := kept;
    }

    /** Refuses the request at once, or starts building a connection. */
    method OnConnectRequest(t: Ticket) returns (outcome: Option<Outcome>)
      modifies this
      ensures forall s: State :: s.queued != [] && s.queued[0] == t && s.requests == old(pendingRequests) ==>
                TakeStep(s) == s.(queued := s.queued[1..], requests := pendingRequests,
                                  transit := s.transit + (if outcome.Some? then [outcome.value] else []))
    {
      if t.d.NoDescriptor? || t.d.name == "" {
        return Some(Outcome(t, Failed(InvalidRequest)));
      }
      if V0 !in t.d.versions {
        return Some(Outcome(t, Failed(NoSupportedApiLevel)));
      }
      pendingRequests := pendingRequests + [t];
      outcome := None;
    }

    /** A connection is built, refused, broken or timed out. */
    method OnFinished(i: nat, r: Result) returns (outcome: Outcome)
      requires i < |pendingRequests|
      modifies this
      ensures forall s: State :: s.requests == old(pendingRequests) ==>
                FinishStep(s, i, r) == s.(requests := pendingRequests, transit := s.transit + [outcome])
    {
      var t := pendingRequests[i];
      RemoveRequest(t.d);
      outcome := Outcome(t, r);
    }
  }
}
