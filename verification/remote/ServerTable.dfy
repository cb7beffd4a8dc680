/**
 The table of connected slots: which entries it holds over a run, what reader names
 resolve to, and what happens when two connects for one reader overlap.
 */
module ServerTable {
  import opened Server

  // ----- shape

  /** Handles are the keys of the table. */
  predicate Keyed(table: seq<Slot>) {
    && (forall i {:trigger table[i]} :: 0 <= i < |table| ==> table[i].handle != "")
    && (forall i, j :: 0 <= i < j < |table| ==> table[i].handle != table[j].handle)
  }

  /** At most one handle for every reader. */
  predicate OnePerReader(table: seq<Slot>) {
    forall i, j :: 0 <= i < j < |table| ==> table[i].reader != table[j].reader
  }

  /** No slot is connected to the reader. */
  predicate Free(table: seq<Slot>, reader: string) {
    forall i {:trigger table[i]} :: 0 <= i < |table| ==> table[i].reader != reader
  }

  lemma InsertedHolds(table: seq<Slot>, pos: nat, slot: Slot, x: Slot)
    ensures x in Inserted(table, pos, slot) <==> x == slot || x in table
  {
    var p := if pos <= |table| then pos else |table|;
    assert table == table[..p] + table[p..];
  }

  lemma RemovedAt(table: seq<Slot>, handle: string, k: nat)
    requires Has(table, handle) && k < |table| - 1
    ensures |Removed(table, handle)| == |table| - 1
    ensures Removed(table, handle)[k] == table[if k < IndexFrom(table, 0, handle) then k else k + 1]
  {}

  lemma RemovedHolds(table: seq<Slot>, handle: string, x: Slot)
    requires Keyed(table)
    ensures x in Removed(table, handle) <==> x in table && x.handle != handle
  {
    var i, r := IndexFrom(table, 0, handle), Removed(table, handle);
    if i < |table| {
      if x in r {
        var k :| 0 <= k < |r| && r[k] == x;
        RemovedAt(table, handle, k);
      }
      if x in table && x.handle != handle {
        var k :| 0 <= k < |table| && table[k] == x;
        RemovedAt(table, handle, if k < i then k else k - 1);
      }
    }
  }

  lemma RemovedKeeps(table: seq<Slot>, handle: string)
    requires Keyed(table)
    ensures Keyed(Removed(table, handle)) && (OnePerReader(table) ==> OnePerReader(Removed(table, handle)))
  {
    if Has(table, handle) {
      var i, r := IndexFrom(table, 0, handle), Removed(table, handle);
      forall k | 0 <= k < |r| ensures r[k].handle != "" {
        RemovedAt(table, handle, k);
      }
      forall k, j | 0 <= k < j < |r|
        ensures r[k].handle != r[j].handle && (OnePerReader(table) ==> r[k].reader != r[j].reader)
      {
        RemovedAt(table, handle, k);
        RemovedAt(table, handle, j);
      }
    }
  }

  lemma InsertedAt(table: seq<Slot>, pos: nat, slot: Slot, k: nat)
    requires k <= |table|
    ensures var p := if pos <= |table| then pos else |table|;
            |Inserted(table, pos, slot)| == |table| + 1
            && Inserted(table, pos, slot)[k] == if k < p then table[k] else if k == p then slot else table[k - 1]
  {}

  lemma InsertedKeyed(table: seq<Slot>, pos: nat, slot: Slot)
    requires Keyed(table) && !Has(table, slot.handle) && slot.handle != ""
    ensures Keyed(Inserted(table, pos, slot))
  {
    forall k | 0 <= k <= |table| ensures Inserted(table, pos, slot)[k].handle != "" {
      InsertedAt(table, pos, slot, k);
    }
    forall i, j | 0 <= i < j <= |table|
      ensures Inserted(table, pos, slot)[i].handle != Inserted(table, pos, slot)[j].handle
    {
      InsertedAt(table, pos, slot, i);
      InsertedAt(table, pos, slot, j);
    }
  }

  /** A granted connect keeps one handle per reader exactly when the reader had none. */
  lemma GrantExact(table: seq<Slot>, pos: nat, slot: Slot)
    requires OnePerReader(table)
    ensures OnePerReader(Inserted(table, pos, slot)) <==> Free(table, slot.reader)
  {
    var t := Inserted(table, pos, slot);
    var p := if pos <= |table| then pos else |table|;
    forall k | 0 <= k <= |table| ensures t[k] == if k < p then table[k] else if k == p then slot else table[k - 1] {
      InsertedAt(table, pos, slot, k);
    }
    if !Free(table, slot.reader) {
      var i :| 0 <= i < |table| && table[i].reader == slot.reader;
      assert t[if i < p then i else i + 1] == table[i] && t[p] == slot;
    }
  }

  /** The reader has at most one entry. */
  predicate AtMostOne(table: seq<Slot>, reader: string) {
    forall i, j :: 0 <= i < j < |table| ==> table[i].reader != reader || table[j].reader != reader
  }

  /** What the loss of a card takes out of the table: everything of that reader, if it is one entry. */
  lemma LossHolds(table: seq<Slot>, reader: string, x: Slot)
    requires Keyed(table) && AtMostOne(table, reader)
    ensures x in Removed(table, HandleFor(table, reader)) <==> x in table && x.reader != reader
  {
    RemovedHolds(table, HandleFor(table, reader), x);
    var i := ReaderFrom(table, 0, reader);
    if x in table {
      var k :| 0 <= k < |table| && table[k] == x;
      if i < |table| {
        assert table[i].reader == reader && table[i].handle == HandleFor(table, reader);
        assert x.handle == table[i].handle ==> k == i;
        assert x.reader == reader ==> k == i;
      }
    }
  }

  /** And of several entries all but one stay. */
  lemma LossLeaves(table: seq<Slot>, reader: string) returns (x: Slot)
    requires Keyed(table) && !AtMostOne(table, reader)
    ensures x in Removed(table, HandleFor(table, reader)) && x.reader == reader
  {
    var i, j :| 0 <= i < j < |table| && table[i].reader == reader && table[j].reader == reader;
    x := table[j];
    var first := ReaderFrom(table, 0, reader);
    assert first <= i && table[first].handle != x.handle;
    RemovedHolds(table, HandleFor(table, reader), x);
  }

  // ----- names

  lemma HasExact(table: seq<Slot>, handle: string)
    ensures Has(table, handle) <==> exists i :: 0 <= i < |table| && table[i].handle == handle
  {
    if Has(table, handle) {
      assert table[IndexFrom(table, 0, handle)].handle == handle;
    }
  }

  /**
   A reader name resolves to the handle of its slot, and a handle to itself, so both
   address the same entry; a name that is itself a key is taken as the key.
   */
  lemma NameMeansHandle(table: seq<Slot>, i: nat)
    requires Keyed(table) && OnePerReader(table) && i < |table|
    ensures Resolve(table, table[i].handle) == table[i].handle
    ensures Resolve(table, table[i].reader) == table[i].handle
            <==> !Has(table, table[i].reader) || table[i].reader == table[i].handle
  {
    HasExact(table, table[i].handle);
    var j := ReaderFrom(table, 0, table[i].reader);
    assert j == i;
  }

  /** Requests by reader name and by handle are treated alike, modifying the PIN excepted. */
  lemma ByNameOrByHandle(s: State, i: nat, apdu: seq<Byte>, env: Env)
    requires Keyed(s.table) && OnePerReader(s.table) && i < |s.table| && !Has(s.table, s.table[i].reader)
    ensures var name, handle := s.table[i].reader, s.table[i].handle;
            && HandleTransmit(s, name, apdu) == HandleTransmit(s, handle, apdu)
            && HandleDisconnect(s, name) == HandleDisconnect(s, handle)
            && HandlePace(s, name, env).sent == HandlePace(s, handle, env).sent
            && (env.pinPad ==>
                  && HandleModifyPin(s, name, env) == Answer(s, PinResponse(name, [], InvalidSlotHandle))
                  && HandleModifyPin(s, handle, env).sent == [])
  {
    NameMeansHandle(s.table, i);
    HasExact(s.table, s.table[i].handle);
  }

  // ----- runs

  /** The event hands out this slot. */
  predicate Grants(e: Event, sent: seq<Sent>, slot: Slot) {
    e.ConnectDone? && e.reader == slot.reader && |sent| == 1 && sent[0].out == ConnectResponse(slot.handle, Null)
  }

  /** The event takes this slot back: the client disconnects it, the card goes, or the channel closes. */
  predicate Releases(s: State, e: Event, sent: seq<Sent>, slot: Slot) {
    || e.Closed?
    || (e.ReaderChanged? && s.subscribed && !e.info.eid && e.info.name == slot.reader)
    || (e.Received? && e.msg.Disconnect? && |sent| == 1 && sent[0].out == DisconnectResponse(slot.handle, Null))
  }

  predicate GrantedAt(events: seq<Event>, i: nat, slot: Slot)
    requires i < |events|
  {
    Grants(events[i], SentAt(events, i), slot)
  }

  predicate ReleasedAt(events: seq<Event>, i: nat, slot: Slot)
    requires i < |events|
  {
    Releases(At(events, i), events[i], SentAt(events, i), slot)
  }

  /** The slot was handed out at some event before `n` and not taken back since. */
  predicate Live(events: seq<Event>, n: nat, slot: Slot)
    requires n <= |events|
  {
    exists i {:trigger GrantedAt(events, i, slot)} :: 0 <= i < n && GrantedAt(events, i, slot)
      && forall j {:trigger ReleasedAt(events, j, slot)} :: i < j < n ==> !ReleasedAt(events, j, slot)
  }

  lemma LiveStep(events: seq<Event>, n: nat, slot: Slot)
    requires n < |events|
    ensures Live(events, n + 1, slot) <==>
            GrantedAt(events, n, slot) || (Live(events, n, slot) && !ReleasedAt(events, n, slot))
  {
    if GrantedAt(events, n, slot) {
      assert Live(events, n + 1, slot);
    } else if Live(events, n + 1, slot) {
      var i :| 0 <= i < n + 1 && GrantedAt(events, i, slot)
               && forall j {:trigger ReleasedAt(events, j, slot)} :: i < j < n + 1 ==> !ReleasedAt(events, j, slot);
      assert i < n && !ReleasedAt(events, n, slot);
    }
  }

  // ----- one event

  predicate CardGone(s: State, e: Event) {
    e.ReaderChanged? && s.subscribed && !e.info.eid
  }

  /** A card that goes finds at most one entry of its reader. */
  predicate FindsOne(s: State, e: Event) {
    CardGone(s, e) ==> AtMostOne(s.table, e.info.name)
  }

  lemma StepKeyed(s: State, e: Event)
    requires Keyed(s.table) && Enabled(s, e)
    ensures Keyed(Step(s, e).state.table)
  {
    match e
    case Received(msg, context, env) =>
      if Admitted(s, msg, context) && msg.Disconnect? {
        RemovedKeeps(s.table, Resolve(s.table, msg.slot));
      }
    case ConnectDone(reader, ok, handle, pos) =>
      if ok {
        InsertedKeyed(s.table, pos, Slot(handle, reader));
      }
    case ReaderChanged(info, _) => RemovedKeeps(s.table, HandleFor(s.table, info.name));
    case _ =>
  }

  /** Messages other than a disconnect leave the table alone. */
  lemma HandleTable(s: State, msg: Msg, env: Env)
    requires !msg.Disconnect?
    ensures Handle(s, msg, env).state.table == s.table
  {}

  lemma DisconnectTable(s: State, name: string, slot: Slot)
    requires Keyed(s.table)
    ensures var r := HandleDisconnect(s, name);
            slot in r.state.table <==>
            slot in s.table && !(|r.sent| == 1 && r.sent[0].out == DisconnectResponse(slot.handle, Null))
  {
    var handle := Resolve(s.table, name);
    RemovedHolds(s.table, handle, slot);
    if !Has(s.table, handle) {
      assert HandleDisconnect(s, name).sent[0].out.minor == InvalidSlotHandle;
    }
  }

  lemma ReceivedTable(s: State, e: Event, slot: Slot)
    requires Keyed(s.table) && e.Received?
    ensures var r := Step(s, e);
            slot in r.state.table <==> slot in s.table && !Releases(s, e, r.sent, slot)
  {
    if Admitted(s, e.msg, e.context) {
      if e.msg.Disconnect? {
        DisconnectTable(s, e.msg.slot, slot);
      } else {
        HandleTable(s, e.msg, e.env);
      }
    } else {
      assert Step(s, e).state.table == s.table;
      assert e.msg.Disconnect? ==> Step(s, e).sent == [];
    }
  }

  lemma ConnectedTable(s: State, e: Event, slot: Slot)
    requires e.ConnectDone?
    ensures var r := Step(s, e);
            slot in r.state.table <==> Grants(e, r.sent, slot) || slot in s.table
  {
    if e.ok {
      InsertedHolds(s.table, e.pos, Slot(e.handle, e.reader), slot);
    }
  }

  /** One event: a slot is in the table afterwards if it was granted, or was there and is not released. */
  lemma StepTable(s: State, e: Event, slot: Slot)
    requires Keyed(s.table) && FindsOne(s, e)
    ensures var r := Step(s, e);
            slot in r.state.table <==> Grants(e, r.sent, slot) || (slot in s.table && !Releases(s, e, r.sent, slot))
  {
    match e
    case Received(_, _, _) => ReceivedTable(s, e, slot);
    case ConnectDone(_, _, _, _) => ConnectedTable(s, e, slot);
    case ReaderChanged(info, _) =>
      if CardGone(s, e) {
        LossHolds(s.table, info.name, slot);
      }
    case _ =>
  }

  // ----- the table over a run

  predicate KeyedAt(events: seq<Event>, n: nat)
    requires n <= |events|
  {
    Keyed(At(events, n).table)
  }

  lemma RunKeyed(events: seq<Event>, n: nat)
    requires IsRun(events) && n <= |events|
    ensures KeyedAt(events, n)
  {
    InitKeyed(events);
    for i := 0 to n
      invariant KeyedAt(events, i)
    {
      KeyedNext(events, i);
    }
  }

  lemma InitKeyed(events: seq<Event>)
    ensures KeyedAt(events, 0)
  {}

  lemma KeyedNext(events: seq<Event>, n: nat)
    requires IsRun(events) && n < |events| && KeyedAt(events, n)
    ensures KeyedAt(events, n + 1)
  {
    assert EnabledAt(events, n);
    StepKeyed(At(events, n), events[n]);
  }

  /** Before event `n` the table holds exactly the slots granted and not released since. */
  ghost predicate Exact(events: seq<Event>, n: nat)
    requires n <= |events|
  {
    forall slot {:trigger Live(events, n, slot)} :: slot in At(events, n).table <==> Live(events, n, slot)
  }

  predicate FindsOneAt(events: seq<Event>, n: nat)
    requires n < |events|
  {
    FindsOne(At(events, n), events[n])
  }

  lemma HeldAt(events: seq<Event>, n: nat, slot: Slot)
    requires IsRun(events) && n < |events| && FindsOneAt(events, n)
    ensures slot in At(events, n + 1).table <==>
            GrantedAt(events, n, slot) || (slot in At(events, n).table && !ReleasedAt(events, n, slot))
  {
    RunKeyed(events, n);
    assert EnabledAt(events, n);
    StepTable(At(events, n), events[n], slot);
  }

  lemma ExactAt(events: seq<Event>, n: nat)
    requires IsRun(events) && n < |events| && Exact(events, n) && FindsOneAt(events, n)
    ensures Exact(events, n + 1)
  {
    var next := n + 1;
    forall slot {:trigger Live(events, next, slot)}
      ensures slot in At(events, next).table <==> Live(events, next, slot)
    {
      HeldAt(events, n, slot);
      LiveStep(events, n, slot);
    }
  }

  /** A card that goes and finds two entries leaves one that is not live any more. */
  lemma NotExactAt(events: seq<Event>, n: nat)
    requires IsRun(events) && n < |events| && !FindsOneAt(events, n)
    ensures !Exact(events, n + 1)
  {
    var s, e := At(events, n), events[n];
    RunKeyed(events, n);
    var x := LossLeaves(s.table, e.info.name);
    assert x in At(events, n + 1).table && ReleasedAt(events, n, x) && !GrantedAt(events, n, x);
    LiveStep(events, n, x);
  }

  lemma RunExact(events: seq<Event>, n: nat)
    requires IsRun(events) && n <= |events|
             && forall m {:trigger FindsOneAt(events, m)} :: 0 <= m < n ==> FindsOneAt(events, m)
    ensures Exact(events, n)
  {
    for i := 0 to n
      invariant Exact(events, i)
    {
      assert FindsOneAt(events, i);
      ExactAt(events, i);
    }
  }

  /**
   On every run: the table is exact throughout if and only if every card that goes finds at
   most one entry of its reader.
   */
  lemma TableExact(events: seq<Event>)
    requires IsRun(events)
    ensures (forall n {:trigger Exact(events, n)} :: 0 <= n <= |events| ==> Exact(events, n)) <==>
            (forall n {:trigger FindsOneAt(events, n)} :: 0 <= n < |events| ==> FindsOneAt(events, n))
  {
    if forall n {:trigger FindsOneAt(events, n)} :: 0 <= n < |events| ==> FindsOneAt(events, n) {
      forall n | 0 <= n <= |events| ensures Exact(events, n) {
        RunExact(events, n);
      }
    } else {
      var n :| 0 <= n < |events| && !FindsOneAt(events, n);
      NotExactAt(events, n);
    }
  }

  // ----- one handle per reader

  /** A connect that succeeds finds its reader free. */
  predicate GrantsFree(s: State, e: Event) {
    e.ConnectDone? && e.ok ==> Free(s.table, e.reader)
  }

  predicate GrantsFreeAt(events: seq<Event>, n: nat)
    requires n < |events|
  {
    GrantsFree(At(events, n), events[n])
  }

  predicate OneEachAt(events: seq<Event>, n: nat)
    requires n <= |events|
  {
    OnePerReader(At(events, n).table)
  }

  lemma StepOneEach(s: State, e: Event)
    requires Keyed(s.table) && Enabled(s, e) && OnePerReader(s.table)
    ensures OnePerReader(Step(s, e).state.table) <==> GrantsFree(s, e)
  {
    match e
    case Received(msg, context, env) =>
      if Admitted(s, msg, context) && msg.Disconnect? {
        RemovedKeeps(s.table, Resolve(s.table, msg.slot));
      }
    case ConnectDone(reader, ok, handle, pos) =>
      if ok {
        GrantExact(s.table, pos, Slot(handle, reader));
      }
    case ReaderChanged(info, _) => RemovedKeeps(s.table, HandleFor(s.table, info.name));
    case _ =>
  }

  lemma OneEachStep(events: seq<Event>, n: nat)
    requires IsRun(events) && n < |events| && OneEachAt(events, n)
    ensures OneEachAt(events, n + 1) <==> GrantsFreeAt(events, n)
  {
    RunKeyed(events, n);
    assert EnabledAt(events, n);
    StepOneEach(At(events, n), events[n]);
  }

  lemma RunOneEach(events: seq<Event>, n: nat)
    requires IsRun(events) && n <= |events|
    requires forall m {:trigger GrantsFreeAt(events, m)} :: 0 <= m < n ==> GrantsFreeAt(events, m)
    ensures OneEachAt(events, n)
  {
    for i := 0 to n
      invariant OneEachAt(events, i)
    {
      assert GrantsFreeAt(events, i);
      OneEachStep(events, i);
    }
  }

  /**
   On every run: there is at most one handle per reader throughout if and only if every
   connect that succeeds finds its reader without a handle.
   */
  lemma OneHandlePerReader(events: seq<Event>)
    requires IsRun(events)
    ensures (forall n {:trigger OneEachAt(events, n)} :: 0 <= n <= |events| ==> OneEachAt(events, n)) <==>
            (forall n {:trigger GrantsFreeAt(events, n)} :: 0 <= n < |events| ==> GrantsFreeAt(events, n))
  {
    if forall n {:trigger GrantsFreeAt(events, n)} :: 0 <= n < |events| ==> GrantsFreeAt(events, n) {
      forall n | 0 <= n <= |events| ensures OneEachAt(events, n) {
        RunOneEach(events, n);
      }
    } else {
      var n :| 0 <= n < |events| && !GrantsFreeAt(events, n);
      if OneEachAt(events, n) {
        OneEachStep(events, n);
        assert !OneEachAt(events, n + 1);
      }
    }
  }

  // ----- connects that do not overlap

  /** Connects for one reader do not overlap: none is started while another is under way. */
  ghost predicate Apart(events: seq<Event>) {
    forall n {:trigger SingleAt(events, n)} :: 0 <= n <= |events| ==> SingleAt(events, n)
  }

  ghost predicate Single(s: State) {
    forall r {:trigger s.connecting[r]} :: s.connecting[r] <= 1
  }

  ghost predicate SingleAt(events: seq<Event>, n: nat)
    requires n <= |events|
  {
    Single(At(events, n))
  }

  /** No reader whose connect is under way has a handle. */
  ghost predicate Reserved(s: State) {
    Single(s) && forall r {:trigger Free(s.table, r)} :: r in s.connecting ==> Free(s.table, r)
  }

  lemma RemovedFree(table: seq<Slot>, handle: string, reader: string)
    requires Free(table, reader)
    ensures Free(Removed(table, handle), reader)
  {
    var i := IndexFrom(table, 0, handle);
    if i < |table| {
      var r := Removed(table, handle);
      assert forall k :: 0 <= k < |r| ==> r[k] == table[if k < i then k else k + 1];
    }
  }

  lemma RemovedReserved(s: State, handle: string)
    requires Reserved(s)
    ensures Reserved(s.(table := Removed(s.table, handle)))
  {
    forall r | r in s.connecting ensures Free(Removed(s.table, handle), r) {
      RemovedFree(s.table, handle, r);
    }
  }

  lemma ConnectReserves(s: State, slot: string, info: ReaderInfo)
    requires Reserved(s) && Single(HandleConnect(s, slot, info).state)
    ensures Reserved(HandleConnect(s, slot, info).state)
  {
    var t := HandleConnect(s, slot, info).state;
    forall reader | reader in t.connecting ensures Free(s.table, reader) {
      if reader !in s.connecting {
        assert reader == slot;
      }
    }
  }

  lemma GrantReserves(s: State, e: Event)
    requires Reserved(s) && Enabled(s, e) && e.ConnectDone?
    ensures Reserved(Step(s, e).state)
  {
    var t := Step(s, e).state;
    assert s.connecting[e.reader] == 1;
    assert t.connecting == s.connecting - multiset{e.reader} && t.connecting[e.reader] == 0;
    forall r | r in t.connecting ensures Free(t.table, r) {
      assert r in s.connecting && r != e.reader && Free(s.table, r);
      if e.ok {
        forall k | 0 <= k < |t.table| ensures t.table[k].reader != r {
          InsertedAt(s.table, e.pos, Slot(e.handle, e.reader), k);
        }
      }
    }
  }

  lemma HandleReserves(s: State, msg: Msg, env: Env)
    requires Reserved(s) && Single(Handle(s, msg, env).state)
    ensures Reserved(Handle(s, msg, env).state)
  {
    if msg.Connect? {
      ConnectReserves(s, msg.slot, env.info);
    } else if msg.Disconnect? {
      RemovedReserved(s, Resolve(s.table, msg.slot));
    } else {
      assert Handle(s, msg, env).state.table == s.table && Handle(s, msg, env).state.connecting == s.connecting;
    }
  }

  lemma ChangeReserves(s: State, info: ReaderInfo, pinPad: bool)
    requires Reserved(s)
    ensures Reserved(ChangeReader(s, info, pinPad).state)
  {
    RemovedReserved(s, HandleFor(s.table, info.name));
  }

  lemma ReceiveReserves(s: State, msg: Msg, context: string, env: Env)
    requires Reserved(s) && Single(Receive(s, msg, context, env).state)
    ensures Reserved(Receive(s, msg, context, env).state)
  {
    if Admitted(s, msg, context) {
      HandleReserves(s, msg, env);
    } else {
      var t := Receive(s, msg, context, env).state;
      assert t.table == s.table && t.connecting == s.connecting;
    }
  }

  lemma StepReserves(s: State, e: Event)
    requires Reserved(s) && Enabled(s, e) && Single(Step(s, e).state)
    ensures Reserved(Step(s, e).state)
  {
    match e
    case Received(msg, context, env) => ReceiveReserves(s, msg, context, env);
    case ConnectDone(_, _, _, _) => GrantReserves(s, e);
    case ReaderChanged(info, pinPad) => ChangeReserves(s, info, pinPad);
    case _ => assert Step(s, e).state.connecting == s.connecting;
  }

  lemma ReservesAt(events: seq<Event>, n: nat)
    requires IsRun(events) && Apart(events) && n < |events| && Reserved(At(events, n))
    ensures Reserved(At(events, n + 1))
  {
    assert EnabledAt(events, n) && SingleAt(events, n + 1);
    StepReserves(At(events, n), events[n]);
  }

  lemma RunReserves(events: seq<Event>, n: nat)
    requires IsRun(events) && Apart(events) && n <= |events|
    ensures Reserved(At(events, n))
  {
    for i := 0 to n
      invariant Reserved(At(events, i))
    {
      ReservesAt(events, i);
    }
  }

  /**
   In every run in which connects for one reader do not overlap, the table holds exactly
   the slots granted and not released since, with at most one for each reader.
   */
  lemma ApartIsExact(events: seq<Event>, n: nat)
    requires IsRun(events) && Apart(events) && n <= |events|
    ensures OneEachAt(events, n) && Exact(events, n)
  {
    forall m {:trigger GrantsFreeAt(events, m)} | 0 <= m < |events| ensures GrantsFreeAt(events, m) {
      RunReserves(events, m);
      assert EnabledAt(events, m);
    }
    forall m {:trigger FindsOneAt(events, m)} | 0 <= m < |events| ensures FindsOneAt(events, m) {
      RunOneEach(events, m);
    }
    RunOneEach(events, n);
    RunExact(events, n);
  }

  // ----- overlapping connects

  function Ask(slot: string, context: string): Event {
    Received(Connect(slot), context, Env(ReaderInfo(slot, true, true, true, true, 500), [], false, true, "{id}"))
  }

  /** Two connects for one reader, both granted, and then the card is taken away. */
  function Overlap(reader: string, first: string, second: string): seq<Event> {
    [Received(Establish(true), "", Env(ReaderInfo("", false, false, false, false, 0), [], false, false, "{context}")),
     Ask(reader, "{context}"), Ask(reader, "{context}"),
     ConnectDone(reader, true, first, 0), ConnectDone(reader, true, second, 0),
     ReaderChanged(ReaderInfo(reader, true, false, false, true, 500), false)]
  }

  const OPENED := INIT.(context := "{context}", subscribed := true)

  lemma Asked(s: State, reader: string)
    requires s.context == "{context}" && s.table == []
    ensures Step(s, Ask(reader, "{context}")).state == s.(connecting := s.connecting + multiset{reader})
  {}

  lemma Granted(s: State, reader: string, handle: string)
    ensures Step(s, ConnectDone(reader, true, handle, 0)).state
            == s.(connecting := s.connecting - multiset{reader}, table := [Slot(handle, reader)] + s.table)
  {
    assert Inserted(s.table, 0, Slot(handle, reader)) == [Slot(handle, reader)] + s.table;
  }

  lemma OverlapAsked(reader: string, first: string, second: string)
    ensures var events := Overlap(reader, first, second);
            && At(events, 1) == OPENED && At(events, 2) == OPENED.(connecting := multiset{reader})
            && At(events, 3) == OPENED.(connecting := multiset{reader, reader})
  {
    var events := Overlap(reader, first, second);
    assert At(events, 0) == INIT;
    assert At(events, 1) == OPENED;
    Asked(OPENED, reader);
    assert multiset{} + multiset{reader} == multiset{reader};
    Asked(OPENED.(connecting := multiset{reader}), reader);
  }

  lemma OverlapGranted(reader: string, first: string, second: string)
    ensures At(Overlap(reader, first, second), 4) ==
            OPENED.(connecting := multiset{reader}, table := [Slot(first, reader)])
    ensures At(Overlap(reader, first, second), 5) == OPENED.(table := [Slot(second, reader), Slot(first, reader)])
  {
    var events := Overlap(reader, first, second);
    OverlapAsked(reader, first, second);
    FirstGranted(reader, first);
    Next(events, 3);
    SecondGranted(reader, first, second);
    Next(events, 4);
  }

  lemma Next(events: seq<Event>, n: nat)
    requires n < |events|
    ensures At(events, n + 1) == Step(At(events, n), events[n]).state
  {}

  lemma FirstGranted(reader: string, first: string)
    ensures Step(OPENED.(connecting := multiset{reader, reader}), ConnectDone(reader, true, first, 0)).state
            == OPENED.(connecting := multiset{reader}, table := [Slot(first, reader)])
  {
    Granted(OPENED.(connecting := multiset{reader, reader}), reader, first);
    assert multiset{reader, reader} - multiset{reader} == multiset{reader};
    assert [Slot(first, reader)] + [] == [Slot(first, reader)];
  }

  lemma SecondGranted(reader: string, first: string, second: string)
    ensures Step(OPENED.(connecting := multiset{reader}, table := [Slot(first, reader)]),
            ConnectDone(reader, true, second, 0)).state
            == OPENED.(table := [Slot(second, reader), Slot(first, reader)])
  {
    Granted(OPENED.(connecting := multiset{reader}, table := [Slot(first, reader)]), reader, second);
    assert multiset{reader} - multiset{reader} == multiset{};
    assert [Slot(second, reader)] + [Slot(first, reader)] == [Slot(second, reader), Slot(first, reader)];
  }

  lemma OverlapIsRun(reader: string, first: string, second: string)
    requires first != "" && second != "" && first != second
    ensures IsRun(Overlap(reader, first, second))
  {
    var events := Overlap(reader, first, second);
    OverlapAsked(reader, first, second);
    OverlapGranted(reader, first, second);
    assert EnabledAt(events, 0) && EnabledAt(events, 1) && EnabledAt(events, 2);
    assert EnabledAt(events, 3) && EnabledAt(events, 4) && EnabledAt(events, 5);
  }

  /** Without that condition it fails: both connects are granted, and one handle outlives the card. */
  lemma OverlapLeavesHandle(reader: string, first: string, second: string)
    requires first != "" && second != "" && first != second
    ensures var events := Overlap(reader, first, second);
            && IsRun(events) && !Apart(events)
            && At(events, 6).table == [Slot(first, reader)] && ReleasedAt(events, 5, Slot(first, reader))
  {
    var events := Overlap(reader, first, second);
    OverlapAsked(reader, first, second);
    OverlapGranted(reader, first, second);
    assert !SingleAt(events, 3) by {
      assert At(events, 3).connecting[reader] == 2;
    }
    OverlapIsRun(reader, first, second);
    assert At(events, 6) == Step(At(events, 5), events[5]).state;
    assert At(events, 6).table == Removed(At(events, 5).table, second) == [Slot(first, reader)];
  }
}
