/**
 What each event does to a file, to its connection and to the signal under way; and that a
 connection made while a signal is delivered is not reached by that signal.
 */
module DownloadEffects {
  import opened Options
  import opened Downloads
  import opened DownloadProofs

  // ----- one file

  /** The event starts an update of the file. */
  predicate Starts(s: State, e: Event, f: nat)
    requires f < |s.files|
  {
    && (e == Update(f) || (e == LookupPath(f) && s.files[f].dirty))
    && s.files[f].named && !s.files[f].running
  }

  /** The next listener is the file, still connected, and the signal is about its address. */
  predicate Reaches(s: State, e: Event, f: nat)
    requires f < |s.files|
  {
    && e.DeliverNext? && s.phase.Emitting? && s.phase.todo != [] && s.signals != []
    && s.phase.todo[0].file == f && s.phase.todo[0] in s.listeners
    && s.signals[|s.signals| - 1].request.url == s.files[f].url
  }

  /** The event ends the update of the file: at once, or when the slot for a success is left. */
  predicate Ends(s: State, e: Event, f: nat)
    requires f < |s.files|
  {
    || (Reaches(s, e, f) && s.signals[|s.signals| - 1].kind != Success)
    || (e.LeaveSlot? && s.phase.InSlot? && s.phase.file == f)
  }

  /** It ends without a failure. */
  predicate EndsWell(s: State, e: Event, f: nat)
    requires f < |s.files|
  {
    Ends(s, e, f) && (e.DeliverNext? ==> s.signals[|s.signals| - 1].kind == Unnecessary)
  }

  /**
   The address and the name of a file never change; it runs from the start of an update to its
   end; and its marker is set by marking and taken off by an end that is not a failure.
   */
  lemma FileChanges(s: State, e: Event, f: nat)
    requires f < |s.files|
    ensures |Step(s, e).files| == |s.files|
    ensures var before, after := s.files[f], Step(s, e).files[f];
            && after.url == before.url && after.named == before.named
            && (after.running <==> Starts(s, e, f) || (before.running && !Ends(s, e, f)))
            && (after.dirty <==> (e == MarkDirty(f) && before.named) || (before.dirty && !EndsWell(s, e, f)))
  {}

  /** A file is connected by the start of an update and cut off by its end, and by nothing else. */
  lemma ConnectionChanges(s: State, e: Event, l: Listener)
    requires l.file < |s.files|
    ensures l in Step(s, e).listeners <==>
            (Starts(s, e, l.file) && l.conn == s.conns) || (l in s.listeners && !Ends(s, e, l.file))
  {
    if e.DeliverNext? && s.phase.Emitting? && s.phase.todo != [] && s.signals != [] {
      DisconnectedHolds(s.listeners, 0, s.phase.todo[0].file, l);
    } else if e.LeaveSlot? && s.phase.InSlot? {
      DisconnectedHolds(s.listeners, 0, s.phase.file, l);
    }
    assert s.listeners[0..] == s.listeners;
  }

  // ----- the signal under way

  /**
   A signal starts with everybody connected at that moment. Each delivery takes the first of
   those left, into its slot for a success that reaches it, and leaving the slot goes on with the
   rest. It ends when nobody is left.
   */
  lemma PhaseChanges(s: State, e: Event)
    requires s.signals != [] || s.phase.Idle?
    ensures var after := Step(s, e).phase;
            match s.phase
            case Idle =>
              after == if e.Finished? && s.desk.reply && s.desk.current.Some? then Emitting(s.listeners) else Idle
            case Emitting(todo) =>
              if e.DeliverNext? && todo != [] then
                after == if todo[0].file < |s.files| && Reaches(s, e, todo[0].file)
                            && s.signals[|s.signals| - 1].kind == Success
                         then InSlot(todo[0].file, todo[1..]) else Emitting(todo[1..])
              else after == if e.EndSignal? && todo == [] then Idle else s.phase
            case InSlot(file, todo) =>
              after == if e.LeaveSlot? && file < |s.files| then Emitting(todo) else s.phase
  {}

  /** How many deliveries are left. */
  function Left(phase: Phase): nat {
    match phase
    case Idle => 0
    case Emitting(todo) => |todo|
    case InSlot(_, todo) => |todo|
  }

  /** While a signal is under way no event makes it reach more listeners. */
  lemma DeliveriesEnd(s: State, e: Event)
    requires s.signals != [] && !s.phase.Idle?
    ensures Left(Step(s, e).phase) ==
            if e.DeliverNext? && s.phase.Emitting? && s.phase.todo != [] then Left(s.phase) - 1 else Left(s.phase)
  {
    PhaseChanges(s, e);
  }

  // ----- connections made in between

  predicate OldConns(listeners: seq<Listener>, conns: nat) {
    forall i {:trigger listeners[i]} :: 0 <= i < |listeners| ==> listeners[i].conn < conns
  }

  function Todo(phase: Phase): seq<Listener> {
    match phase
    case Idle => []
    case Emitting(todo) => todo
    case InSlot(_, todo) => todo
  }

  predicate Numbered(s: State) {
    OldConns(s.listeners, s.conns) && OldConns(Todo(s.phase), s.conns)
  }

  lemma {:induction false} DisconnectedOld(listeners: seq<Listener>, k: nat, f: nat, conns: nat)
    requires k <= |listeners| && OldConns(listeners, conns)
    ensures OldConns(Disconnected(listeners, k, f), conns)
    decreases |listeners| - k
  {
    if k < |listeners| {
      DisconnectedOld(listeners, k + 1, f, conns);
    }
  }

  lemma StepNumbered(s: State, e: Event)
    requires Numbered(s)
    ensures Numbered(Step(s, e))
  {
    if e.DeliverNext? && s.phase.Emitting? && s.phase.todo != [] && s.signals != [] {
      DisconnectedOld(s.listeners, 0, s.phase.todo[0].file, s.conns);
    } else if e.LeaveSlot? && s.phase.InSlot? {
      DisconnectedOld(s.listeners, 0, s.phase.file, s.conns);
    }
  }

  predicate NumberedAt(files: seq<File>, events: seq<Event>, n: nat)
    requires n <= |events|
  {
    Numbered(At(files, events, n))
  }

  lemma InitNumbered(files: seq<File>, events: seq<Event>)
    ensures NumberedAt(files, events, 0)
  {}

  lemma NumberedNext(files: seq<File>, events: seq<Event>, n: nat)
    requires n < |events| && NumberedAt(files, events, n)
    ensures NumberedAt(files, events, n + 1)
  {
    StepNumbered(At(files, events, n), events[n]);
  }

  lemma RunNumbered(files: seq<File>, events: seq<Event>, n: nat)
    requires n <= |events|
    ensures NumberedAt(files, events, n)
  {
    InitNumbered(files, events);
    for i := 0 to n
      invariant NumberedAt(files, events, i)
    {
      NumberedNext(files, events, i);
    }
  }

  /**
   On every run a connection made while a signal is delivered is new, and not among those the
   signal still goes to.
   */
  lemma NewConnectionWaits(files: seq<File>, events: seq<Event>, n: nat, f: nat, l: Listener)
    requires n < |events| && f < |At(files, events, n).files| && Starts(At(files, events, n), events[n], f)
    requires l in At(files, events, n + 1).listeners && l !in At(files, events, n).listeners
    ensures l.file == f && l !in Todo(At(files, events, n + 1).phase)
  {
    RunNumbered(files, events, n);
    RunNumbered(files, events, n + 1);
  }
}
