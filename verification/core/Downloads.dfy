/**
 The downloader and the updatable files that use it, as one event-driven system. Signals
 are delivered listener by listener, and what a listener calls back runs in between.
 */
module Downloads {
  import opened Options

  datatype Request = Request(no: nat, url: string)

  /** How a download ends, and the signal with which the downloader says so. */
  datatype Kind = Success | Failure | Unnecessary
  datatype Signal = Signal(request: Request, kind: Kind)

  datatype Reply = Reply(certificateOk: bool, status: nat)

  const HTTP_OK := 200
  const HTTP_NOT_MODIFIED := 304

  function KindOf(r: Reply): Kind {
    if !r.certificateOk then Failure
    else if r.status == HTTP_OK then Success
    else if r.status == HTTP_NOT_MODIFIED then Unnecessary
    else Failure
  }

  // ----- the downloader

  /** Pending requests, the current request, and whether a reply is under way for it. */
  datatype Desk = Desk(queue: seq<Request>, current: Option<Request>, reply: bool)

  function StartIfPending(d: Desk): Desk {
    if d.reply || d.queue == [] then d else Desk(d.queue[1..], Some(d.queue[0]), true)
  }

  function Schedule(d: Desk, r: Request): Desk {
    StartIfPending(d.(queue := d.queue + [r]))
  }

  /** The scope guard at the end of a download. */
  function Release(d: Desk): Desk {
    StartIfPending(d.(reply := false))
  }

  // ----- the files

  datatype File = File(url: string, named: bool, running: bool, dirty: bool)

  /** A connection of a file to the signals of the downloader; a new connection gets a new number. */
  datatype Listener = Listener(file: nat, conn: nat)

  /** Between events; while a signal is delivered to those connected at its start; or inside the slot of a file. */
  datatype Phase = Idle | Emitting(todo: seq<Listener>) | InSlot(file: nat, todo: seq<Listener>)

  datatype State = State(desk: Desk, scheduled: seq<Request>, signals: seq<Signal>,
                         files: seq<File>, listeners: seq<Listener>, conns: nat, phase: Phase)

  datatype Event = Download(url: string) | Update(file: nat) | LookupPath(file: nat) | MarkDirty(file: nat)
                 | Finished(reply: Reply) | DeliverNext | LeaveSlot | EndSignal

  function Init(files: seq<File>): State {
    State(Desk([], None, false), [], [], files, [], 0, Idle)
  }

  function DownloadStep(s: State, url: string): State {
    var r := Request(|s.scheduled|, url);
    s.(desk := Schedule(s.desk, r), scheduled := s.scheduled + [r])
  }

  function UpdateStep(s: State, f: nat): State
    requires f < |s.files|
  {
    var file := s.files[f];
    if file.running || !file.named then s
    else
      DownloadStep(s.(files := s.files[f := file.(running := true)],
                      listeners := s.listeners + [Listener(f, s.conns)], conns := s.conns + 1), file.url)
  }

  function Disconnected(listeners: seq<Listener>, k: nat, f: nat): seq<Listener>
    requires k <= |listeners|
    decreases |listeners| - k
  {
    if k == |listeners| then []
    else (if listeners[k].file == f then [] else [listeners[k]]) + Disconnected(listeners, k + 1, f)
  }

  /** The file is done: connections cut, the marker cleared unless the download failed, not running any more. */
  function Cleanup(s: State, f: nat, kind: Kind): State
    requires f < |s.files|
  {
    s.(listeners := Disconnected(s.listeners, 0, f),
       files := s.files[f := s.files[f].(running := false, dirty := s.files[f].dirty && kind == Failure)])
  }

  /** The reply has finished: the signal starts, to be delivered to the listeners of this moment. */
  function FinishStep(s: State, r: Reply): State
    requires s.desk.current.Some?
  {
    s.(signals := s.signals + [Signal(s.desk.current.value, KindOf(r))], phase := Emitting(s.listeners))
  }

  /** The next listener, unless it has been cut off since, or the signal is about another address. */
  function DeliverStep(s: State): State
    requires s.phase.Emitting? && s.phase.todo != [] && s.signals != []
  {
    var l, rest, signal := s.phase.todo[0], s.phase.todo[1..], s.signals[|s.signals| - 1];
    if l !in s.listeners || l.file >= |s.files| || s.files[l.file].url != signal.request.url then
      s.(phase := Emitting(rest))
    else if signal.kind == Success then s.(phase := InSlot(l.file, rest))
    else Cleanup(s.(phase := Emitting(rest)), l.file, signal.kind)
  }

  /** Steps that have nothing to work on leave the state alone. */
  function Step(s: State, e: Event): State {
    match e
    case Download(url) => DownloadStep(s, url)
    case Update(f) => if f < |s.files| then UpdateStep(s, f) else s
    case LookupPath(f) => if f < |s.files| && s.files[f].named && s.files[f].dirty then UpdateStep(s, f) else s
    case MarkDirty(f) =>
      if f < |s.files| && s.files[f].named then s.(files := s.files[f := s.files[f].(dirty := true)]) else s
    case Finished(r) => if s.phase.Idle? && s.desk.reply && s.desk.current.Some? then FinishStep(s, r) else s
    case DeliverNext => if s.phase.Emitting? && s.phase.todo != [] && s.signals != [] then DeliverStep(s) else s
    case LeaveSlot =>
      if s.phase.InSlot? && s.phase.file < |s.files|
      then Cleanup(s.(phase := Emitting(s.phase.todo)), s.phase.file, Success) else s
    case EndSignal =>
      if s.phase.Emitting? && s.phase.todo == [] then s.(phase := Idle, desk := Release(s.desk)) else s
  }

  /** The state before event `n`. */
  function At(files: seq<File>, events: seq<Event>, n: nat): State
    requires n <= |events|
  {
    if n == 0 then Init(files) else Step(At(files, events, n - 1), events[n - 1])
  }
}
