/**
 What the downloads keep over every run, with scheduling from inside signal handlers:
 order, one terminal signal each, and a request behind every running update.
 */
module DownloadProofs {
  import opened Options
  import opened Downloads

  // ----- the downloader

  function Requests(signals: seq<Signal>): (r: seq<Request>)
    ensures |r| == |signals|
  {
    seq(|signals|, i requires 0 <= i < |signals| => signals[i].request)
  }

  /** The request whose reply is under way and has not been reported yet. */
  function Open(s: State): seq<Request> {
    if s.desk.reply && s.phase.Idle? && s.desk.current.Some? then [s.desk.current.value] else []
  }

  predicate Sound(d: Desk) {
    (d.reply ==> d.current.Some?) && (!d.reply ==> d.queue == [])
  }

  /** All scheduled requests in order: those reported, the open one, those pending. */
  predicate InOrder(s: State) {
    && Sound(s.desk)
    && s.scheduled == Requests(s.signals) + Open(s) + s.desk.queue
    && (!s.phase.Idle? ==>
          s.desk.reply && s.signals != [] && s.desk.current == Some(s.signals[|s.signals| - 1].request))
  }

  lemma DownloadInOrder(s: State, url: string)
    requires InOrder(s)
    ensures InOrder(DownloadStep(s, url))
  {}

  lemma ReleaseInOrder(s: State)
    requires InOrder(s) && s.phase.Emitting?
    ensures InOrder(s.(phase := Idle, desk := Release(s.desk)))
  {}

  lemma FinishInOrder(s: State, r: Reply)
    requires InOrder(s) && s.phase.Idle? && s.desk.reply
    ensures InOrder(FinishStep(s, r))
  {
    var signal := Signal(s.desk.current.value, KindOf(r));
    assert Requests(s.signals + [signal]) == Requests(s.signals) + [signal.request];
  }

  lemma StepInOrder(s: State, e: Event)
    requires InOrder(s)
    ensures InOrder(Step(s, e))
  {
    match e
    case Download(url) => DownloadInOrder(s, url);
    case Finished(r) => if s.phase.Idle? && s.desk.reply { FinishInOrder(s, r); }
    case EndSignal => if s.phase.Emitting? { ReleaseInOrder(s); }
    case _ =>
  }

  // ----- the files

  /** Exactly the running files are connected, each once. */
  predicate Connected(s: State) {
    && (forall l {:trigger l in s.listeners} :: l in s.listeners ==> l.file < |s.files| && s.files[l.file].running)
    && (forall f {:trigger s.files[f]} :: 0 <= f < |s.files| && s.files[f].running ==> Listens(s.listeners, f))
  }

  predicate Listens(listeners: seq<Listener>, f: nat) {
    exists l :: l in listeners && l.file == f
  }

  /** The signal under way will still reach the file. */
  predicate Awaits(s: State, f: nat) {
    match s.phase
    case Idle => true
    case Emitting(todo) => exists l :: l in todo && l in s.listeners && l.file == f
    case InSlot(file, todo) => file == f || exists l :: l in todo && l in s.listeners && l.file == f
  }

  predicate Queued(queue: seq<Request>, url: string) {
    exists r :: r in queue && r.url == url
  }

  /** A request for the address is pending, or the current one is for it and will still be reported to the file. */
  predicate Backed(s: State, f: nat, url: string) {
    || Queued(s.desk.queue, url)
    || (s.desk.reply && s.desk.current.Some? && s.desk.current.value.url == url && Awaits(s, f))
  }

  predicate AllBacked(s: State) {
    forall f {:trigger s.files[f]} :: 0 <= f < |s.files| && s.files[f].running ==> Backed(s, f, s.files[f].url)
  }

  predicate Inv(s: State) {
    InOrder(s) && Connected(s) && AllBacked(s)
  }

  lemma DisconnectedHolds(listeners: seq<Listener>, k: nat, f: nat, l: Listener)
    requires k <= |listeners|
    ensures l in Disconnected(listeners, k, f) <==> l in listeners[k..] && l.file != f
    decreases |listeners| - k
  {
    if k < |listeners| {
      DisconnectedHolds(listeners, k + 1, f, l);
      assert listeners[k..] == [listeners[k]] + listeners[k + 1..];
    }
  }

  /** Scheduling keeps every file backed, and backs the address it is for. */
  lemma ScheduleBacks(s: State, url: string, f: nat, u: string)
    requires Sound(s.desk) && (s.phase.Idle? || s.desk.reply) && (Backed(s, f, u) || u == url)
    ensures Backed(DownloadStep(s, url), f, u)
  {
    var t, r := DownloadStep(s, url), Request(|s.scheduled|, url);
    if s.desk.reply {
      assert t.desk.queue == s.desk.queue + [r];
      assert forall x :: x in s.desk.queue ==> x in t.desk.queue;
      assert r in t.desk.queue;
      assert Awaits(s, f) ==> Awaits(t, f);
    } else {
      assert ([r])[1..] == [] && s.desk.queue + [r] == [r];
      assert t.desk.current == Some(r) && t.phase.Idle?;
    }
  }

  lemma DownloadKeeps(s: State, url: string)
    requires Inv(s)
    ensures Inv(DownloadStep(s, url))
  {
    DownloadInOrder(s, url);
    var t := DownloadStep(s, url);
    forall f | 0 <= f < |t.files| && t.files[f].running ensures Backed(t, f, t.files[f].url) {
      ScheduleBacks(s, url, f, s.files[f].url);
    }
  }

  lemma UpdateKeeps(s: State, f: nat)
    requires Inv(s) && f < |s.files|
    ensures Inv(UpdateStep(s, f))
  {
    var file := s.files[f];
    if !file.running && file.named {
      var l := Listener(f, s.conns);
      var m := s.(files := s.files[f := file.(running := true)], listeners := s.listeners + [l], conns := s.conns + 1);
      var t := DownloadStep(m, file.url);
      DownloadInOrder(m, file.url);
      assert l in m.listeners;
      forall g | 0 <= g < |t.files| && t.files[g].running
        ensures Backed(t, g, t.files[g].url) && Listens(t.listeners, g)
      {
        if g != f {
          assert s.files[g].running;
          AwaitsMore(s, m, g);
          var k :| k in s.listeners && k.file == g;
          assert k in t.listeners;
        }
        ScheduleBacks(m, file.url, g, t.files[g].url);
      }
    }
  }

  lemma AwaitsMore(s: State, m: State, g: nat)
    requires m.phase == s.phase && forall l :: l in s.listeners ==> l in m.listeners
    ensures Awaits(s, g) ==> Awaits(m, g)
  {}

  lemma FinishKeeps(s: State, r: Reply)
    requires Inv(s) && s.phase.Idle? && s.desk.reply
    ensures Inv(FinishStep(s, r))
  {
    FinishInOrder(s, r);
    var t := FinishStep(s, r);
    forall f | 0 <= f < |t.files| && t.files[f].running ensures Backed(t, f, t.files[f].url) {
      assert Listens(s.listeners, f);
    }
  }

  lemma CleanupKeeps(s: State, f: nat, kind: Kind)
    requires InOrder(s) && Connected(s) && f < |s.files|
    requires forall g {:trigger s.files[g]} :: 0 <= g < |s.files| && s.files[g].running && g != f ==>
               Backed(s, g, s.files[g].url)
    ensures Inv(Cleanup(s, f, kind))
  {
    var t := Cleanup(s, f, kind);
    forall l ensures l in t.listeners <==> l in s.listeners && l.file != f {
      DisconnectedHolds(s.listeners, 0, f, l);
    }
    forall g | 0 <= g < |t.files| && t.files[g].running
      ensures Backed(t, g, t.files[g].url) && Listens(t.listeners, g)
    {
      assert s.files[g].running && g != f;
      assert Listens(s.listeners, g);
    }
  }

  lemma DeliverKeeps(s: State)
    requires Inv(s) && s.phase.Emitting? && s.phase.todo != []
    ensures Inv(DeliverStep(s))
  {
    var l, rest := s.phase.todo[0], s.phase.todo[1..];
    assert s.phase.todo == [l] + rest;
    var m := s.(phase := Emitting(rest));
    forall g | 0 <= g < |s.files| && s.files[g].running
        && (l.file != g || l !in s.listeners || s.files[g].url != s.desk.current.value.url)
      ensures Backed(m, g, s.files[g].url)
    {
      assert Backed(s, g, s.files[g].url);
    }
    if l !in s.listeners || s.files[l.file].url != s.desk.current.value.url {
    } else if s.signals[|s.signals| - 1].kind == Success {
      SlotKeeps(m, l.file);
    } else {
      CleanupKeeps(m, l.file, s.signals[|s.signals| - 1].kind);
    }
  }

  lemma SlotKeeps(m: State, f: nat)
    requires InOrder(m) && Connected(m) && m.phase.Emitting? && f < |m.files|
    requires m.files[f].url == m.desk.current.value.url
    requires forall g {:trigger m.files[g]} :: 0 <= g < |m.files| && m.files[g].running && g != f ==>
               Backed(m, g, m.files[g].url)
    ensures Inv(m.(phase := InSlot(f, m.phase.todo)))
  {}

  lemma LeaveKeeps(s: State)
    requires Inv(s) && s.phase.InSlot? && s.phase.file < |s.files|
    ensures Inv(Cleanup(s.(phase := Emitting(s.phase.todo)), s.phase.file, Success))
  {
    CleanupKeeps(s.(phase := Emitting(s.phase.todo)), s.phase.file, Success);
  }

  lemma EndKeeps(s: State)
    requires Inv(s) && s.phase.Emitting? && s.phase.todo == []
    ensures Inv(s.(phase := Idle, desk := Release(s.desk)))
  {
    ReleaseInOrder(s);
    var t := s.(phase := Idle, desk := Release(s.desk));
    forall f | 0 <= f < |t.files| && t.files[f].running ensures Backed(t, f, t.files[f].url) {
      assert Backed(s, f, s.files[f].url) && !Awaits(s, f);
      var r :| r in s.desk.queue && r.url == s.files[f].url;
      assert s.desk.queue == [s.desk.queue[0]] + s.desk.queue[1..];
    }
  }

  lemma StepKeeps(s: State, e: Event)
    requires Inv(s)
    ensures Inv(Step(s, e))
  {
    match e
    case Download(url) => DownloadKeeps(s, url);
    case Update(f) => if f < |s.files| { UpdateKeeps(s, f); }
    case LookupPath(f) => if f < |s.files| { UpdateKeeps(s, f); }
    case MarkDirty(f) =>
    case Finished(r) => if s.phase.Idle? && s.desk.reply { FinishKeeps(s, r); }
    case DeliverNext => if s.phase.Emitting? && s.phase.todo != [] { DeliverKeeps(s); }
    case LeaveSlot => if s.phase.InSlot? && s.phase.file < |s.files| { LeaveKeeps(s); }
    case EndSignal => if s.phase.Emitting? && s.phase.todo == [] { EndKeeps(s); }
  }

  // ----- runs

  predicate Fresh(files: seq<File>) {
    forall f {:trigger files[f]} :: 0 <= f < |files| ==> !files[f].running
  }

  predicate InvAt(files: seq<File>, events: seq<Event>, n: nat)
    requires n <= |events|
  {
    Inv(At(files, events, n))
  }

  lemma StepAt(files: seq<File>, events: seq<Event>, n: nat)
    requires n < |events| && InvAt(files, events, n)
    ensures InvAt(files, events, n + 1)
  {
    StepKeeps(At(files, events, n), events[n]);
  }

  lemma InitInv(files: seq<File>, events: seq<Event>)
    requires Fresh(files)
    ensures InvAt(files, events, 0)
  {
    assert Requests([]) == [];
  }

  lemma RunKeeps(files: seq<File>, events: seq<Event>, n: nat)
    requires n <= |events| && Fresh(files)
    ensures InvAt(files, events, n)
  {
    InitInv(files, events);
    for i := 0 to n
      invariant InvAt(files, events, i)
    {
      StepAt(files, events, i);
    }
  }

  /**
   Downloads complete exactly once and in order: the k-th terminal signal is about the
   k-th scheduled request, and what has not been reported is current or pending.
   */
  lemma SignalsInOrder(files: seq<File>, events: seq<Event>, n: nat, k: nat)
    requires n <= |events| && Fresh(files)
    ensures var s := At(files, events, n);
            && |s.signals| <= |s.scheduled|
            && (k < |s.signals| ==> s.signals[k].request == s.scheduled[k])
            && (s.phase.Idle? && !s.desk.reply ==> |s.signals| == |s.scheduled|)
            && (s.desk.reply ==> s.desk.current.Some?) && (!s.desk.reply ==> s.desk.queue == [])
  {
    RunKeeps(files, events, n);
    var s := At(files, events, n);
    if k < |s.signals| {
      assert s.scheduled[k] == Requests(s.signals)[k];
    }
  }

  /** A running update always has a request for its address, pending or current; at rest none runs. */
  lemma RunningIsBacked(files: seq<File>, events: seq<Event>, n: nat, f: nat)
    requires n <= |events| && Fresh(files) && f < |At(files, events, n).files| && At(files, events, n).files[f].running
    ensures var s := At(files, events, n);
            var url := s.files[f].url;
            s.desk.reply && s.desk.current.Some? && (Queued(s.desk.queue, url) || s.desk.current.value.url == url)
  {
    RunKeeps(files, events, n);
    assert Backed(At(files, events, n), f, At(files, events, n).files[f].url);
  }

  /** A failed download leaves the marker, and looking up a marked file always leads to a request for it. */
  lemma DirtyIsRetried(s: State, f: nat)
    requires Inv(s) && f < |s.files| && s.files[f].named && s.files[f].dirty
    ensures Cleanup(s, f, Failure).files[f].dirty
    ensures var t := Step(s, LookupPath(f));
            f < |t.files| && t.files[f].running && Backed(t, f, s.files[f].url)
  {
    UpdateKeeps(s, f);
    var t := UpdateStep(s, f);
    assert t.files[f].running && t.files[f].url == s.files[f].url;
  }

  // ----- which reply leads to which signal

  /** The reply an event brings for the request that is open, if it does. */
  function ReplyIn(s: State, e: Event): seq<Reply> {
    if e.Finished? && s.phase.Idle? && s.desk.reply && s.desk.current.Some? then [e.reply] else []
  }

  /** The replies that have come in for open requests, in order. */
  function Replies(files: seq<File>, events: seq<Event>, n: nat): seq<Reply>
    requires n <= |events|
  {
    if n == 0 then [] else Replies(files, events, n - 1) + ReplyIn(At(files, events, n - 1), events[n - 1])
  }

  /**
   The signal for a reply: success for status 200 and "unnecessary" for status 304, over a
   connection with the right certificate; failure in all other cases.
   */
  predicate Answers(kind: Kind, r: Reply) {
    && (kind == Success <==> r.certificateOk && r.status == 200)
    && (kind == Unnecessary <==> r.certificateOk && r.status == 304)
    && (kind == Failure <==> !r.certificateOk || r.status !in {200, 304})
  }

  predicate Answered(signals: seq<Signal>, replies: seq<Reply>) {
    |signals| == |replies|
    && forall k {:trigger signals[k]} :: 0 <= k < |signals| ==> Answers(signals[k].kind, replies[k])
  }

  lemma StepAnswers(s: State, e: Event, replies: seq<Reply>)
    requires Answered(s.signals, replies)
    ensures Answered(Step(s, e).signals, replies + ReplyIn(s, e))
  {
    if ReplyIn(s, e) == [] {
      assert Step(s, e).signals == s.signals && replies + [] == replies;
    }
  }

  predicate AnsweredAt(files: seq<File>, events: seq<Event>, n: nat)
    requires n <= |events|
  {
    Answered(At(files, events, n).signals, Replies(files, events, n))
  }

  lemma NothingAnswered(files: seq<File>, events: seq<Event>)
    ensures AnsweredAt(files, events, 0)
  {}

  lemma AnsweredNext(files: seq<File>, events: seq<Event>, n: nat)
    requires n < |events| && AnsweredAt(files, events, n)
    ensures AnsweredAt(files, events, n + 1)
  {
    StepAnswers(At(files, events, n), events[n], Replies(files, events, n));
  }

  /** On every run the k-th signal is of the kind the k-th reply calls for. */
  lemma SignalsAnswerReplies(files: seq<File>, events: seq<Event>, n: nat)
    requires n <= |events|
    ensures AnsweredAt(files, events, n)
  {
    NothingAnswered(files, events);
    for i := 0 to n
      invariant AnsweredAt(files, events, i)
    {
      AnsweredNext(files, events, i);
    }
  }
}
