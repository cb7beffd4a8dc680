/**
 The log file, the backlog and the window around the first critical message, as values.
 */
module LogWindow {

  type Byte = bv8

  /**
   A formatted message. `size` counts its UTF-16 units, `bytes` is what is written; every
   message ends with a line break, and no encoding is shorter than the text.
   */
  datatype Msg = Msg(critical: bool, size: nat, bytes: seq<Byte>)

  predicate Encoded(m: Msg) {
    1 <= m.size <= |m.bytes|
  }

  datatype Entry = Entry(position: nat, length: nat)

  datatype State = State(file: seq<Byte>, pos: nat, backlog: nat, critical: bool, window: seq<Entry>)

  const INIT := State([], 0, 0, false, [])

  /** Bytes written at the current position. */
  function Written(file: seq<Byte>, pos: nat, bytes: seq<Byte>): seq<Byte> {
    if pos >= |file| then file + bytes
    else file[..pos] + bytes + (if pos + |bytes| < |file| then file[pos + |bytes|..] else [])
  }

  /** A ring of fixed capacity drops its first entry when it is full. */
  function Appended(window: seq<Entry>, capacity: nat, e: Entry): seq<Entry> {
    if capacity == 0 then window
    else if |window| < capacity then window + [e]
    else window[1..] + [e]
  }

  function HandleWindow(s: State, capacity: nat, m: Msg): State {
    if s.critical && |s.window| >= capacity then s
    else s.(critical := s.critical || m.critical, window := Appended(s.window, capacity, Entry(s.pos, m.size)))
  }

  function LogToFile(s: State, m: Msg): State {
    s.(file := Written(s.file, s.pos, m.bytes), pos := s.pos + |m.bytes|)
  }

  function Read(file: seq<Byte>, start: nat, length: nat): seq<Byte> {
    if start > |file| then []
    else if length == 0 || start + length > |file| then file[start..]
    else file[start..start + length]
  }

  function CriticalWindow(s: State): seq<Byte> {
    if !s.critical || s.window == [] then []
    else
      var first, last := s.window[0], s.window[|s.window| - 1];
      var length := last.position - first.position + last.length;
      Read(s.file, first.position, if length > 0 then length else 0)
  }

  datatype Event = Message(m: Msg) | ResetBacklog

  function Step(s: State, capacity: nat, e: Event): State {
    match e
    case Message(m) => LogToFile(HandleWindow(s, capacity, m), m)
    case ResetBacklog => s.(backlog := s.pos, critical := false, window := [])
  }

  function At(events: seq<Event>, capacity: nat, n: nat): State
    requires n <= |events|
  {
    if n == 0 then INIT else Step(At(events, capacity, n - 1), capacity, events[n - 1])
  }

  // ----- the reference: what was logged since the last reset

  function Since(events: seq<Event>, n: nat): seq<Msg>
    requires n <= |events|
  {
    if n == 0 || events[n - 1].ResetBacklog? then [] else Since(events, n - 1) + [events[n - 1].m]
  }

  function FirstCritical(msgs: seq<Msg>, k: nat): (i: nat)
    requires k <= |msgs|
    ensures k <= i <= |msgs| && (i < |msgs| ==> msgs[i].critical)
    ensures forall j :: k <= j < i ==> !msgs[j].critical
    decreases |msgs| - k
  {
    if k == |msgs| || msgs[k].critical then k else FirstCritical(msgs, k + 1)
  }

  function From(i: nat, capacity: nat): nat {
    if i < capacity then 0 else i - capacity
  }

  /** The window starts so that it ends with the first critical message, or with the last message without one. */
  function WindowStart(msgs: seq<Msg>, capacity: nat): nat {
    var c := FirstCritical(msgs, 0);
    From(if c < |msgs| then c + 1 else |msgs|, capacity)
  }

  /** And from there takes as many messages as it can hold. */
  function WindowEnd(msgs: seq<Msg>, capacity: nat): nat {
    var start := WindowStart(msgs, capacity);
    if start + capacity < |msgs| then start + capacity else |msgs|
  }

  /** The messages from `lo` to `hi` as they stand in the file. */
  function Joined(msgs: seq<Msg>, lo: nat, hi: nat): seq<Byte>
    requires lo <= hi <= |msgs|
    decreases hi
  {
    if lo == hi then [] else Joined(msgs, lo, hi - 1) + msgs[hi - 1].bytes
  }
}
