/**
 The window around the first critical message over every run: which messages it retains,
 where they stand in the file, and when reading it back gives exactly those messages.
 */
module LogProofs {
  import opened LogWindow

  lemma {:induction false} JoinedSplit(msgs: seq<Msg>, lo: nat, mid: nat, hi: nat)
    requires lo <= mid <= hi <= |msgs|
    ensures Joined(msgs, lo, hi) == Joined(msgs, lo, mid) + Joined(msgs, mid, hi)
    decreases hi
  {
    if mid < hi {
      JoinedSplit(msgs, lo, mid, hi - 1);
    }
  }

  lemma {:induction false} JoinedPrefix(msgs: seq<Msg>, m: Msg, lo: nat, hi: nat)
    requires lo <= hi <= |msgs|
    ensures Joined(msgs + [m], lo, hi) == Joined(msgs, lo, hi)
    decreases hi
  {
    if lo < hi {
      JoinedPrefix(msgs, m, lo, hi - 1);
    }
  }

  /** Where message `i` starts, counted from the reset. */
  function Offset(msgs: seq<Msg>, i: nat): nat
    requires i <= |msgs|
  {
    |Joined(msgs, 0, i)|
  }

  lemma {:induction false} FirstCriticalAppend(msgs: seq<Msg>, m: Msg, k: nat)
    requires k <= |msgs|
    ensures FirstCritical(msgs + [m], k) ==
            if FirstCritical(msgs, k) < |msgs| || m.critical then FirstCritical(msgs, k) else |msgs| + 1
    decreases |msgs| - k
  {
    if k < |msgs| {
      FirstCriticalAppend(msgs, m, k + 1);
    }
  }

  function EntryOf(msgs: seq<Msg>, base: nat, i: nat): Entry
    requires i < |msgs|
  {
    Entry(base + Offset(msgs, i), msgs[i].size)
  }

  predicate WindowIs(window: seq<Entry>, msgs: seq<Msg>, base: nat, start: nat, end: nat) {
    && start <= end <= |msgs| && |window| == end - start
    && forall i {:trigger window[i]} :: 0 <= i < |window| ==> window[i] == EntryOf(msgs, base, start + i)
  }

  /** The file ends with the messages since the reset, and the window lists the retained ones. */
  predicate Inv(s: State, capacity: nat, msgs: seq<Msg>) {
    && s.pos == |s.file| && s.backlog <= |s.file| && s.file[s.backlog..] == Joined(msgs, 0, |msgs|)
    && (s.critical <==> FirstCritical(msgs, 0) < |msgs|)
    && WindowIs(s.window, msgs, s.backlog, WindowStart(msgs, capacity), WindowEnd(msgs, capacity))
  }

  lemma EntriesStay(window: seq<Entry>, msgs: seq<Msg>, m: Msg, base: nat, start: nat, end: nat)
    requires WindowIs(window, msgs, base, start, end)
    ensures WindowIs(window, msgs + [m], base, start, end)
  {
    forall i | 0 <= i < |window| ensures window[i] == EntryOf(msgs + [m], base, start + i) {
      JoinedPrefix(msgs, m, 0, start + i);
    }
  }

  lemma NewEntry(s: State, msgs: seq<Msg>, m: Msg)
    requires s.pos == |s.file| && s.backlog <= |s.file| && s.file[s.backlog..] == Joined(msgs, 0, |msgs|)
    ensures Entry(s.pos, m.size) == EntryOf(msgs + [m], s.backlog, |msgs|)
  {
    JoinedPrefix(msgs, m, 0, |msgs|);
  }

  /** A full window with a critical message stays; any other takes the new message in, and slides when it is full. */
  lemma Slides(msgs: seq<Msg>, m: Msg, capacity: nat)
    requires capacity >= 1
    ensures var start, end, all := WindowStart(msgs, capacity), WindowEnd(msgs, capacity), msgs + [m];
            if FirstCritical(msgs, 0) < |msgs| && end - start >= capacity
            then WindowStart(all, capacity) == start && WindowEnd(all, capacity) == end
            else end == |msgs| && WindowEnd(all, capacity) == |all|
                 && WindowStart(all, capacity) == if end - start < capacity then start else start + 1
  {
    FirstCriticalAppend(msgs, m, 0);
  }

  lemma AppendSlides(window: seq<Entry>, all: seq<Msg>, base: nat, start: nat, end: nat, capacity: nat)
    requires WindowIs(window, all, base, start, end) && end < |all| && 1 <= capacity && |window| <= capacity
    ensures WindowIs(Appended(window, capacity, EntryOf(all, base, end)), all, base,
                     if |window| < capacity then start else start + 1, end + 1)
  {
    var e := EntryOf(all, base, end);
    var slid := Appended(window, capacity, e);
    var drop := if |window| < capacity then 0 else 1;
    forall i | 0 <= i < |slid| ensures slid[i] == EntryOf(all, base, start + drop + i) {
      if i < |slid| - 1 {
        assert slid[i] == window[drop + i];
      }
    }
  }

  lemma MessageWindow(s: State, capacity: nat, msgs: seq<Msg>, m: Msg)
    requires Inv(s, capacity, msgs) && capacity >= 1
    ensures var t, all := HandleWindow(s, capacity, m), msgs + [m];
            WindowIs(t.window, all, s.backlog, WindowStart(all, capacity), WindowEnd(all, capacity))
  {
    EntriesStay(s.window, msgs, m, s.backlog, WindowStart(msgs, capacity), WindowEnd(msgs, capacity));
    NewEntry(s, msgs, m);
    Slides(msgs, m, capacity);
    if !(s.critical && |s.window| >= capacity) {
      AppendSlides(s.window, msgs + [m], s.backlog, WindowStart(msgs, capacity), |msgs|, capacity);
    }
  }

  lemma MessageMarks(s: State, capacity: nat, msgs: seq<Msg>, m: Msg)
    requires Inv(s, capacity, msgs) && capacity >= 1
    ensures var all := msgs + [m];
            HandleWindow(s, capacity, m).critical <==> FirstCritical(all, 0) < |all|
  {
    FirstCriticalAppend(msgs, m, 0);
  }

  lemma MessageFile(s: State, capacity: nat, msgs: seq<Msg>, m: Msg)
    requires Inv(s, capacity, msgs)
    ensures var t, all := Step(s, capacity, Message(m)), msgs + [m];
            && t.pos == |t.file| && t.backlog == s.backlog <= |t.file|
            && t.file[t.backlog..] == Joined(all, 0, |all|)
  {
    JoinedPrefix(msgs, m, 0, |msgs|);
    assert (s.file + m.bytes)[s.backlog..] == s.file[s.backlog..] + m.bytes;
  }

  lemma StepKeeps(s: State, capacity: nat, msgs: seq<Msg>, e: Event)
    requires Inv(s, capacity, msgs) && capacity >= 1
    ensures Inv(Step(s, capacity, e), capacity, if e.ResetBacklog? then [] else msgs + [e.m])
  {
    if e.Message? {
      MessageWindow(s, capacity, msgs, e.m);
      MessageMarks(s, capacity, msgs, e.m);
      MessageFile(s, capacity, msgs, e.m);
    }
  }

  predicate InvAt(events: seq<Event>, capacity: nat, n: nat)
    requires n <= |events|
  {
    Inv(At(events, capacity, n), capacity, Since(events, n))
  }

  lemma InitInv(events: seq<Event>, capacity: nat)
    ensures InvAt(events, capacity, 0)
  {}

  lemma StepAt(events: seq<Event>, capacity: nat, n: nat)
    requires n < |events| && capacity >= 1 && InvAt(events, capacity, n)
    ensures InvAt(events, capacity, n + 1)
  {
    StepKeeps(At(events, capacity, n), capacity, Since(events, n), events[n]);
  }

  /**
   On every run the file carries on exactly the messages since the last reset, and the
   window lists a run of consecutive ones, placed around the first critical one.
   */
  lemma RunKeeps(events: seq<Event>, capacity: nat, n: nat)
    requires n <= |events| && capacity >= 1
    ensures InvAt(events, capacity, n)
  {
    InitInv(events, capacity);
    for i := 0 to n
      invariant InvAt(events, capacity, i)
    {
      StepAt(events, capacity, i);
    }
  }

  /** Window entries are contiguous in the file: each starts where the one before it ends. */
  lemma WindowContiguous(events: seq<Event>, capacity: nat, n: nat, i: nat)
    requires n <= |events| && capacity >= 1 && i + 1 < |At(events, capacity, n).window|
    ensures var s, msgs := At(events, capacity, n), Since(events, n);
            var k := WindowStart(msgs, capacity) + i;
            k < |msgs| && s.window[i + 1].position == s.window[i].position + |msgs[k].bytes|
  {
    RunKeeps(events, capacity, n);
    var msgs := Since(events, n);
    var k := WindowStart(msgs, capacity) + i;
    assert At(events, capacity, n).window[i + 1] == EntryOf(msgs, At(events, capacity, n).backlog, k + 1);
  }

  /** The first critical message since the reset is in the window from the moment it is logged. */
  lemma FirstCriticalStays(events: seq<Event>, capacity: nat, n: nat)
    requires n <= |events| && capacity >= 1
    ensures var s, msgs := At(events, capacity, n), Since(events, n);
            var c := FirstCritical(msgs, 0);
            && (s.critical <==> c < |msgs|)
            && (s.critical ==> WindowStart(msgs, capacity) <= c < WindowEnd(msgs, capacity)
                               && EntryOf(msgs, s.backlog, c) in s.window)
            && |s.window| <= capacity
  {
    RunKeeps(events, capacity, n);
    var s, msgs := At(events, capacity, n), Since(events, n);
    var c := FirstCritical(msgs, 0);
    if s.critical {
      assert s.window[c - WindowStart(msgs, capacity)] == EntryOf(msgs, s.backlog, c);
    }
  }

  predicate AllEncoded(msgs: seq<Msg>) {
    forall i {:trigger msgs[i]} :: 0 <= i < |msgs| ==> Encoded(msgs[i])
  }

  lemma FileSlice(s: State, capacity: nat, msgs: seq<Msg>, lo: nat, hi: nat)
    requires Inv(s, capacity, msgs) && lo <= hi <= |msgs|
    ensures s.backlog + Offset(msgs, lo) <= s.backlog + Offset(msgs, hi) <= |s.file|
    ensures s.file[s.backlog + Offset(msgs, lo)..s.backlog + Offset(msgs, hi)] == Joined(msgs, lo, hi)
  {
    JoinedSplit(msgs, 0, lo, hi);
    JoinedSplit(msgs, 0, hi, |msgs|);
    var all := Joined(msgs, 0, |msgs|);
    assert all == Joined(msgs, 0, lo) + Joined(msgs, lo, hi) + Joined(msgs, hi, |msgs|);
    assert all[Offset(msgs, lo)..Offset(msgs, hi)] == Joined(msgs, lo, hi);
    assert s.file[s.backlog + Offset(msgs, lo)..s.backlog + Offset(msgs, hi)]
        == s.file[s.backlog..][Offset(msgs, lo)..Offset(msgs, hi)];
  }

  /** The slice of the file that the window reads: from its first entry to the end of its last one as text. */
  lemma WindowSlice(s: State, capacity: nat, msgs: seq<Msg>)
    requires Inv(s, capacity, msgs) && s.critical && s.window != []
    requires var end := WindowEnd(msgs, capacity); end > 0 && Encoded(msgs[end - 1])
    ensures var start, end := WindowStart(msgs, capacity), WindowEnd(msgs, capacity);
            var from, to := s.backlog + Offset(msgs, start), s.backlog + Offset(msgs, end - 1) + msgs[end - 1].size;
            && from <= to <= s.backlog + Offset(msgs, end) <= |s.file| && CriticalWindow(s) == s.file[from..to]
            && Offset(msgs, end) == Offset(msgs, end - 1) + |msgs[end - 1].bytes|
  {
    var start, end := WindowStart(msgs, capacity), WindowEnd(msgs, capacity);
    assert s.window[0] == EntryOf(msgs, s.backlog, start)
        && s.window[|s.window| - 1] == EntryOf(msgs, s.backlog, end - 1);
    FileSlice(s, capacity, msgs, start, end - 1);
    FileSlice(s, capacity, msgs, end - 1, end);
    assert Joined(msgs, 0, end) == Joined(msgs, 0, end - 1) + msgs[end - 1].bytes;
  }

  lemma Cut(file: seq<Byte>, from: nat, to: nat, end: nat)
    requires from <= to <= end <= |file|
    ensures file[from..to] <= file[from..end]
    ensures file[from..to] == file[from..end] <==> to == end
  {}

  lemma ReadExact(s: State, capacity: nat, msgs: seq<Msg>)
    requires Inv(s, capacity, msgs) && s.critical && s.window != [] && AllEncoded(msgs)
    ensures var start, end := WindowStart(msgs, capacity), WindowEnd(msgs, capacity);
            && start < end <= |msgs|
            && CriticalWindow(s) <= Joined(msgs, start, end)
            && (CriticalWindow(s) == Joined(msgs, start, end) <==> msgs[end - 1].size == |msgs[end - 1].bytes|)
  {
    var start, end := WindowStart(msgs, capacity), WindowEnd(msgs, capacity);
    assert Encoded(msgs[end - 1]);
    WindowSlice(s, capacity, msgs);
    FileSlice(s, capacity, msgs, start, end);
    Cut(s.file, s.backlog + Offset(msgs, start), s.backlog + Offset(msgs, end - 1) + msgs[end - 1].size,
        s.backlog + Offset(msgs, end));
  }

  /**
   Reading the window gives exactly the retained messages if and only if the last of them
   is as long in the file as it is as text; otherwise its end is cut off.
   */
  lemma WindowReadExact(events: seq<Event>, capacity: nat, n: nat)
    requires n <= |events| && capacity >= 1 && AllEncoded(Since(events, n)) && At(events, capacity, n).critical
    ensures var s, msgs := At(events, capacity, n), Since(events, n);
            var start, end := WindowStart(msgs, capacity), WindowEnd(msgs, capacity);
            && start < end <= |msgs|
            && CriticalWindow(s) <= Joined(msgs, start, end)
            && (CriticalWindow(s) == Joined(msgs, start, end) <==> msgs[end - 1].size == |msgs[end - 1].bytes|)
  {
    RunKeeps(events, capacity, n);
    FirstCriticalStays(events, capacity, n);
    ReadExact(At(events, capacity, n), capacity, Since(events, n));
  }

  /** A single critical message, one letter of two bytes and a line break: the line break is cut off. */
  lemma CriticalCut(capacity: nat)
    requires capacity >= 1
    ensures var m := Msg(true, 2, [0xC3, 0xA4, 0x0A]);
            var s := At([Message(m)], capacity, 1);
            && Encoded(m) && s.critical && CriticalWindow(s) == [0xC3, 0xA4] && Joined([m], 0, 1) == m.bytes
            && CriticalWindow(s) != Joined([m], 0, 1)
  {
    var m := Msg(true, 2, [0xC3, 0xA4, 0x0A]);
    assert At([Message(m)], capacity, 0) == INIT;
    var s := At([Message(m)], capacity, 1);
    assert s.window == [Entry(0, 2)];
    assert s.file == [] + m.bytes == m.bytes;
    assert m.bytes[0..2] == [0xC3, 0xA4];
    assert Joined([m], 0, 1) == [] + m.bytes;
  }

  /** The backlog is everything logged since the last reset. */
  lemma BacklogIsHistory(events: seq<Event>, capacity: nat, n: nat)
    requires n <= |events| && capacity >= 1
    ensures var s, msgs := At(events, capacity, n), Since(events, n);
            Read(s.file, s.backlog, 0) == Joined(msgs, 0, |msgs|)
  {
    RunKeeps(events, capacity, n);
  }
}
