/**
 The dry run that decides, before a file is touched, whether all hunks fit it.
 The loop leaves through `break`, or runs out of lines and takes its `else` branch.
 An index error inside the loop is the outcome Crashed.
 */
module Scanner {
  import opened Text
  import opened Hunks

  datatype Control = Running | Broke | Crashed

  datatype State = State(hunkno: nat, cur: nat, find: seq<string>, hunklineno: nat,
                         validhunks: nat, canpatch: bool, control: Control)

  datatype Verdict = IndexError | Verdict(canpatch: bool, validhunks: nat, premature: bool)

  const INIT := State(0, 0, [], 0, 0, false, Running)

  /** A source line inside the window, not its last one, is compared. */
  function Compare(st: State, hunks: seq<Hunk>, line: string): State {
    if st.hunklineno >= |st.find| then st.(control := Crashed)
    else if Chomp(line) == st.find[st.hunklineno] then st.(hunklineno := st.hunklineno + 1)
    else if st.hunkno + 1 < |hunks| then st.(hunkno := st.hunkno + 1, cur := st.hunkno + 1)
    else st.(hunkno := st.hunkno + 1, control := Broke)
  }

  /** The last line of a window makes the hunk valid without being compared. */
  function Complete(st: State, hunks: seq<Hunk>): State {
    var st' := st.(hunkno := st.hunkno + 1, validhunks := st.validhunks + 1);
    if st'.hunkno < |hunks| then st'.(cur := st'.hunkno)
    else if st'.validhunks == |hunks| then st'.(canpatch := true, control := Broke)
    else st'
  }

  function Load(st: State, h: Hunk): State {
    if "" in h.text then st.(control := Crashed) else st.(find := SourceSide(h), hunklineno := 0)
  }

  /** The two tests against the window, once the hunk is loaded; `i` counts lines from 0. */
  function Advance(st: State, hunks: seq<Hunk>, i: nat, line: string): State
    requires st.cur < |hunks|
  {
    var last := hunks[st.cur].startsrc + |st.find| - 1;
    if st.control == Crashed then st
    else if i + 1 < last then Compare(st, hunks, line)
    else if i + 1 == last then Complete(st, hunks)
    else st
  }

  /** One turn of the loop. */
  function Step(st: State, hunks: seq<Hunk>, i: nat, line: string): State
    requires st.cur < |hunks|
  {
    var h := hunks[st.cur];
    if i + 1 < h.startsrc then st
    else Advance(if i + 1 == h.startsrc then Load(st, h) else st, hunks, i, line)
  }

  lemma StepKeepsCurrent(st: State, hunks: seq<Hunk>, i: nat, line: string)
    requires st.cur < |hunks|
    ensures Step(st, hunks, i, line).cur < |hunks|
  {}

  function Run(lines: seq<string>, hunks: seq<Hunk>, i: nat, st: State): State
    requires st.cur < |hunks| && i <= |lines|
    decreases |lines| - i
  {
    StepKeepsCurrent(st, hunks, i, if i < |lines| then lines[i] else "");
    if i == |lines| || st.control != Running then st
    else Run(lines, hunks, i + 1, Step(st, hunks, i, lines[i]))
  }

  function NewFile(hunks: seq<Hunk>): bool {
    |hunks| == 1 && hunks[0].startsrc == 0 && hunks[0].linessrc == 0
  }

  function Conclude(st: State, hunks: seq<Hunk>): Verdict {
    match st.control
    case Crashed => IndexError
    case Broke => Verdict(st.canpatch, st.validhunks, false)
    case Running =>
      if NewFile(hunks) then Verdict(true, 1, false)
      else Verdict(st.canpatch, st.validhunks, st.hunkno < |hunks|)
  }

  function Scan(lines: seq<string>, hunks: seq<Hunk>): Verdict
    requires hunks != []
  {
    Conclude(Run(lines, hunks, 0, INIT), hunks)
  }

  /** The scan loop itself. */
  method ScanFile(lines: seq<string>, hunks: seq<Hunk>) returns (v: Verdict)
    requires hunks != []
    ensures v == Scan(lines, hunks)
  {
    var hunkno, cur, hunkfind, hunklineno, validhunks, canpatch := 0, 0, [], 0, 0, false;
    var control := Running;
    var lineno := 0;
    while lineno < |lines| && control == Running
      invariant lineno <= |lines| && cur < |hunks|
      invariant Run(lines, hunks, lineno, State(hunkno, cur, hunkfind, hunklineno, validhunks, canpatch, control))
                == Run(lines, hunks, 0, INIT)
      decreases |lines| - lineno
    {
      var hunk, line := hunks[cur], lines[lineno];
      ghost var st := State(hunkno, cur, hunkfind, hunklineno, validhunks, canpatch, control);
      ghost var st' := Step(st, hunks, lineno, line);
      StepKeepsCurrent(st, hunks, lineno, line);
      lineno := lineno + 1;
      if hunk.startsrc <= lineno {
        if lineno == hunk.startsrc {
          if "" in hunk.text {
            control := Crashed;
          } else {
            hunkfind, hunklineno := SourceSide(hunk), 0;
          }
        }
        if control == Crashed {
        } else if lineno < hunk.startsrc + |hunkfind| - 1 {
          if hunklineno >= |hunkfind| {
            control := Crashed;
          } else if Chomp(line) == hunkfind[hunklineno] {
            hunklineno := hunklineno + 1;
          } else {
            hunkno := hunkno + 1;
            if hunkno < |hunks| {
              cur := hunkno;
            } else {
              control := Broke;
            }
          }
        } else if lineno == hunk.startsrc + |hunkfind| - 1 {
          hunkno, validhunks := hunkno + 1, validhunks + 1;
          if hunkno < |hunks| {
            cur := hunkno;
          } else if validhunks == |hunks| {
            canpatch, control := true, Broke;
          }
        }
      }
      assert State(hunkno, cur, hunkfind, hunklineno, validhunks, canpatch, control) == st';
    }
    if control == Crashed {
      return IndexError;
    }
    var premature := false;
    if control == Running {
      if hunks[cur].startsrc == 0 && hunks[cur].linessrc == 0 && |hunks| == 1 {
        validhunks, canpatch := 1, true;
      } else if hunkno < |hunks| {
        premature := true;
      }
    }
    v := Verdict(canpatch, validhunks, premature);
  }

  lemma {:induction false} NewFileRun(lines: seq<string>, hunks: seq<Hunk>, i: nat)
    requires hunks != [] && hunks[0].startsrc == 0 && hunks[0].linessrc == 0 && i <= |lines|
    ensures Run(lines, hunks, i, INIT) == INIT
    decreases |lines| - i
  {
    if i < |lines| {
      assert Step(INIT, hunks, i, lines[i]) == INIT;
      NewFileRun(lines, hunks, i + 1);
    }
  }

  /** A patch that creates a file is accepted for every file, whatever it holds. */
  lemma NewFileAlwaysAccepted(lines: seq<string>, hunks: seq<Hunk>)
    requires |hunks| == 1 && hunks[0].startsrc == 0 && hunks[0].linessrc == 0
    ensures Scan(lines, hunks) == Verdict(true, 1, false)
  {
    NewFileRun(lines, hunks, 0);
  }

  // ----- what the verdict means

  /** All the scan checks of one hunk: a non-empty window in the file, all its lines but the last equal. */
  predicate Ready(lines: seq<string>, h: Hunk) {
    h.linessrc >= 1 && InFile(h, |lines|)
    && forall i :: 0 <= i < h.linessrc - 1 && i < |SourceSide(h)| ==> Chomp(lines[h.Before() + i]) == SourceSide(h)[i]
  }

  lemma OrderedAt(hunks: seq<Hunk>, k: nat, pos: nat, c: nat)
    requires k <= c < |hunks| && Ordered(hunks, k, pos)
    ensures 0 <= hunks[c].Before() && (c + 1 < |hunks| ==> hunks[c].Last() <= hunks[c + 1].Before())
    decreases c - k
  {
    if k < c {
      OrderedAt(hunks, k + 1, hunks[k].Last(), c);
    }
  }

  /** Where the scan stands with its current hunk after `i` lines. */
  ghost predicate InWindow(lines: seq<string>, h: Hunk, i: nat, st: State)
    requires i <= |lines|
  {
    && 0 <= h.Before() < i && st.find == SourceSide(h)
    && (h.linessrc == 0
        || (i < h.Last() && st.hunklineno == i - h.Before()
            && forall j :: 0 <= j < i - h.Before() && j < |st.find| ==> Chomp(lines[h.Before() + j]) == st.find[j]))
  }

  ghost predicate Inv(lines: seq<string>, hunks: seq<Hunk>, i: nat, st: State)
    requires i <= |lines|
  {
    && st.control == Running && !st.canpatch && st.validhunks <= st.hunkno <= |hunks|
    && (if st.hunkno == |hunks| then st.cur + 1 == |hunks| && st.validhunks < |hunks| && hunks[st.cur].Last() <= i
          && |st.find| == hunks[st.cur].linessrc && st.find != []
        else st.cur == st.hunkno
             && (i <= hunks[st.cur].Before() || InWindow(lines, hunks[st.cur], i, st)))
  }

  /** One of the lines that are compared, and that the file has, differs. */
  predicate Differs(lines: seq<string>, h: Hunk) {
    exists i {:trigger SourceSide(h)[i]} ::
      0 <= i < h.linessrc - 1 && i < |SourceSide(h)| && 0 <= h.Before() + i < |lines|
      && Chomp(lines[h.Before() + i]) != SourceSide(h)[i]
  }

  /** The scan never gets to the end of such a hunk: no source lines, or the file ends first. */
  predicate Unfinished(lines: seq<string>, h: Hunk) {
    h.linessrc == 0 || (h.Last() > |lines| && !Differs(lines, h))
  }

  ghost predicate SomeUnfinished(lines: seq<string>, hunks: seq<Hunk>, k: nat) {
    exists j {:trigger hunks[j]} :: k <= j < |hunks| && Unfinished(lines, hunks[j])
  }

  ghost predicate AllReady(lines: seq<string>, hunks: seq<Hunk>, k: nat) {
    forall j :: k <= j < |hunks| ==> Ready(lines, hunks[j])
  }

  /** The state once the current hunk is loaded and line `i` is about to be looked at. */
  ghost predicate Loaded(lines: seq<string>, hunks: seq<Hunk>, i: nat, st: State)
    requires i < |lines|
  {
    && st.control == Running && !st.canpatch && st.validhunks <= st.hunkno == st.cur < |hunks|
    && (var h := hunks[st.cur];
        && 0 <= h.Before() <= i && st.find == SourceSide(h) && |st.find| == h.linessrc
        && (h.linessrc == 0
            || (i < h.Last() && st.hunklineno == i - h.Before()
                && forall j :: 0 <= j < i - h.Before() ==> Chomp(lines[h.Before() + j]) == st.find[j])))
  }

  /** What a step may do to the hunk it works on: keep it, accept it or reject it. */
  ghost predicate Good(lines: seq<string>, h: Hunk, n: nat, hunkno: nat, validhunks: nat, st': State)
  {
    && st'.control != Crashed
    && (st'.control == Broke ==> st'.hunkno == n && (st'.canpatch <==> st'.validhunks == n))
    && (if st'.hunkno == hunkno then st'.control == Running && st'.validhunks == validhunks
        else hunkno < n && st'.hunkno == hunkno + 1 && !Unfinished(lines, h)
             && st'.validhunks == validhunks + (if Ready(lines, h) then 1 else 0))
  }

  lemma CompareGood(lines: seq<string>, hunks: seq<Hunk>, i: nat, st: State)
    requires i < |lines| && Loaded(lines, hunks, i, st) && i + 1 < hunks[st.cur].Last()
    requires st.cur + 1 < |hunks| ==> hunks[st.cur].Last() <= hunks[st.cur + 1].Before()
    ensures Good(lines, hunks[st.cur], |hunks|, st.hunkno, st.validhunks, Compare(st, hunks, lines[i]))
    ensures Compare(st, hunks, lines[i]).control == Running ==> Inv(lines, hunks, i + 1, Compare(st, hunks, lines[i]))
  {
    var h, at := hunks[st.cur], i - hunks[st.cur].Before();
    assert lines[h.Before() + at] == lines[i];
    if Chomp(lines[i]) == st.find[at] {
      assert InWindow(lines, h, i + 1, Compare(st, hunks, lines[i]));
    } else {
      assert Chomp(lines[h.Before() + at]) != SourceSide(h)[at];
      assert !Ready(lines, h) && Differs(lines, h);
    }
  }

  lemma CompleteGood(lines: seq<string>, hunks: seq<Hunk>, i: nat, st: State)
    requires i < |lines| && Loaded(lines, hunks, i, st) && i + 1 == hunks[st.cur].Last()
    requires hunks[st.cur].linessrc >= 1
    requires st.cur + 1 < |hunks| ==> hunks[st.cur].Last() <= hunks[st.cur + 1].Before()
    ensures Good(lines, hunks[st.cur], |hunks|, st.hunkno, st.validhunks, Complete(st, hunks))
    ensures Complete(st, hunks).control == Running ==> Inv(lines, hunks, i + 1, Complete(st, hunks))
  {
    assert Ready(lines, hunks[st.cur]);
  }

  lemma AdvanceGood(lines: seq<string>, hunks: seq<Hunk>, i: nat, st: State)
    requires i < |lines| && Loaded(lines, hunks, i, st)
    requires st.cur + 1 < |hunks| ==> hunks[st.cur].Last() <= hunks[st.cur + 1].Before()
    ensures Good(lines, hunks[st.cur], |hunks|, st.hunkno, st.validhunks, Advance(st, hunks, i, lines[i]))
    ensures Advance(st, hunks, i, lines[i]).control == Running ==>
            Inv(lines, hunks, i + 1, Advance(st, hunks, i, lines[i]))
  {
    var h := hunks[st.cur];
    if h.linessrc == 0 {
      assert Advance(st, hunks, i, lines[i]) == st;
    } else if i + 1 < h.Last() {
      CompareGood(lines, hunks, i, st);
    } else {
      CompleteGood(lines, hunks, i, st);
    }
  }

  lemma LoadGood(lines: seq<string>, hunks: seq<Hunk>, i: nat, st: State)
    requires i < |lines| && st.cur < |hunks| && Inv(lines, hunks, i, st) && st.hunkno < |hunks|
    requires 0 <= hunks[st.cur].Before() <= i && Sourced(hunks[st.cur])
    ensures Loaded(lines, hunks, i, if i == hunks[st.cur].Before() then Load(st, hunks[st.cur]) else st)
  {
  }

  lemma StepEffect(lines: seq<string>, hunks: seq<Hunk>, i: nat, st: State)
    requires i < |lines| && st.cur < |hunks| && Inv(lines, hunks, i, st)
    requires Ordered(hunks, 0, 0) && AllSourced(hunks)
    ensures Good(lines, hunks[st.cur], |hunks|, st.hunkno, st.validhunks, Step(st, hunks, i, lines[i]))
    ensures Step(st, hunks, i, lines[i]).control == Running ==> Inv(lines, hunks, i + 1, Step(st, hunks, i, lines[i]))
  {
    OrderedAt(hunks, 0, 0, st.cur);
    if st.hunkno < |hunks| && hunks[st.cur].Before() <= i {
      assert Sourced(hunks[st.cur]);
      var loaded := if i == hunks[st.cur].Before() then Load(st, hunks[st.cur]) else st;
      LoadGood(lines, hunks, i, st);
      AdvanceGood(lines, hunks, i, loaded);
      assert loaded.cur == st.cur && loaded.hunkno == st.hunkno && loaded.validhunks == st.validhunks;
      assert Step(st, hunks, i, lines[i]) == Advance(loaded, hunks, i, lines[i]);
    } else {
      assert Step(st, hunks, i, lines[i]) == st;
    }
  }

  lemma StillUnfinished(lines: seq<string>, hunks: seq<Hunk>, st: State)
    requires st.cur < |hunks| && Inv(lines, hunks, |lines|, st) && st.hunkno < |hunks|
    requires Ordered(hunks, 0, 0) && AllSourced(hunks)
    ensures Unfinished(lines, hunks[st.cur])
  {
    OrderedAt(hunks, 0, 0, st.cur);
    assert Sourced(hunks[st.cur]);
  }

  lemma {:induction false} RunExact(lines: seq<string>, hunks: seq<Hunk>, i: nat, st: State)
    requires i <= |lines| && st.cur < |hunks| && Inv(lines, hunks, i, st)
    requires Ordered(hunks, 0, 0) && AllSourced(hunks)
    ensures Conclude(Run(lines, hunks, i, st), hunks).Verdict?
    ensures Conclude(Run(lines, hunks, i, st), hunks).canpatch <==>
            st.validhunks == st.hunkno && AllReady(lines, hunks, st.hunkno)
    ensures var v := Conclude(Run(lines, hunks, i, st), hunks);
            v.validhunks <= |hunks| && (v.canpatch <==> v.validhunks == |hunks|) && (v.canpatch ==> !v.premature)
    decreases |lines| - i
  {
    OrderedAt(hunks, 0, 0, 0);
    if i == |lines| {
      if st.hunkno < |hunks| {
        OrderedAt(hunks, 0, 0, st.cur);
        assert !Ready(lines, hunks[st.cur]);
      }
    } else {
      var st' := Step(st, hunks, i, lines[i]);
      StepEffect(lines, hunks, i, st);
      if st'.control == Running {
        RunExact(lines, hunks, i + 1, st');
      } else {
        assert Run(lines, hunks, i + 1, st') == st';
      }
    }
  }

  /**
   On ordered hunks with the source lines they declare the scan never crashes, and it accepts
   exactly the files in which every hunk has a non-empty window inside the file whose
   lines, except the last of each window, are those of the hunk. It then reports all hunks
   as valid, and only then.
   */
  lemma CanPatchExact(lines: seq<string>, hunks: seq<Hunk>)
    requires hunks != [] && Ordered(hunks, 0, 0) && AllSourced(hunks)
    ensures Scan(lines, hunks).Verdict?
    ensures Scan(lines, hunks).canpatch <==> forall k :: 0 <= k < |hunks| ==> Ready(lines, hunks[k])
    ensures var v := Scan(lines, hunks);
            v.validhunks <= |hunks| && (v.canpatch <==> v.validhunks == |hunks|) && (v.canpatch ==> !v.premature)
  {
    OrderedAt(hunks, 0, 0, 0);
    RunExact(lines, hunks, 0, INIT);
  }

  /**
   Without source lines a hunk is never accepted, unless it creates a file on its own: neither
   among ordered hunks, nor as a first hunk that starts at line 0.
   */
  lemma EmptySourceRefused(lines: seq<string>, hunks: seq<Hunk>, k: nat)
    requires k < |hunks| && hunks[k].linessrc == 0 && (|hunks| > 1 || hunks[0].startsrc > 0)
    requires (Ordered(hunks, 0, 0) && AllSourced(hunks)) || (k == 0 && hunks[0].startsrc == 0)
    ensures var v := Scan(lines, hunks); v.Verdict? && !v.canpatch && v.validhunks < |hunks|
  {
    if k == 0 && hunks[0].startsrc == 0 {
      NewFileRun(lines, hunks, 0);
    } else {
      CanPatchExact(lines, hunks);
      assert !Ready(lines, hunks[k]);
    }
  }

  lemma UnfinishedMoves(lines: seq<string>, hunks: seq<Hunk>, cur: nat, st: State, st': State)
    requires cur < |hunks| && st.hunkno <= |hunks| && (st.hunkno < |hunks| ==> cur == st.hunkno)
    requires Good(lines, hunks[cur], |hunks|, st.hunkno, st.validhunks, st')
    ensures SomeUnfinished(lines, hunks, st.hunkno) == SomeUnfinished(lines, hunks, st'.hunkno)
    ensures st'.control == Broke ==> !SomeUnfinished(lines, hunks, st'.hunkno)
  {
    if st'.hunkno != st.hunkno && SomeUnfinished(lines, hunks, st.hunkno) {
      var j :| st.hunkno <= j < |hunks| && Unfinished(lines, hunks[j]);
      assert j > st.hunkno;
    }
  }

  lemma AtTheEnd(lines: seq<string>, hunks: seq<Hunk>, st: State)
    requires st.cur < |hunks| && Inv(lines, hunks, |lines|, st) && Ordered(hunks, 0, 0) && AllSourced(hunks)
    ensures Conclude(st, hunks).Verdict?
    ensures Conclude(st, hunks).premature <==> SomeUnfinished(lines, hunks, st.hunkno)
  {
    OrderedAt(hunks, 0, 0, 0);
    if st.hunkno < |hunks| {
      StillUnfinished(lines, hunks, st);
      assert Unfinished(lines, hunks[st.hunkno]);
    }
  }

  lemma {:induction false} RunPremature(lines: seq<string>, hunks: seq<Hunk>, i: nat, st: State)
    requires i <= |lines| && st.cur < |hunks| && Inv(lines, hunks, i, st)
    requires Ordered(hunks, 0, 0) && AllSourced(hunks)
    ensures Conclude(Run(lines, hunks, i, st), hunks).Verdict?
    ensures Conclude(Run(lines, hunks, i, st), hunks).premature <==> SomeUnfinished(lines, hunks, st.hunkno)
    decreases |lines| - i
  {
    if i == |lines| {
      AtTheEnd(lines, hunks, st);
    } else {
      var st' := Step(st, hunks, i, lines[i]);
      StepEffect(lines, hunks, i, st);
      UnfinishedMoves(lines, hunks, st.cur, st, st');
      StepKeepsCurrent(st, hunks, i, lines[i]);
      if st'.control == Running {
        RunPremature(lines, hunks, i + 1, st');
      } else {
        assert Run(lines, hunks, i + 1, st') == st';
      }
    }
  }

  /**
   On the same hunks the file counts as ended too early if and only if a hunk has no source
   lines, or a window that goes past the end of the file while all that is there and is
   compared agrees.
   */
  lemma PrematureExact(lines: seq<string>, hunks: seq<Hunk>)
    requires hunks != [] && Ordered(hunks, 0, 0) && AllSourced(hunks)
    ensures Scan(lines, hunks).Verdict?
    ensures Scan(lines, hunks).premature <==> SomeUnfinished(lines, hunks, 0)
  {
    OrderedAt(hunks, 0, 0, 0);
    RunPremature(lines, hunks, 0, INIT);
  }

  // ----- index errors

  lemma {:induction false} WaitingRun(lines: seq<string>, hunks: seq<Hunk>, i: nat)
    requires hunks != [] && i < hunks[0].startsrc <= |lines|
    ensures Run(lines, hunks, i, INIT) == Run(lines, hunks, hunks[0].startsrc - 1, INIT)
    decreases hunks[0].startsrc - i
  {
    if i + 1 < hunks[0].startsrc {
      assert Step(INIT, hunks, i, lines[i]) == INIT;
      WaitingRun(lines, hunks, i + 1);
    }
  }

  /** An empty string in the body of a hunk: the scan fails at the first line of its window, whatever came before. */
  lemma EmptyLineStops(st: State, hunks: seq<Hunk>, i: nat, line: string)
    requires st.cur < |hunks| && "" in hunks[st.cur].text && i + 1 == hunks[st.cur].startsrc
    ensures Step(st, hunks, i, line).control == Crashed
  {}

  /** An empty string in the body of the first hunk: the scan fails as soon as the file reaches that hunk. */
  lemma EmptyLineFails(lines: seq<string>, hunks: seq<Hunk>)
    requires hunks != [] && "" in hunks[0].text && 1 <= hunks[0].startsrc <= |lines|
    ensures Scan(lines, hunks).IndexError?
  {
    var i := hunks[0].startsrc - 1;
    WaitingRun(lines, hunks, 0);
    assert Step(INIT, hunks, i, lines[i]).control == Crashed;
    assert Run(lines, hunks, i + 1, Step(INIT, hunks, i, lines[i])).control == Crashed;
  }

  /** Four times the same line, from a given line on. */
  function Repeated(start: nat, x: string): Hunk {
    Hunk(start, 4, start, 4, false, "", [" " + x, " " + x, " " + x, " " + x])
  }

  function Fours(x: string): seq<Hunk> {
    [Repeated(1, x), Repeated(4, x)]
  }

  lemma RepeatedSide(start: nat, x: string)
    ensures SourceSide(Repeated(start, x)) == [Chomp(x), Chomp(x), Chomp(x), Chomp(x)]
    ensures "" !in Repeated(start, x).text
  {
    var t := Repeated(start, x).text;
    assert (" " + x)[1..] == x;
    assert t[1..] == [" " + x, " " + x, " " + x] && t[1..][1..] == [" " + x, " " + x];
    assert t[1..][1..][1..] == [" " + x] && t[1..][1..][1..][1..] == [];
    assert Side([], '-') == [];
    assert Side(t[1..][1..][1..], '-') == [Chomp(x)] + [];
    assert Side(t[1..][1..], '-') == [Chomp(x)] + [Chomp(x)];
    assert Side(t[1..], '-') == [Chomp(x)] + [Chomp(x), Chomp(x)];
  }

  /** Hunks that overlap in one line: the second is compared with the lines of the first, beyond their end. */
  lemma OverlapFails(x: string)
    ensures Scan([x, x, x, x, x, x], Fours(x)).IndexError?
  {
    var lines, hunks, find := [x, x, x, x, x, x], Fours(x), [Chomp(x), Chomp(x), Chomp(x), Chomp(x)];
    RepeatedSide(1, x);
    var s1 := State(0, 0, find, 1, 0, false, Running);
    var s2, s3 := s1.(hunklineno := 2), s1.(hunklineno := 3);
    var s4 := State(1, 1, find, 3, 1, false, Running);
    var s5 := s4.(hunklineno := 4);
    RunOn(lines, hunks, 0, INIT, s1);
    RunOn(lines, hunks, 1, s1, s2);
    RunOn(lines, hunks, 2, s2, s3);
    RunOn(lines, hunks, 3, s3, s4);
    RunOn(lines, hunks, 4, s4, s5);
    RunOn(lines, hunks, 5, s5, s5.(control := Crashed));
    assert Run(lines, hunks, 6, s5.(control := Crashed)) == s5.(control := Crashed);
  }

  lemma RunOn(lines: seq<string>, hunks: seq<Hunk>, i: nat, s: State, t: State)
    requires s.cur < |hunks| && i < |lines| && s.control == Running && Step(s, hunks, i, lines[i]) == t
    ensures t.cur < |hunks| && Run(lines, hunks, i, s) == Run(lines, hunks, i + 1, t)
  {
    StepKeepsCurrent(s, hunks, i, lines[i]);
  }
}
