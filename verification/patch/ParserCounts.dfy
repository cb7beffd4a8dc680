/**
 What the parser counts: the line ends of every patch, and its warnings.
 */
module ParserCounts {
  import opened Counting
  import opened Options
  import opened Text
  import opened Hunks
  import opened Decoders
  import opened Parser
  import opened ParserProofs
  import opened ParserSound

  // ----- line ends

  /** How many of the lines have this line end. */
  function WithEnd(lines: seq<string>, e: Eol): nat {
    if lines == [] then 0 else Bit(EolOf(lines[0]) == e) + WithEnd(lines[1..], e)
  }

  lemma {:induction false} WithEndConcat(a: seq<string>, b: seq<string>, e: Eol)
    ensures WithEnd(a + b, e) == WithEnd(a, e) + WithEnd(b, e)
  {
    if a == [] {
      assert a + b == b;
    } else {
      assert (a + b)[1..] == a[1..] + b;
      WithEndConcat(a[1..], b, e);
    }
  }

  /** The statistics are those of the lines. */
  predicate Tallied(ends: Ends, lines: seq<string>) {
    ends.lf == WithEnd(lines, Lf) && ends.crlf == WithEnd(lines, CrLf) && ends.cr == WithEnd(lines, Cr)
  }

  /** The body lines of all hunks. */
  function Bodies(hunks: seq<Hunk>, k: nat): seq<string>
    requires k <= |hunks|
    decreases |hunks| - k
  {
    if k == |hunks| then [] else hunks[k].text + Bodies(hunks, k + 1)
  }

  lemma {:induction false} BodiesAppend(hunks: seq<Hunk>, h: Hunk, k: nat)
    requires k <= |hunks|
    ensures Bodies(hunks + [h], k) == Bodies(hunks, k) + h.text
    decreases |hunks| - k
  {
    if k == |hunks| {
      assert Bodies(hunks + [h], k + 1) == [];
    } else {
      BodiesAppend(hunks, h, k + 1);
      assert hunks[k].text + (Bodies(hunks, k + 1) + h.text) == (hunks[k].text + Bodies(hunks, k + 1)) + h.text;
    }
  }

  predicate PatchTallied(p: Patch) {
    Tallied(p.ends, Bodies(p.hunks, 0))
  }

  predicate AllTallied(items: seq<Patch>) {
    forall i {:trigger PatchTallied(items[i])} :: 0 <= i < |items| ==> PatchTallied(items[i])
  }

  /** The body lines read for the patch under construction. */
  function ReadSoFar(s: State): seq<string>
    requires s.p.Some?
  {
    Bodies(s.p.value.hunks, 0) + (if s.modes.hunkbody then s.hunk.text else [])
  }

  predicate Counted(s: State) {
    AllTallied(s.items) && (s.p.Some? ==> Tallied(s.p.value.ends, ReadSoFar(s)))
  }

  lemma AddTallies(ends: Ends, lines: seq<string>, line: string)
    requires Tallied(ends, lines)
    ensures Tallied(ends.Add(EolOf(line)), lines + [line])
  {
    assert [line][1..] == [];
    WithEndConcat(lines, [line], Lf);
    WithEndConcat(lines, [line], CrLf);
    WithEndConcat(lines, [line], Cr);
    assert forall e :: WithEnd([line], e) == Bit(EolOf(line) == e) + WithEnd([], e);
  }

  /** The lines of the hunk under construction are counted, stored or not. */
  predicate HunkCounted(s: State) {
    s.p.Some? && Tallied(s.p.value.ends, Bodies(s.p.value.hunks, 0) + s.hunk.text)
  }

  lemma TakeCounted(s: State, line: string)
    requires HunkCounted(s) && BodyLine(line)
    ensures HunkCounted(TakeLine(s, line)) && TakeLine(s, line).items == s.items
  {
    var all := Bodies(s.p.value.hunks, 0);
    AddTallies(s.p.value.ends, all + s.hunk.text, line);
    assert (all + s.hunk.text) + [line] == all + (s.hunk.text + [line]);
  }

  lemma ExitCounted(s: State)
    requires HunkCounted(s) && s.modes.hunkbody && !Exceeded(s) && AllTallied(s.items)
    ensures Counted(CheckExit(s))
  {
    if Reached(s) {
      BodiesAppend(s.p.value.hunks, s.hunk, 0);
      assert Bodies(s.p.value.hunks + [s.hunk], 0) + [] == Bodies(s.p.value.hunks, 0) + s.hunk.text;
    }
  }

  lemma BodyCounted(s: State, line: string)
    requires s.modes == BODY && s.p.Some? && Counted(s) && Body(s, line).errors == s.errors
    ensures Counted(Body(s, line))
  {
    var text := if Blank(line) then " " + line else line;
    var s0 := if Blank(line) then s.(warnings := s.warnings + 1) else s;
    assert BodyLine(text);
    TakeCounted(s0, text);
    assert !Exceeded(TakeLine(s0, text));
    ExitCounted(TakeLine(s0, text));
  }

  lemma NamesCounted(s: State, line: string)
    requires s.modes == NAMES && Counted(s)
    ensures Counted(Handle(s, line))
  {
    if s.p.Some? {
      assert ReadSoFar(s) == Bodies(s.p.value.hunks, 0);
    }
    if OpensPatch(s, line) {
      OpensCounted(s, line);
    } else {
      NamesLeave(s, line);
    }
  }

  lemma OpensCounted(s: State, line: string)
    requires s.modes == NAMES && OpensPatch(s, line)
    ensures var h := Handle(s, line);
            && h.p.Some? && h.p.value.ends == Ends(0, 0, 0) && h.p.value.hunks == [] && !h.modes.hunkbody
            && h.items == if s.p.Some? then s.items + [s.p.value] else s.items
  {
    assert Handle(s, line) == Names(s, line);
  }

  lemma NamesLeave(s: State, line: string)
    requires s.modes == NAMES && !OpensPatch(s, line)
    ensures var h := Handle(s, line); h.p == s.p && h.items == s.items && !h.modes.hunkbody
  {}

  lemma HeadCounted(s: State, line: string)
    requires s.modes == HEAD && s.p.Some? && Counted(s)
    ensures Counted(Handle(s, line))
  {
    var h := Handle(s, line);
    assert h.p == s.p && h.items == s.items;
    assert h.modes.hunkbody ==> h.hunk.text == [];
  }

  lemma DecidedCounted(s: State, line: string)
    requires Inv(s) && Sound(s) && Counted(s)
    ensures Counted(Decided(s, line))
  {
    var d := Decided(s, line);
    assert d.p == s.p && d.items == s.items && d.hunk == s.hunk;
    assert d.modes.hunkbody == s.modes.hunkbody;
  }

  lemma StepCounted(s: State, line: string)
    requires Inv(s) && Sound(s) && Counted(s) && Step(s, line).errors == s.errors
    ensures Counted(Step(s, line))
  {
    if Scans(s, line) {
      var t := Step(s, line);
      assert t.p == s.p && t.items == s.items && !t.modes.hunkbody && !s.modes.hunkbody;
    } else {
      var d := Decided(s, line);
      DecidedSound(s, line);
      DecidedCounted(s, line);
      if d.modes == BODY {
        BodyErrorFree(d, line);
        BodyCounted(d, line);
        BodySound(d, line);
      } else if d.modes == NAMES {
        NamesCounted(d, line);
      } else {
        HeadCounted(d, line);
      }
    }
  }

  lemma {:induction false} RunCounted(s: State, lines: seq<string>, i: nat)
    requires i <= |lines| && Inv(s) && Sound(s) && Counted(s) && Run(s, lines, i).errors == s.errors
    ensures Counted(Run(s, lines, i)) && Inv(Run(s, lines, i)) && Sound(Run(s, lines, i))
    decreases |lines| - i
  {
    if i < |lines| {
      ErrorsGrow(s, lines[i]);
      RunErrorsGrow(Step(s, lines[i]), lines, i + 1);
      StepKeeps(s, lines[i]);
      StepSound(s, lines[i]);
      StepCounted(s, lines[i]);
      RunCounted(Step(s, lines[i]), lines, i + 1);
    }
  }

  /** After a successful parse the statistics of every patch are the line ends of its body lines. */
  lemma EndsExact(warnings: nat, lines: seq<string>)
    requires Parse([], warnings, lines).ok
    ensures AllTallied(Parse([], warnings, lines).items)
  {
    var init := Init([], warnings);
    var s := Run(init, lines, 0);
    RunErrorsGrow(init, lines, 0);
    RunCounted(init, lines, 0);
    if s.p.Some? {
      assert !s.modes.hunkbody;
      assert ReadSoFar(s) == Bodies(s.p.value.hunks, 0);
    }
  }

  // ----- warnings

  /** The line is an empty one inside a body. */
  predicate EmptyInBody(s: State, line: string) {
    s.modes.hunkbody && forall i :: 0 <= i < |line| ==> line[i] == '\n' || line[i] == '\r'
  }

  /** At least two kinds of line ends occur. */
  predicate Inconsistent(ends: Ends) {
    (ends.lf > 0 && ends.crlf > 0) || (ends.lf > 0 && ends.cr > 0) || (ends.crlf > 0 && ends.cr > 0)
  }

  /** The line completes a hunk, in a patch with inconsistent line ends so far. */
  predicate CompletesMixed(s: State, line: string) {
    var t := Step(s, line);
    s.modes.hunkbody && t.modes.hunkparsed && t.p.Some? && Inconsistent(t.p.value.ends)
  }

  lemma BodyWarns(s: State, line: string)
    requires s.modes.hunkbody && !s.modes.hunkparsed
    ensures Body(s, line).warnings == s.warnings + Bit(EmptyInBody(s, line))
              + Bit(Body(s, line).modes.hunkparsed && Body(s, line).p.Some? && Inconsistent(Body(s, line).p.value.ends))
  {}

  /** The blocks behind the body neither warn nor complete a hunk. */
  predicate Quiet(s: State, t: State) {
    t.warnings == s.warnings && t.modes.hunkparsed == s.modes.hunkparsed
  }

  lemma SkipIsQuiet(s: State, line: string)
    ensures Quiet(s, Skip(s, line))
  {}

  lemma NamesAreQuiet(s: State, line: string)
    ensures Quiet(s, AfterNames(s, line))
  {}

  lemma StartIsQuiet(s: State, line: string)
    ensures Quiet(s, StartHunk(s, line))
  {}

  lemma HandleIsQuiet(s: State, line: string)
    ensures var b := if s.modes.hunkbody then Body(s, line) else s;
            Quiet(b, Handle(s, line))
    ensures s.modes.hunkbody && Body(s, line).modes.hunkparsed ==> Handle(s, line) == Body(s, line)
  {
    var b := if s.modes.hunkbody then Body(s, line) else s;
    var text, k := Expanded(s, line), BeforeNames(s, line);
    SkipIsQuiet(b, text);
    NamesAreQuiet(k, text);
    StartIsQuiet(AfterNames(k, text), text);
  }

  lemma BodyStepWarns(s: State, line: string)
    requires s.modes == BODY
    ensures Step(s, line).warnings == s.warnings + Bit(EmptyInBody(s, line)) + Bit(CompletesMixed(s, line))
  {
    var d := s.(reading := false);
    assert Step(s, line) == Handle(d, line);
    HandleIsQuiet(d, line);
    BodyWarns(d, line);
  }

  lemma OtherStepWarns(s: State, line: string)
    requires !s.modes.hunkbody
    ensures Step(s, line).warnings == s.warnings
  {
    if !Scans(s, line) {
      HandleIsQuiet(Decided(s, line), line);
    }
  }

  /**
   Each line warns once for being empty inside a body, and once for completing a hunk of a
   patch with inconsistent line ends.
   */
  lemma StepWarns(s: State, line: string)
    requires Inv(s) && OneMode(s)
    ensures Step(s, line).warnings == s.warnings + Bit(EmptyInBody(s, line)) + Bit(CompletesMixed(s, line))
  {
    if s.modes.hunkbody {
      assert s.modes == BODY;
      BodyStepWarns(s, line);
    } else {
      OtherStepWarns(s, line);
    }
  }

  /** And the end of the stream warns once for lines behind the last patch that are not part of any. */
  lemma FinishWarns(s: State)
    ensures Finish(s).warnings == s.warnings + Bit(s.reading && s.p.Some?)
  {}
}
