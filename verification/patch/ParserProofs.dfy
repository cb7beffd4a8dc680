/**
 What the parser keeps on every input: its modes, its counters, and the soundness of
 what it stores.
 */
module ParserProofs {
  import opened Counting
  import opened Options
  import opened Hunks
  import opened Decoders
  import opened Parser

  // ----- modes

  function ModeCount(m: Modes): nat {
    Bit(m.headscan) + Bit(m.filenames) + Bit(m.hunkhead) + Bit(m.hunkbody) + Bit(m.hunkskip) + Bit(m.hunkparsed)
  }

  predicate OneMode(s: State) {
    ModeCount(s.modes) == 1
  }

  /** The skip flag can linger beside the flag for a complete hunk, or beside the header scan. */
  predicate OneModeOrSkip(m: Modes) {
    ModeCount(m) == 1 || (m.hunkskip && ModeCount(m) == 2 && (m.hunkparsed || m.headscan))
  }

  /** What holds at every loop head, on every input. */
  predicate Inv(s: State) {
    && OneModeOrSkip(s.modes)
    && s.tgtname == None
    && (s.modes.hunkbody || s.modes.hunkhead || s.modes.hunkskip || s.modes.hunkparsed ==> s.p.Some?)
    && (s.modes.hunkhead ==> s.p.value.hunks == [])
    && (s.modes.filenames <==> s.srcname.Some?)
    && (s.modes.hunkbody ==> s.actualsrc <= s.hunk.linessrc && s.actualtgt <= s.hunk.linestgt)
    && (s.modes.hunkbody && Reached(s) ==> s.actualsrc == s.actualtgt == 0)
    && (s.modes.hunkbody ==> !s.hunk.invalid)
  }

  /** The one trap: a hunk that declares no lines at all meets a line that cannot be in a body. */
  predicate Trap(s: State, line: string) {
    s.modes.hunkbody && s.hunk.linessrc == 0 && s.hunk.linestgt == 0 && !Blank(line) && !BodyLine(line)
  }

  lemma BlankIsNoMarker(line: string)
    requires Blank(line)
    ensures BodyLine(" " + line) && !IsSource(" " + line) && HunkHead(" " + line).None?
  {
    assert (" " + line)[0] == ' ';
  }

  lemma BodyKeeps(s: State, line: string)
    requires Inv(s) && s.modes == BODY
    ensures var b := Body(s, line);
            && b.tgtname == None && b.p.Some? && b.srcname == None
            && (b.modes == BODY || b.modes == SKIP || b.modes == PARSED
                || (b.modes == PARSED.(hunkskip := true) && Trap(s, line)))
            && (Trap(s, line) ==> b.modes == PARSED.(hunkskip := true))
            && (b.modes == BODY ==> Inv(b))
  {
    if Blank(line) {
      BlankIsNoMarker(line);
    }
  }

  predicate Calm(s: State) {
    Inv(s) && OneMode(s)
  }

  lemma SkipKeeps(s: State, line: string)
    requires s.p.Some? && s.tgtname == None && s.srcname == None && s.modes == SKIP
    ensures Calm(Handle(s, line))
  {}

  lemma NamesKeeps(s: State, line: string)
    requires s.tgtname == None
    requires s.modes == NAMES || (s.modes == NAMES.(hunkskip := true) && IsSource(line))
    requires IsSource(line) || s.srcname.Some?
    ensures Calm(Handle(s, line))
  {
    assert IsSource(line) ==> HunkHead(line).None?;
  }

  lemma HeadKeeps(s: State, line: string)
    requires s.tgtname == None && s.srcname == None && s.p.Some?
    requires s.modes == HEAD || (s.modes == HEAD.(hunkskip := true) && HunkHead(line).Some?)
    requires s.p.value.hunks == [] || HunkHead(line).Some?
    ensures Calm(Handle(s, line))
  {}

  lemma BodyStepKeeps(s: State, line: string)
    requires Inv(s) && s.modes == BODY
    ensures Inv(Handle(s, line)) && (OneMode(Handle(s, line)) <==> !Trap(s, line))
  {
    BodyKeeps(s, line);
    var b := Body(s, line);
    if Blank(line) {
      BlankIsNoMarker(line);
      assert Handle(s, line) == b;
    } else if b.modes == SKIP {
      assert Handle(s, line) == Handle(b, line);
      SkipKeeps(b, line);
    } else {
      assert Handle(s, line) == b;
    }
  }

  /** The modes are kept, and the trap is the only way to set two of them at once. */
  lemma StepKeeps(s: State, line: string)
    requires Inv(s)
    ensures Inv(Step(s, line))
    ensures OneMode(s) ==> (OneMode(Step(s, line)) <==> !Trap(s, line))
  {
    if !Scans(s, line) {
      var d := Decided(s, line);
      if d.modes.hunkbody {
        BodyStepKeeps(d, line);
      } else if d.modes.filenames {
        NamesKeeps(d, line);
      } else if d.modes.hunkhead {
        HeadKeeps(d, line);
      } else {
        SkipKeeps(d, line);
      }
    }
  }

  lemma {:induction false} RunKeeps(s: State, lines: seq<string>, i: nat)
    requires i <= |lines| && Inv(s)
    ensures Inv(Run(s, lines, i))
    decreases |lines| - i
  {
    if i < |lines| {
      StepKeeps(s, lines[i]);
      RunKeeps(Step(s, lines[i]), lines, i + 1);
    }
  }

  predicate AlwaysOneMode(s: State, lines: seq<string>, i: nat)
    requires i <= |lines|
    decreases |lines| - i
  {
    OneMode(s) && (i < |lines| ==> AlwaysOneMode(Step(s, lines[i]), lines, i + 1))
  }

  predicate NeverTrapped(s: State, lines: seq<string>, i: nat)
    requires i <= |lines|
    decreases |lines| - i
  {
    i < |lines| ==> !Trap(s, lines[i]) && NeverTrapped(Step(s, lines[i]), lines, i + 1)
  }

  /** Exactly one mode at every loop head, if and only if no line falls into the trap. */
  lemma {:induction false} ModesExact(s: State, lines: seq<string>, i: nat)
    requires i <= |lines| && Inv(s) && OneMode(s)
    ensures AlwaysOneMode(s, lines, i) <==> NeverTrapped(s, lines, i)
    decreases |lines| - i
  {
    if i < |lines| {
      StepKeeps(s, lines[i]);
      if OneMode(Step(s, lines[i])) {
        ModesExact(Step(s, lines[i]), lines, i + 1);
      }
    }
  }

  predicate NoEmptyHead(lines: seq<string>) {
    forall i :: 0 <= i < |lines| ==>
      match HunkHead(lines[i])
      case None => true
      case Some(head) => head.linessrc + head.linestgt > 0
  }

  predicate BodyNotEmpty(s: State) {
    s.modes.hunkbody ==> s.hunk.linessrc + s.hunk.linestgt > 0
  }

  lemma StepBodyNotEmpty(s: State, line: string)
    requires Inv(s) && BodyNotEmpty(s)
    requires HunkHead(line).Some? ==> HunkHead(line).value.linessrc + HunkHead(line).value.linestgt > 0
    ensures BodyNotEmpty(Step(s, line))
  {
    if !Scans(s, line) {
      var d := Decided(s, line);
      if d.modes.hunkbody {
        BodyStaysNonEmpty(d, line);
      } else {
        HeadOpensBody(d, line);
      }
    }
  }

  /** Outside a body, body mode is entered by a start line only, with the counts it declares. */
  lemma HeadOpensBody(s: State, line: string)
    requires !s.modes.hunkbody
    ensures var h := Handle(s, line);
            h.modes.hunkbody ==>
              && HunkHead(line).Some?
              && h.hunk.linessrc == HunkHead(line).value.linessrc
              && h.hunk.linestgt == HunkHead(line).value.linestgt
  {
    var k := BeforeNames(s, line);
    SkipSetsNoBody(s, line);
    NamesSetNoBody(k, line);
  }

  lemma SkipSetsNoBody(s: State, line: string)
    ensures Skip(s, line).modes.hunkbody == s.modes.hunkbody
  {}

  lemma NamesSetNoBody(s: State, line: string)
    ensures AfterNames(s, line).modes.hunkbody == s.modes.hunkbody
  {
    if s.modes.filenames && !OpensPatch(s, line) {
      assert Names(s, line).modes in {s.modes, BackToScan(s).modes};
    }
  }

  lemma BodyStaysNonEmpty(s: State, line: string)
    requires Inv(s) && s.modes == BODY && BodyNotEmpty(s)
    requires HunkHead(line).Some? ==> HunkHead(line).value.linessrc + HunkHead(line).value.linestgt > 0
    ensures BodyNotEmpty(Handle(s, line))
  {
    BodyKeeps(s, line);
    var b := Body(s, line);
    if Blank(line) {
      BlankIsNoMarker(line);
      assert Handle(s, line) == b;
    } else if b.modes == SKIP {
      assert Handle(s, line) == Handle(b, line);
    } else {
      assert Handle(s, line) == b;
    }
  }

  lemma {:induction false} NoTrapWithoutEmptyHead(s: State, lines: seq<string>, i: nat)
    requires i <= |lines| && Inv(s) && BodyNotEmpty(s) && NoEmptyHead(lines)
    ensures NeverTrapped(s, lines, i)
    decreases |lines| - i
  {
    if i < |lines| {
      StepKeeps(s, lines[i]);
      StepBodyNotEmpty(s, lines[i]);
      NoTrapWithoutEmptyHead(Step(s, lines[i]), lines, i + 1);
    }
  }

  /** The modes of a whole parse: always one when no header declares an empty hunk. */
  lemma ParseModes(items: seq<Patch>, warnings: nat, lines: seq<string>)
    ensures AlwaysOneMode(Init(items, warnings), lines, 0) <==> NeverTrapped(Init(items, warnings), lines, 0)
    ensures NoEmptyHead(lines) ==> AlwaysOneMode(Init(items, warnings), lines, 0)
    ensures Inv(Run(Init(items, warnings), lines, 0))
  {
    ModesExact(Init(items, warnings), lines, 0);
    RunKeeps(Init(items, warnings), lines, 0);
    if NoEmptyHead(lines) {
      NoTrapWithoutEmptyHead(Init(items, warnings), lines, 0);
    }
  }

  /** The branches the program itself calls dead: what their guards would need never holds. */
  predicate GuardsDead(k: State, text: string) {
    && k.tgtname == None
    && (k.modes.filenames ==> IsSource(text) || k.srcname.Some?)
    && (AfterNames(k, text).modes.hunkhead && !OpensPatch(k, text) && HunkHead(text).None?
        ==> k.p.Some? && k.p.value.hunks == [])
  }

  /**
   On every input a second target name, a name block without a source, and a broken start
   line after a complete hunk never occur where the program tests for them.
   */
  lemma DeadBranches(s: State, line: string)
    requires Inv(s) && !Scans(s, line)
    ensures var d := Decided(s, line);
            !(d.modes.hunkbody && Body(d, line).modes.hunkparsed)
            ==> GuardsDead(BeforeNames(d, line), Expanded(d, line))
  {
    var d := Decided(s, line);
    if d.modes.hunkbody {
      if !Body(d, line).modes.hunkparsed {
        BodyGuards(d, line);
      }
    } else {
      OtherGuards(d, line);
    }
  }

  lemma OtherGuards(s: State, line: string)
    requires s.tgtname == None && !s.modes.hunkbody
    requires s.modes.filenames ==> IsSource(line) || s.srcname.Some?
    requires s.modes.hunkhead && HunkHead(line).None? ==> s.p.Some? && s.p.value.hunks == []
    ensures GuardsDead(BeforeNames(s, line), Expanded(s, line))
  {
    var k := Skip(s, line);
    assert k.tgtname == None && k.p == s.p && k.srcname == s.srcname;
    if k.modes.filenames && !OpensPatch(k, line) {
      assert AfterNames(k, line).modes.hunkhead ==> k.modes.hunkhead;
    }
  }

  lemma BodyGuards(s: State, line: string)
    requires Inv(s) && s.modes == BODY && !Body(s, line).modes.hunkparsed
    ensures GuardsDead(BeforeNames(s, line), Expanded(s, line))
  {
    BodyKeeps(s, line);
    if Blank(line) {
      BlankIsNoMarker(line);
    }
  }
}
