/**
 The line-driven parser as a state machine: six mode flags, the patch and the hunk under
 construction, and the error counters. One line is one step; the header scan, a loop of
 its own in the program, is the step that keeps the scan flag set.
 */
module Parser {
  import opened Options
  import opened Text
  import opened Hunks
  import opened Decoders

  datatype Ends = Ends(lf: nat, crlf: nat, cr: nat) {
    function Add(e: Eol): Ends {
      match e
      case Lf => this.(lf := lf + 1)
      case CrLf => this.(crlf := crlf + 1)
      case Cr => this.(cr := cr + 1)
      case NoEol => this
    }

    predicate Mixed() {
      (if lf != 0 then 1 else 0) + (if crlf != 0 then 1 else 0) + (if cr != 0 then 1 else 0) > 1
    }
  }

  datatype Patch = Patch(source: Option<string>, target: string, header: seq<string>,
                         hunks: seq<Hunk>, ends: Ends)

  datatype Modes = Modes(headscan: bool, filenames: bool, hunkhead: bool, hunkbody: bool,
                         hunkskip: bool, hunkparsed: bool)

  const SCAN := Modes(true, false, false, false, false, false)
  const NAMES := Modes(false, true, false, false, false, false)
  const HEAD := Modes(false, false, true, false, false, false)
  const BODY := Modes(false, false, false, true, false, false)
  const SKIP := Modes(false, false, false, false, true, false)
  const PARSED := Modes(false, false, false, false, false, true)

  /** `reading` tells that the last line went into the header buffer. */
  datatype State = State(modes: Modes, reading: bool, header: seq<string>,
                         srcname: Option<string>, tgtname: Option<string>,
                         p: Option<Patch>, hunk: Hunk, actualsrc: nat, actualtgt: nat,
                         items: seq<Patch>, errors: nat, warnings: nat)

  const NO_HUNK := Hunk(0, 0, 0, 0, false, "", [])

  function Init(items: seq<Patch>, warnings: nat): State {
    State(SCAN, false, [], None, None, None, NO_HUNK, 0, 0, items, 0, warnings)
  }

  predicate Blank(line: string) {
    forall i :: 0 <= i < |line| ==> IsEol(line[i])
  }

  /** Which mode handles the line after a complete hunk. */
  function Decide(s: State, line: string): State {
    if !s.modes.hunkparsed then s
    else if HunkHead(line).Some? then s.(modes := s.modes.(hunkparsed := false, hunkhead := true))
    else if IsSource(line) then s.(modes := s.modes.(hunkparsed := false, filenames := true))
    else s.(modes := s.modes.(hunkparsed := false, headscan := true))
  }

  function AddHunk(p: Option<Patch>, h: Hunk): Option<Patch> {
    if p.None? then None else Some(p.value.(hunks := p.value.hunks + [h]))
  }

  function CountEnd(p: Option<Patch>, line: string): Option<Patch> {
    if p.None? then None else Some(p.value.(ends := p.value.ends.Add(EolOf(line))))
  }

  /** The hunk is marked invalid, stored, and its remaining lines are skipped. */
  function Invalidate(s: State): State {
    var h := s.hunk.(invalid := true);
    s.(hunk := h, p := AddHunk(s.p, h), errors := s.errors + 1,
       modes := s.modes.(hunkbody := false, hunkskip := true))
  }

  function TakeLine(s: State, line: string): State {
    if !BodyLine(line) then Invalidate(s)
    else
      s.(p := CountEnd(s.p, line), hunk := s.hunk.(text := s.hunk.text + [line]),
         actualsrc := s.actualsrc + (if line[0] == '-' || line[0] == ' ' then 1 else 0),
         actualtgt := s.actualtgt + (if line[0] == '+' || line[0] == ' ' then 1 else 0))
  }

  predicate Exceeded(s: State) {
    s.actualsrc > s.hunk.linessrc || s.actualtgt > s.hunk.linestgt
  }

  predicate Reached(s: State) {
    s.actualsrc == s.hunk.linessrc && s.actualtgt == s.hunk.linestgt
  }

  /** The exit conditions of the body mode. */
  function CheckExit(s: State): State {
    if Exceeded(s) then Invalidate(s)
    else if Reached(s) then
      var p := AddHunk(s.p, s.hunk);
      s.(p := p, modes := s.modes.(hunkbody := false, hunkparsed := true),
         warnings := s.warnings + (if p.Some? && p.value.ends.Mixed() then 1 else 0))
    else s
  }

  function Body(s: State, line: string): State {
    if Blank(line) then CheckExit(TakeLine(s.(warnings := s.warnings + 1), " " + line))
    else CheckExit(TakeLine(s, line))
  }

  function Skip(s: State, line: string): State {
    if !s.modes.hunkskip then s
    else if HunkHead(line).Some? then s.(modes := s.modes.(hunkskip := false, hunkhead := true))
    else if IsSource(line) then s.(modes := s.modes.(hunkskip := false, filenames := true))
    else s
  }

  function BackToScan(s: State): State {
    s.(modes := s.modes.(filenames := false, headscan := true))
  }

  /** The line names the target of the source seen before: a new patch begins. */
  predicate OpensPatch(s: State, line: string) {
    !IsSource(line) && IsTarget(line) && s.tgtname.None? && Name(line).Some?
  }

  /** The file name lines. */
  function Names(s: State, line: string): State {
    if IsSource(line) then
      match Name(line)
      case Some(name) => s.(srcname := Some(name))
      case None => BackToScan(s.(srcname := None, errors := s.errors + 1))
    else if !IsTarget(line) then
      BackToScan(if s.srcname.Some? then s.(srcname := None, errors := s.errors + 1) else s)
    else if s.tgtname.Some? then BackToScan(s.(srcname := None, tgtname := None, errors := s.errors + 1))
    else if !OpensPatch(s, line) then BackToScan(s.(srcname := None, errors := s.errors + 1))
    else
      s.(items := if s.p.Some? then s.items + [s.p.value] else s.items,
         p := Some(Patch(s.srcname, Name(line).value, s.header, [], Ends(0, 0, 0))),
         srcname := None, header := [],
         modes := s.modes.(filenames := false, hunkhead := true))
  }

  /** The start line of a hunk. */
  function StartHunk(s: State, line: string): State {
    match HunkHead(line)
    case None =>
      var failed := s.(modes := s.modes.(hunkhead := false, headscan := true));
      if s.p.Some? && s.p.value.hunks == [] then failed.(errors := s.errors + 1) else failed
    case Some(head) =>
      s.(hunk := Hunk(head.startsrc, head.linessrc, head.starttgt, head.linestgt, false, head.desc, []),
         actualsrc := 0, actualtgt := 0,
         modes := s.modes.(hunkhead := false, hunkbody := true))
  }

  /** An empty line inside a body stands for an empty context line. */
  function Expanded(s: State, line: string): string {
    if s.modes.hunkbody && Blank(line) then " " + line else line
  }

  /** The state in which the file name block finds the line. */
  function BeforeNames(s: State, line: string): State {
    Skip(if s.modes.hunkbody then Body(s, line) else s, Expanded(s, line))
  }

  function AfterNames(s: State, line: string): State {
    if s.modes.filenames then Names(s, line) else s
  }

  /** The blocks of the loop body after the header scan; a complete hunk or a new patch ends the turn. */
  function Handle(s: State, line: string): State {
    if s.modes.hunkbody && Body(s, line).modes.hunkparsed then Body(s, line)
    else
      var k, text := BeforeNames(s, line), Expanded(s, line);
      var n := AfterNames(k, text);
      if (k.modes.filenames && OpensPatch(k, text)) || !n.modes.hunkhead then n else StartHunk(n, text)
  }

  /** The header scan keeps the line. */
  predicate Scans(s: State, line: string) {
    Decide(s, line).modes.headscan && !IsSource(line)
  }

  /** The state after the deciders and, where the scan stops at this line, after the scan. */
  function Decided(s: State, line: string): State {
    var d := Decide(s, line).(reading := false);
    if d.modes.headscan then d.(modes := d.modes.(headscan := false, filenames := true)) else d
  }

  function Step(s: State, line: string): State {
    if Scans(s, line) then
      var d := Decide(s, line);
      d.(header := d.header + [line], reading := true)
    else Handle(Decided(s, line), line)
  }

  function Run(s: State, lines: seq<string>, i: nat): State
    requires i <= |lines|
    decreases |lines| - i
  {
    if i == |lines| then s else Run(Step(s, lines[i]), lines, i + 1)
  }

  datatype Result = Result(ok: bool, items: seq<Patch>, errors: nat, warnings: nat)

  /** The end of the stream. */
  function Finish(s: State): Result {
    var errors := s.errors + (if s.reading && s.p.None? then 1 else 0);
    var warnings := s.warnings + (if s.reading && s.p.Some? then 1 else 0);
    var items := if s.p.Some? then s.items + [s.p.value] else s.items;
    if s.modes.hunkparsed || s.modes.hunkskip then Result(errors == 0, items, errors, warnings)
    else if s.modes.headscan then Result(items != [] && errors == 0, items, errors, warnings)
    else Result(false, items, errors + 1, warnings)
  }

  function Parse(items: seq<Patch>, warnings: nat, lines: seq<string>): Result {
    Finish(Run(Init(items, warnings), lines, 0))
  }

  lemma {:induction false} RunConcat(s: State, a: seq<string>, b: seq<string>, i: nat)
    requires i <= |a|
    ensures Run(s, a + b, i) == Run(Run(s, a, i), b, 0)
    decreases |a| - i
  {
    if i == |a| {
      RunSuffix(s, a, b, 0);
    } else {
      RunConcat(Step(s, a[i]), a, b, i + 1);
    }
  }

  lemma {:induction false} RunSuffix(s: State, a: seq<string>, b: seq<string>, j: nat)
    requires j <= |b|
    ensures Run(s, a + b, |a| + j) == Run(s, b, j)
    decreases |b| - j
  {
    if j < |b| {
      RunSuffix(Step(s, b[j]), a, b, j + 1);
    }
  }
}
