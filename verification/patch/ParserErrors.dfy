/**
 What the parser counts as an error, line by line, and what it stores for a hunk that fails.
 */
module ParserErrors {
  import opened Counting
  import opened Options
  import opened Hunks
  import opened Decoders
  import opened Parser
  import opened ParserProofs
  import opened ParserCounts

  /** An empty line in a body stands for an empty line of context. */
  function AsBodyLine(line: string): string {
    if forall i :: 0 <= i < |line| ==> line[i] == '\n' || line[i] == '\r' then " " + line else line
  }

  /** No known sign, or one line too many for one of the two counts of the start line. */
  predicate BadBody(s: State, line: string) {
    var text := AsBodyLine(line);
    s.modes == BODY
    && (|| text[0] !in {'-', '+', ' ', '\\'}
        || (text[0] in {'-', ' '} && s.actualsrc == s.hunk.linessrc)
        || (text[0] in {'+', ' '} && s.actualtgt == s.hunk.linestgt))
  }

  /** The line is looked at as one of the two lines with file names. */
  predicate AtNames(s: State, line: string) {
    || s.modes == NAMES
    || ((s.modes == SCAN || s.modes == PARSED || s.modes == SKIP || BadBody(s, line)) && IsSource(line))
  }

  /** Nothing behind the marker, or a tab. */
  predicate Nameless(line: string) {
    |line| == 4 || (|line| > 4 && line[4] == '\t')
  }

  /** A name line without a name, or no target behind a source. */
  predicate BadName(s: State, line: string) {
    AtNames(s, line)
    && if IsSource(line) || IsTarget(line) then Nameless(line) else s.srcname.Some?
  }

  /** No hunk behind the file names. */
  predicate BadHead(s: State, line: string) {
    s.modes == HEAD && HunkHead(line).None?
  }

  lemma NamelessExact(line: string)
    requires |line| >= 4
    ensures Name(line).None? <==> Nameless(line)
  {}

  /** The blocks of a turn behind the body. */
  function Rest(s: State, line: string): State {
    var k := Skip(s, line);
    var n := AfterNames(k, line);
    if (k.modes.filenames && OpensPatch(k, line)) || !n.modes.hunkhead then n else StartHunk(n, line)
  }

  lemma HandleIsRest(s: State, line: string)
    ensures Handle(s, line) ==
            if !s.modes.hunkbody then Rest(s, line)
            else if Body(s, line).modes.hunkparsed then Body(s, line)
            else Rest(Body(s, line), AsBodyLine(line))
  {}

  lemma RestOfSkip(s: State, line: string)
    requires s.modes == SKIP && s.tgtname == None
    ensures Rest(s, line).errors == s.errors + Bit(IsSource(line) && Nameless(line))
    ensures Rest(s, line).p == s.p
  {
    if IsSource(line) {
      NamelessExact(line);
      assert HunkHead(line).None?;
    }
  }

  lemma RestOfNames(s: State, line: string)
    requires s.modes == NAMES && s.tgtname == None
    ensures Rest(s, line).errors == s.errors
              + Bit(if IsSource(line) || IsTarget(line) then Nameless(line) else s.srcname.Some?)
  {
    if |line| >= 4 {
      NamelessExact(line);
    }
    assert Skip(s, line) == s && AfterNames(s, line) == Names(s, line);
  }

  lemma RestOfHead(s: State, line: string)
    requires s.modes == HEAD && s.p.Some? && s.p.value.hunks == []
    ensures Rest(s, line).errors == s.errors + Bit(HunkHead(line).None?)
  {}

  lemma RestOfBody(s: State, line: string)
    requires s.modes == BODY
    ensures Rest(s, line) == s
  {}

  /** A hunk that fails is stored as invalid, with the line too many or without the unknown one. */
  lemma BodyFaults(s: State, line: string)
    requires Inv(s) && s.modes == BODY && !Trap(s, line)
    ensures var b, text := Body(s, line), AsBodyLine(line);
            && b.errors == s.errors + Bit(BadBody(s, line)) && b.p.Some? && b.tgtname == s.tgtname
            && b.modes == (if BadBody(s, line) then SKIP else if b.modes.hunkparsed then PARSED else BODY)
            && (BadBody(s, line) ==>
                  b.p.value.hunks == s.p.value.hunks
                    + [s.hunk.(invalid := true, text := if BodyLine(text) then s.hunk.text + [text] else s.hunk.text)])
  {}

  lemma BodyStep(s: State, line: string)
    requires Inv(s) && s.modes == BODY && !Trap(s, line)
    ensures Handle(s, line).errors == s.errors + Bit(BadBody(s, line)) + Bit(BadName(s, line))
    ensures Handle(s, line).p == Body(s, line).p
  {
    var text, b := AsBodyLine(line), Body(s, line);
    BodyFaults(s, line);
    HandleIsRest(s, line);
    if BadBody(s, line) {
      RestOfSkip(b, text);
      SourceAsIs(line);
    } else if !b.modes.hunkparsed {
      RestOfBody(b, text);
    }
  }

  lemma SourceAsIs(line: string)
    ensures IsSource(AsBodyLine(line)) <==> IsSource(line)
    ensures IsSource(line) ==> AsBodyLine(line) == line
  {}

  predicate Hit(s: State, line: string, errors: nat) {
    errors == s.errors + Bit(BadBody(s, line)) + Bit(BadName(s, line)) + Bit(BadHead(s, line))
  }

  lemma ScannedStep(s: State, line: string)
    requires Inv(s) && (s.modes == SCAN || s.modes == PARSED)
    ensures Hit(s, line, Step(s, line).errors)
  {
    if !Scans(s, line) {
      var d := Decided(s, line);
      HandleIsRest(d, line);
      if IsSource(line) {
        assert HunkHead(line).None?;
        RestOfNames(d, line);
      } else {
        assert d.modes == HEAD;
        assert Rest(d, line).errors == d.errors;
      }
    }
  }

  lemma NamedStep(s: State, line: string)
    requires Inv(s) && (s.modes == NAMES || s.modes == HEAD || s.modes == SKIP)
    ensures Hit(s, line, Step(s, line).errors)
  {
    var d := s.(reading := false);
    assert Step(s, line) == Handle(d, line);
    HandleIsRest(d, line);
    if s.modes == NAMES {
      RestOfNames(d, line);
    } else if s.modes == HEAD {
      RestOfHead(d, line);
    } else {
      RestOfSkip(d, line);
    }
  }

  /**
   The errors of one line: a body line that is unknown or one too many, a name line without a
   name or no target behind a source, and no hunk behind the file names. Nothing else is one.
   */
  lemma StepErrors(s: State, line: string)
    requires Inv(s) && OneMode(s) && !Trap(s, line)
    ensures Hit(s, line, Step(s, line).errors)
  {
    if s.modes == BODY {
      var d := s.(reading := false);
      assert Step(s, line) == Handle(d, line);
      BodyStep(d, line);
    } else if s.modes == SCAN || s.modes == PARSED {
      ScannedStep(s, line);
    } else {
      NamedStep(s, line);
    }
  }

  /**
   The end of the stream: one more error for lines that belong to no patch when there is none,
   and one for a patch that is not complete. The parse succeeds without errors and with a patch.
   */
  lemma FinishExact(s: State)
    requires Inv(s) && OneMode(s)
    ensures var incomplete := s.modes in {NAMES, HEAD, BODY};
            && Finish(s).errors == s.errors + Bit(s.reading && s.p.None?) + Bit(incomplete)
            && Finish(s).items == (if s.p.Some? then s.items + [s.p.value] else s.items)
            && (Finish(s).ok <==> Finish(s).errors == 0 && (s.modes == SCAN ==> Finish(s).items != []))
  {}

  /** White space is that of bytes: space, tab, line feed, vertical tab, form feed and carriage return. */
  lemma SpaceExact(c: char)
    ensures IsSpace(c) <==> c as int in {9, 10, 11, 12, 13, 32}
  {}

  /** A stream without lines adds nothing, and counts as a success only for a set that has patches already. */
  lemma EmptyStream(items: seq<Patch>, warnings: nat)
    ensures Parse(items, warnings, []) == Result(items != [], items, 0, warnings)
  {}
}
