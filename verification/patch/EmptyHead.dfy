/**
 The input on which the mode flags go wrong: a start line that declares no lines on either
 side, followed by a line that cannot stand in a body.
 */
module EmptyHead {
  import opened Hunks
  import opened Decoders
  import opened Parser
  import opened ParserProofs
  import opened ParserSound
  import opened Dumper
  import opened RoundTrip

  function EmptyHunkPatch(source: string, target: string, line: string): seq<string> {
    NameLines(source, target) + [HeadLine(0, 0, 0, 0), line]
  }

  /** Two flags are set at once, and the one hunk of the stream is stored twice. */
  lemma TwoModes(source: string, target: string, line: string)
    requires NameOk(source) && NameOk(target) && !Blank(line) && !BodyLine(line)
    ensures var lines := EmptyHunkPatch(source, target, line);
            var s := Run(Init([], 0), lines, 0);
            && s.modes == PARSED.(hunkskip := true) && !AlwaysOneMode(Init([], 0), lines, 0)
            && s.p.Some? && |s.p.value.hunks| == 2 && s.p.value.hunks[0] == s.p.value.hunks[1]
            && !Parse([], 0, lines).ok
  {
    var names, rest := NameLines(source, target), [HeadLine(0, 0, 0, 0), line];
    var lines := EmptyHunkPatch(source, target, line);
    var s := Init([], 0);
    var s1 := Run(s, names, 0);
    NamesRun(s, source, target);
    var s2 := Step(s1, rest[0]);
    HeadStep(s1, Hunk(0, 0, 0, 0, false, "", []));
    var s3 := Step(s2, line);
    assert s3 == Body(s2, line);
    assert Run(s1, rest, 0) == Run(s2, rest, 1) == Run(s3, rest, 2);
    RunConcat(s, names, rest, 0);
    if AlwaysOneMode(s, lines, 0) {
      AlwaysAtEnd(s, lines, 0);
    }
  }

  lemma {:induction false} AlwaysAtEnd(s: State, lines: seq<string>, i: nat)
    requires i <= |lines| && AlwaysOneMode(s, lines, i)
    ensures OneMode(Run(s, lines, i))
    decreases |lines| - i
  {
    if i < |lines| {
      AlwaysAtEnd(Step(s, lines[i]), lines, i + 1);
    }
  }
}
