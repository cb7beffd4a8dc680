/**
 What a parse keeps of the shape of its input stream, and with it the round trip for
 every stream: parse, print, parse.
 */
module Streams {
  import opened Options
  import opened Text
  import opened Hunks
  import opened Decoders
  import opened Parser
  import opened ParserSound
  import opened Dumper
  import opened RoundTrip

  /** A complete line: one line feed, at its end. */
  predicate LfLine(line: string) {
    StreamLine(line) && line[|line| - 1] == '\n'
  }

  /** What `readline` delivers: every line but the last is complete. */
  predicate Stream(lines: seq<string>) {
    forall i {:trigger lines[i]} :: 0 <= i < |lines| ==>
      StreamLine(lines[i]) && (i < |lines| - 1 ==> LfLine(lines[i]))
  }

  predicate AllLf(lines: seq<string>) {
    forall i {:trigger LfLine(lines[i])} :: 0 <= i < |lines| ==> LfLine(lines[i])
  }

  predicate AllStreamLines(lines: seq<string>) {
    forall i {:trigger StreamLine(lines[i])} :: 0 <= i < |lines| ==> StreamLine(lines[i])
  }

  predicate CleanHunks(hunks: seq<Hunk>) {
    forall i {:trigger AllStreamLines(hunks[i].text)} :: 0 <= i < |hunks| ==> AllStreamLines(hunks[i].text)
  }

  predicate CleanName(name: Option<string>) {
    name.Some? ==> '\n' !in name.value
  }

  predicate CleanPatch(p: Patch) {
    AllLf(p.header) && CleanHunks(p.hunks) && CleanName(p.source) && '\n' !in p.target
  }

  predicate AllClean(items: seq<Patch>) {
    forall i {:trigger CleanPatch(items[i])} :: 0 <= i < |items| ==> CleanPatch(items[i])
  }

  /** All that is stored; the header buffer is a matter of its own. */
  predicate Clean(s: State) {
    AllClean(s.items) && (s.p.Some? ==> CleanPatch(s.p.value))
    && AllStreamLines(s.hunk.text) && CleanName(s.srcname)
  }

  lemma AppendClean(hunks: seq<Hunk>, h: Hunk)
    requires CleanHunks(hunks) && AllStreamLines(h.text)
    ensures CleanHunks(hunks + [h])
  {
    forall i | 0 <= i < |hunks + [h]| ensures AllStreamLines((hunks + [h])[i].text) {
      if i < |hunks| {
        assert AllStreamLines(hunks[i].text);
      }
    }
  }

  lemma TakeClean(s: State, line: string)
    requires Clean(s) && StreamLine(line)
    ensures Clean(TakeLine(s, line)) && TakeLine(s, line).header == s.header
  {
    if s.p.Some? {
      AppendClean(s.p.value.hunks, s.hunk);
    }
  }

  lemma ExitClean(s: State)
    requires Clean(s)
    ensures Clean(CheckExit(s)) && CheckExit(s).header == s.header
  {
    if s.p.Some? {
      AppendClean(s.p.value.hunks, s.hunk);
    }
  }

  lemma BodyClean(s: State, line: string)
    requires Clean(s) && StreamLine(line)
    ensures Clean(Body(s, line)) && Body(s, line).header == s.header
  {
    var text := if Blank(line) then " " + line else line;
    var s0 := if Blank(line) then s.(warnings := s.warnings + 1) else s;
    TakeClean(s0, text);
    ExitClean(TakeLine(s0, text));
  }

  lemma NamesClean(s: State, line: string)
    requires Clean(s) && AllLf(s.header) && StreamLine(line)
    ensures Clean(Names(s, line)) && AllLf(Names(s, line).header)
  {
    if IsSource(line) || IsTarget(line) {
      if Name(line).Some? {
        assert '\n' !in Name(line).value by { NameIsTrimmed(line); }
      }
    }
    var n := Names(s, line);
    if OpensPatch(s, line) {
      assert n.items == if s.p.Some? then s.items + [s.p.value] else s.items;
      assert CleanPatch(n.p.value);
    } else {
      assert n.p == s.p && n.items == s.items && n.hunk == s.hunk && n.header == s.header;
    }
  }

  lemma SkipClean(s: State, line: string)
    requires Clean(s)
    ensures Clean(Skip(s, line)) && Skip(s, line).header == s.header
  {
    var t := Skip(s, line);
    assert t.items == s.items && t.p == s.p && t.hunk == s.hunk && t.srcname == s.srcname;
  }

  lemma HandleClean(s: State, line: string)
    requires Clean(s) && AllLf(s.header) && StreamLine(line)
    ensures Clean(Handle(s, line)) && AllLf(Handle(s, line).header)
  {
    if s.modes.hunkbody {
      BodyClean(s, line);
    }
    var text, k := Expanded(s, line), BeforeNames(s, line);
    SkipClean(if s.modes.hunkbody then Body(s, line) else s, text);
    NamesClean(k, text);
    StartClean(AfterNames(k, text), text);
  }

  lemma StartClean(s: State, line: string)
    requires Clean(s) && AllLf(s.header)
    ensures Clean(StartHunk(s, line)) && AllLf(StartHunk(s, line).header)
  {}

  lemma DecidedClean(s: State, line: string)
    requires Clean(s)
    ensures Clean(Decided(s, line)) && Decided(s, line).header == s.header
  {
    var d := Decided(s, line);
    assert d.items == s.items && d.p == s.p && d.hunk == s.hunk && d.srcname == s.srcname;
  }

  lemma StepClean(s: State, line: string)
    requires Clean(s) && AllLf(s.header) && StreamLine(line)
    ensures Clean(Step(s, line)) && (LfLine(line) ==> AllLf(Step(s, line).header))
  {
    if Scans(s, line) {
      var t := Step(s, line);
      assert t.header == s.header + [line];
      assert t.items == s.items && t.p == s.p && t.hunk == s.hunk && t.srcname == s.srcname;
    } else {
      DecidedClean(s, line);
      HandleClean(Decided(s, line), line);
    }
  }

  lemma {:induction false} RunClean(s: State, lines: seq<string>, i: nat)
    requires i <= |lines| && Clean(s) && AllLf(s.header) && Stream(lines)
    ensures Clean(Run(s, lines, i))
    decreases |lines| - i
  {
    if i < |lines| {
      StepClean(s, lines[i]);
      if i < |lines| - 1 {
        RunClean(Step(s, lines[i]), lines, i + 1);
      } else {
        assert Run(s, lines, i) == Step(s, lines[i]);
      }
    }
  }

  lemma PrintedLf(line: string)
    ensures LfLine(line) ==> Printed(line) == line
    ensures StreamLine(line) ==> LfLine(Printed(line))
  {
    if LfLine(line) {
      DropLfUnique(line, line[..|line| - 1]);
    }
  }

  /** The parsed patches of a stream can be printed and read again. */
  lemma ParsedIsPrintable(warnings: nat, lines: seq<string>)
    requires Stream(lines) && Parse([], warnings, lines).ok
    ensures Parse([], warnings, lines).items != []
    ensures Printable(Parse([], warnings, lines).items) && AllClean(Parse([], warnings, lines).items)
  {
    var items := Parse([], warnings, lines).items;
    ParseSound(warnings, lines);
    RunClean(Init([], warnings), lines, 0);
    forall i | 0 <= i < |items|
      ensures SoundPatch(items[i]) && (i > 0 ==> FollowsPrinted(items[i].header))
    {
      assert SoundPatch(items[i]) && CleanPatch(items[i]);
      if i > 0 && items[i].header != [] {
        assert LfLine(items[i].header[0]);
        PrintedLf(items[i].header[0]);
      }
    }
  }

  /**
   Parse, print, parse. On every stream whose parse succeeds, parsing the print succeeds
   too and gives the print of the same patches; the print is a stream again, and only
   descriptions are lost.
   */
  lemma ParsePrintParse(warnings: nat, lines: seq<string>)
    requires Stream(lines) && Parse([], warnings, lines).ok
    ensures var first := Parse([], warnings, lines);
            && AllNamed(first.items) && Stream(Dump(first.items, 0))
            && (var second := Parse([], 0, Dump(first.items, 0));
                second.ok && AreReprints(second.items, first.items))
  {
    ParsedIsPrintable(warnings, lines);
    PrintThenReread(Parse([], warnings, lines).items, 0);
    CleanIsOneLined(Parse([], warnings, lines).items);
  }

  // ----- the print is a stream again

  /** Text that prints as one line: no line feed but at its end. */
  predicate OneLine(line: string) {
    '\n' !in DropLf(line)
  }

  predicate AllOneLine(lines: seq<string>) {
    forall i {:trigger OneLine(lines[i])} :: 0 <= i < |lines| ==> OneLine(lines[i])
  }

  predicate OneLineHunks(hunks: seq<Hunk>, k: nat) {
    forall i {:trigger AllOneLine(hunks[i].text)} :: k <= i < |hunks| ==> AllOneLine(hunks[i].text)
  }

  predicate OneLinePatch(p: Patch) {
    AllOneLine(p.header) && CleanName(p.source) && '\n' !in p.target && OneLineHunks(p.hunks, 0)
  }

  predicate AllOneLined(items: seq<Patch>, k: nat) {
    forall i {:trigger OneLinePatch(items[i])} :: k <= i < |items| ==> OneLinePatch(items[i])
  }

  lemma AllLfConcat(a: seq<string>, b: seq<string>)
    ensures AllLf(a + b) <==> AllLf(a) && AllLf(b)
  {
    if AllLf(a + b) {
      forall i | 0 <= i < |a| ensures LfLine(a[i]) {
        assert LfLine((a + b)[i]);
      }
      forall i | 0 <= i < |b| ensures LfLine(b[i]) {
        assert LfLine((a + b)[|a| + i]);
      }
    }
  }

  lemma EndedIsLf(text: string)
    ensures LfLine(text + "\n") <==> '\n' !in text
  {
    var line := text + "\n";
    assert forall i :: 0 <= i < |text| ==> line[i] == text[i];
  }

  lemma PrintedAllLf(lines: seq<string>)
    ensures AllLf(PrintedAll(lines)) <==> AllOneLine(lines)
  {
    forall i | 0 <= i < |lines| ensures LfLine(PrintedAll(lines)[i]) <==> OneLine(lines[i]) {
      EndedIsLf(DropLf(lines[i]));
    }
  }

  lemma HeadLineIsLf(h: Hunk)
    ensures LfLine(HeadLine(h.startsrc, h.linessrc, h.starttgt, h.linestgt))
  {
    var src, tgt := RangeText(h.startsrc, h.linessrc), RangeText(h.starttgt, h.linestgt);
    assert '\n' !in src && '\n' !in tgt;
    var text := "@@ -" + src + " +" + tgt + " @@";
    assert '\n' !in text;
    assert HeadLine(h.startsrc, h.linessrc, h.starttgt, h.linestgt) == text + "\n";
  }

  lemma HunkLf(h: Hunk)
    ensures AllLf(DumpHunk(h)) <==> AllOneLine(h.text)
  {
    var head := HeadLine(h.startsrc, h.linessrc, h.starttgt, h.linestgt);
    HeadLineIsLf(h);
    assert AllLf([head]);
    AllLfConcat([head], PrintedAll(h.text));
    PrintedAllLf(h.text);
  }

  lemma {:induction false} HunksLf(hunks: seq<Hunk>, k: nat)
    requires k <= |hunks|
    ensures AllLf(DumpHunks(hunks, k)) <==> OneLineHunks(hunks, k)
    decreases |hunks| - k
  {
    if k < |hunks| {
      HunkLf(hunks[k]);
      HunksLf(hunks, k + 1);
      AllLfConcat(DumpHunk(hunks[k]), DumpHunks(hunks, k + 1));
    }
  }

  lemma NamesLf(source: string, target: string)
    ensures AllLf(NameLines(source, target)) <==> '\n' !in source && '\n' !in target
  {
    var names := NameLines(source, target);
    EndedIsLf("--- " + source);
    EndedIsLf("+++ " + target);
    assert names == ["--- " + source + "\n", "+++ " + target + "\n"];
    if AllLf(names) {
      assert LfLine(names[0]) && LfLine(names[1]);
    }
  }

  lemma PatchLf(p: Patch)
    requires p.source.Some?
    ensures AllLf(DumpPatch(p)) <==> OneLinePatch(p)
  {
    var names := NameLines(p.source.value, p.target);
    PrintedAllLf(p.header);
    NamesLf(p.source.value, p.target);
    HunksLf(p.hunks, 0);
    AllLfConcat(names, DumpHunks(p.hunks, 0));
    AllLfConcat(PrintedAll(p.header), names + DumpHunks(p.hunks, 0));
  }

  lemma {:induction false} DumpLf(items: seq<Patch>, k: nat)
    requires k <= |items| && AllNamed(items)
    ensures AllLf(Dump(items, k)) <==> AllOneLined(items, k)
    decreases |items| - k
  {
    if k < |items| {
      PatchLf(items[k]);
      DumpLf(items, k + 1);
      AllLfConcat(DumpPatch(items[k]), Dump(items, k + 1));
    }
  }

  predicate AllEnded(lines: seq<string>) {
    forall i {:trigger lines[i]} :: 0 <= i < |lines| ==> lines[i] != "" && lines[i][|lines[i]| - 1] == '\n'
  }

  lemma {:induction false} HunksEnded(hunks: seq<Hunk>, k: nat)
    requires k <= |hunks|
    ensures AllEnded(DumpHunks(hunks, k))
    decreases |hunks| - k
  {
    if k < |hunks| {
      HunksEnded(hunks, k + 1);
      assert AllEnded(DumpHunk(hunks[k]));
    }
  }

  lemma {:induction false} DumpEnded(items: seq<Patch>, k: nat)
    requires k <= |items| && AllNamed(items)
    ensures AllEnded(Dump(items, k))
    decreases |items| - k
  {
    if k < |items| {
      HunksEnded(items[k].hunks, 0);
      DumpEnded(items, k + 1);
      assert AllEnded(PrintedAll(items[k].header));
      assert AllEnded(NameLines(items[k].source.value, items[k].target));
    }
  }

  /** The printed lines are the lines of a stream exactly when each of them has its line feed at its end only. */
  lemma DumpIsStream(items: seq<Patch>)
    requires AllNamed(items)
    ensures Stream(Dump(items, 0)) <==> AllOneLined(items, 0)
  {
    var lines := Dump(items, 0);
    DumpLf(items, 0);
    DumpEnded(items, 0);
    forall i | 0 <= i < |lines| ensures LfLine(lines[i]) <==> StreamLine(lines[i]) {
      assert lines[i] != "";
    }
  }

  lemma StreamLinesAreOneLine(lines: seq<string>)
    requires AllStreamLines(lines)
    ensures AllOneLine(lines)
  {
    forall i | 0 <= i < |lines| ensures OneLine(lines[i]) {
      assert StreamLine(lines[i]);
      var d := DropLf(lines[i]);
      assert forall j :: 0 <= j < |d| ==> d[j] == lines[i][j];
    }
  }

  /** What a parse of a stream stores prints as a stream. */
  lemma CleanIsOneLined(items: seq<Patch>)
    requires AllClean(items)
    ensures AllOneLined(items, 0)
  {
    forall i | 0 <= i < |items| ensures OneLinePatch(items[i]) {
      var p := items[i];
      assert CleanPatch(p);
      forall j | 0 <= j < |p.header| ensures StreamLine(p.header[j]) {
        assert LfLine(p.header[j]);
      }
      StreamLinesAreOneLine(p.header);
      forall j | 0 <= j < |p.hunks| ensures AllOneLine(p.hunks[j].text) {
        assert AllStreamLines(p.hunks[j].text);
        StreamLinesAreOneLine(p.hunks[j].text);
      }
    }
  }

  /**
   For every printable list of patches: its print is a stream of these very lines exactly
   when nothing in it holds a line feed inside, and reading the lines rebuilds the patches.
   */
  lemma PrintThenReread(items: seq<Patch>, warnings: nat)
    requires items != [] && Printable(items)
    ensures AllNamed(items) && (Stream(Dump(items, 0)) <==> AllOneLined(items, 0))
    ensures var r := Parse([], warnings, Dump(items, 0));
            r.ok && r.errors == 0 && AreReprints(r.items, items)
  {
    PrintThenParse(items, warnings);
    DumpIsStream(items);
  }

  // ----- patches of complete lines

  /** A patch all of whose lines are complete. */
  predicate Ended(p: Patch) {
    AllLf(p.header) && forall i {:trigger p.hunks[i]} :: 0 <= i < |p.hunks| ==> AllLf(p.hunks[i].text)
  }

  function Undescribed(p: Patch): Patch {
    p.(hunks := seq(|p.hunks|, i requires 0 <= i < |p.hunks| => p.hunks[i].(desc := "")))
  }

  lemma PrintedSame(lines: seq<string>)
    requires AllLf(lines)
    ensures PrintedAll(lines) == lines
  {
    forall i | 0 <= i < |lines| ensures Printed(lines[i]) == lines[i] {
      assert LfLine(lines[i]);
      PrintedLf(lines[i]);
    }
  }

  lemma ReprintSame(a: Patch, b: Patch)
    requires IsReprint(a, b) && Ended(b)
    ensures a.(ends := b.ends) == Undescribed(b)
  {
    PrintedSame(b.header);
    forall i | 0 <= i < |b.hunks| ensures Reprinted(b.hunks[i]) == b.hunks[i].(desc := "") {
      PrintedSame(b.hunks[i].text);
    }
    assert a.hunks == Undescribed(b).hunks;
  }

  /** With complete lines, printing and parsing gives back the very same patches, without descriptions. */
  lemma PrintThenParseSame(items: seq<Patch>, warnings: nat)
    requires items != [] && Printable(items) && forall i {:trigger items[i]} :: 0 <= i < |items| ==> Ended(items[i])
    ensures AllNamed(items) && (Stream(Dump(items, 0)) <==> AllOneLined(items, 0))
    ensures var r := Parse([], warnings, Dump(items, 0));
            && r.ok && |r.items| == |items|
            && forall i {:trigger r.items[i]} :: 0 <= i < |items| ==>
               r.items[i].(ends := items[i].ends) == Undescribed(items[i])
  {
    PrintThenReread(items, warnings);
    var r := Parse([], warnings, Dump(items, 0));
    forall i | 0 <= i < |items| ensures r.items[i].(ends := items[i].ends) == Undescribed(items[i]) {
      assert IsReprint(r.items[i], items[i]);
      ReprintSame(r.items[i], items[i]);
    }
  }
}
