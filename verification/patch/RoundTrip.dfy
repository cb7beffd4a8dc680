/**
 Print, then parse: the parser rebuilds what the printer was given. And parse, print,
 parse: on every stream the second parse succeeds and gives the print of the first.
 */
module RoundTrip {
  import opened Options
  import opened Text
  import opened Hunks
  import opened Decoders
  import opened Parser
  import opened ParserSound
  import opened Dumper

  // ----- reading a body

  /** The patch under construction after a hunk is read, line end statistics aside. */
  predicate Gained(p: Option<Patch>, before: Option<Patch>, hunks: seq<Hunk>) {
    && p.Some? && before.Some?
    && p.value.(ends := before.value.ends) == before.value.(hunks := before.value.hunks + hunks)
  }

  lemma GainedTwice(p: Option<Patch>, mid: Option<Patch>, before: Option<Patch>, a: seq<Hunk>, b: seq<Hunk>)
    requires Gained(mid, before, a) && Gained(p, mid, b)
    ensures Gained(p, before, a + b)
  {
    Assoc(before.value.hunks, a, b);
  }

  /** Nothing but the patch under construction has moved. */
  predicate SameFrame(s: State, t: State) {
    t.errors == s.errors && t.items == s.items && t.header == s.header
    && t.srcname == s.srcname && t.tgtname == s.tgtname
  }

  lemma BodyStep(s: State, h: Hunk, i: nat)
    requires i < |h.text| && Sealed(h)
    requires s.modes == BODY && s.p.Some? && s.hunk == h.(text := h.text[..i])
    requires s.actualsrc == |Side(h.text[..i], '-')| && s.actualtgt == |Side(h.text[..i], '+')|
    ensures var t := Step(s, h.text[i]);
            && SameFrame(s, t)
            && (i + 1 < |h.text| ==>
                && t.modes == BODY && Gained(t.p, s.p, []) && t.hunk == h.(text := h.text[..i + 1])
                && t.actualsrc == |Side(h.text[..i + 1], '-')| && t.actualtgt == |Side(h.text[..i + 1], '+')|)
            && (i + 1 == |h.text| ==> t.modes == PARSED && Gained(t.p, s.p, [h]))
  {
    var line, upto := h.text[i], h.text[..i + 1];
    assert BodyLine(line) && !Blank(line);
    assert upto == h.text[..i] + [line];
    SideAppend(h.text[..i], line, '-');
    SideAppend(h.text[..i], line, '+');
    SidesGrow(h, i + 1);
    if i + 1 == |h.text| {
      assert upto == h.text;
    } else {
      assert !Complete(h, i + 1);
      assert s.p.value.hunks + [] == s.p.value.hunks;
    }
  }

  lemma SideConcat(a: seq<string>, b: seq<string>, sign: char)
    ensures Side(a + b, sign) == Side(a, sign) + Side(b, sign)
  {
    if a == [] {
      assert a + b == b;
    } else {
      assert (a + b)[1..] == a[1..] + b;
      SideConcat(a[1..], b, sign);
    }
  }

  /** No prefix of a stored body has more lines on a side than the whole body. */
  lemma SidesGrow(h: Hunk, k: nat)
    requires k <= |h.text| && Sealed(h)
    ensures |Side(h.text[..k], '-')| <= h.linessrc && |Side(h.text[..k], '+')| <= h.linestgt
  {
    assert h.text == h.text[..k] + h.text[k..];
    SideConcat(h.text[..k], h.text[k..], '-');
    SideConcat(h.text[..k], h.text[k..], '+');
  }

  lemma {:induction false} BodyRun(s: State, h: Hunk, i: nat)
    requires i < |h.text| && Sealed(h)
    requires s.modes == BODY && s.p.Some? && s.hunk == h.(text := h.text[..i])
    requires s.actualsrc == |Side(h.text[..i], '-')| && s.actualtgt == |Side(h.text[..i], '+')|
    ensures var t := Run(s, h.text, i);
            t.modes == PARSED && SameFrame(s, t) && Gained(t.p, s.p, [h])
    decreases |h.text| - i
  {
    var t := Step(s, h.text[i]);
    BodyStep(s, h, i);
    if i + 1 < |h.text| {
      BodyRun(t, h, i + 1);
      GainedTwice(Run(t, h.text, i + 1).p, t.p, s.p, [], [h]);
      assert [] + [h] == [h];
    }
  }

  // ----- reading hunks

  predicate AwaitsHunk(s: State) {
    s.p.Some? && (s.modes == PARSED || s.modes == HEAD)
  }

  lemma HeadStep(s: State, h: Hunk)
    requires AwaitsHunk(s)
    ensures var t := Step(s, HeadLine(h.startsrc, h.linessrc, h.starttgt, h.linestgt));
            && t.modes == BODY && SameFrame(s, t) && t.p == s.p && t.actualsrc == t.actualtgt == 0
            && t.hunk == Hunk(h.startsrc, h.linessrc, h.starttgt, h.linestgt, false, "", [])
  {
    HeadReads(h.startsrc, h.linessrc, h.starttgt, h.linestgt);
  }

  lemma HunkRun(s: State, h: Hunk)
    requires AwaitsHunk(s) && Sealed(h)
    ensures var t := Run(s, DumpHunk(h), 0);
            t.modes == PARSED && SameFrame(s, t) && Gained(t.p, s.p, [Reprinted(h)])
  {
    var r := Reprinted(h);
    var head := [HeadLine(h.startsrc, h.linessrc, h.starttgt, h.linestgt)];
    var t := Step(s, head[0]);
    HeadStep(s, h);
    ReprintedSealed(h);
    assert r.text[..0] == [];
    RunConcat(s, head, r.text, 0);
    assert Run(s, head, 0) == Run(t, head, 1) == t;
    BodyRun(t, r, 0);
  }

  lemma ReprintedTail(hunks: seq<Hunk>, k: nat)
    requires k < |hunks|
    ensures AllReprinted(hunks)[k..] == [Reprinted(hunks[k])] + AllReprinted(hunks)[k + 1..]
  {}

  lemma HunksEnd(s: State)
    requires s.p.Some?
    ensures Gained(s.p, s.p, [])
  {
    assert s.p.value.hunks + [] == s.p.value.hunks;
  }

  /** The rest of the hunks, read after one of them. */
  lemma GainedRest(s: State, t: State, u: State, hunks: seq<Hunk>, k: nat)
    requires k < |hunks| && Gained(t.p, s.p, [Reprinted(hunks[k])]) && Gained(u.p, t.p, AllReprinted(hunks)[k + 1..])
    ensures Gained(u.p, s.p, AllReprinted(hunks)[k..])
  {
    ReprintedTail(hunks, k);
    GainedTwice(u.p, t.p, s.p, [Reprinted(hunks[k])], AllReprinted(hunks)[k + 1..]);
  }

  /** What reading the hunks from `k` on leaves behind. */
  predicate HunksRead(s: State, t: State, hunks: seq<Hunk>, k: nat)
    requires k <= |hunks|
  {
    t.modes == PARSED && SameFrame(s, t) && Gained(t.p, s.p, AllReprinted(hunks)[k..])
  }

  /** What reading one hunk leaves behind. */
  predicate HunkRead(s: State, t: State, h: Hunk) {
    t.modes == PARSED && SameFrame(s, t) && Gained(t.p, s.p, [Reprinted(h)])
  }

  // A list of blocks of lines is read block by block.

  function Flat(parts: seq<seq<string>>, k: nat): seq<string>
    requires k <= |parts|
    decreases |parts| - k
  {
    if k == |parts| then [] else parts[k] + Flat(parts, k + 1)
  }

  function Reader(parts: seq<seq<string>>): (State, nat) -> State {
    (s: State, j: nat) => if j < |parts| then Run(s, parts[j], 0) else s
  }

  /** A reader applied to the indices from `k` on. */
  function Folded(read: (State, nat) -> State, s: State, k: nat, n: nat): State
    requires k <= n
    decreases n - k
  {
    if k == n then s else Folded(read, read(s, k), k + 1, n)
  }

  lemma {:induction false} RunIsFolded(s: State, parts: seq<seq<string>>, k: nat)
    requires k <= |parts|
    ensures Run(s, Flat(parts, k), 0) == Folded(Reader(parts), s, k, |parts|)
    decreases |parts| - k
  {
    if k < |parts| {
      RunConcat(s, parts[k], Flat(parts, k + 1), 0);
      RunIsFolded(Reader(parts)(s, k), parts, k + 1);
    }
  }

  function HunkPrints(hunks: seq<Hunk>): (parts: seq<seq<string>>)
    ensures |parts| == |hunks|
  {
    seq(|hunks|, i requires 0 <= i < |hunks| => DumpHunk(hunks[i]))
  }

  lemma {:induction false} HunksAreFlat(hunks: seq<Hunk>, k: nat)
    requires k <= |hunks|
    ensures DumpHunks(hunks, k) == Flat(HunkPrints(hunks), k)
    decreases |hunks| - k
  {
    if k < |hunks| {
      HunksAreFlat(hunks, k + 1);
    }
  }

  /** What every hunk does alone, all do together; nothing about the reader is used but that. */
  lemma {:induction false} FoldReads(read: (State, nat) -> State, s: State, hunks: seq<Hunk>, k: nat)
    requires k <= |hunks| && AwaitsHunk(s) && (k == |hunks| ==> s.modes == PARSED)
    requires forall t: State, j: nat {:trigger read(t, j)} ::
               j < |hunks| && AwaitsHunk(t) ==> HunkRead(t, read(t, j), hunks[j])
    ensures HunksRead(s, Folded(read, s, k, |hunks|), hunks, k)
    decreases |hunks| - k
  {
    if k == |hunks| {
      HunksEnd(s);
      assert AllReprinted(hunks)[k..] == [];
    } else {
      var t := read(s, k);
      FoldReads(read, t, hunks, k + 1);
      GainedRest(s, t, Folded(read, t, k + 1, |hunks|), hunks, k);
    }
  }

  lemma HunksRun(s: State, hunks: seq<Hunk>, k: nat)
    requires k <= |hunks| && AwaitsHunk(s) && AllSealed(hunks) && (k == |hunks| ==> s.modes == PARSED)
    ensures HunksRead(s, Run(s, DumpHunks(hunks, k), 0), hunks, k)
  {
    var read := Reader(HunkPrints(hunks));
    forall t: State, j: nat {:trigger read(t, j)} | j < |hunks| && AwaitsHunk(t)
      ensures HunkRead(t, read(t, j), hunks[j])
    {
      assert Sealed(hunks[j]);
      HunkRun(t, hunks[j]);
    }
    FoldReads(read, s, hunks, k);
    RunIsFolded(s, HunkPrints(hunks), k);
    HunksAreFlat(hunks, k);
  }

  // ----- reading a header and the names

  /** Ready for the header of another patch, or for the first one. */
  predicate AwaitsPatch(s: State) {
    && s.header == [] && s.srcname == None && s.tgtname == None
    && ((s.modes == SCAN && s.p.None?) || (s.modes == PARSED && s.p.Some?))
  }

  /** Printed again, the header still does not start a hunk; a condition on all but the first patch. */
  predicate FollowsPrinted(header: seq<string>) {
    header != [] ==> HunkHead(Printed(header[0])).None?
  }

  lemma {:induction false} ScanRun(s: State, lines: seq<string>, i: nat)
    requires i <= |lines| && s.modes == SCAN && HeaderOk(lines)
    ensures Run(s, lines, i) == s.(header := s.header + lines[i..], reading := s.reading || i < |lines|)
    decreases |lines| - i
  {
    if i == |lines| {
      assert s.header + lines[i..] == s.header;
    } else {
      assert !IsSource(lines[i]);
      var t := Step(s, lines[i]);
      ScanRun(t, lines, i + 1);
      assert s.header + [lines[i]] + lines[i + 1..] == s.header + lines[i..];
    }
  }

  lemma HeaderRun(s: State, lines: seq<string>)
    requires AwaitsPatch(s) && HeaderOk(lines)
    requires s.p.Some? && lines != [] ==> HunkHead(lines[0]).None?
    ensures var t := Run(s, lines, 0);
            && t.modes == (if lines == [] then s.modes else SCAN)
            && t.header == lines && t.srcname == None && t.tgtname == None
            && t.p == s.p && t.items == s.items && t.errors == s.errors
  {
    if lines != [] {
      assert !IsSource(lines[0]);
      if s.modes == SCAN {
        ScanRun(s, lines, 0);
      } else {
        var t := Step(s, lines[0]);
        assert t == s.(modes := SCAN, header := [lines[0]], reading := true) by {
          assert s.header + [lines[0]] == [lines[0]];
        }
        ScanRun(t, lines, 1);
        assert [lines[0]] + lines[1..] == lines;
      }
    }
  }

  function Collected(s: State): seq<Patch> {
    if s.p.Some? then s.items + [s.p.value] else s.items
  }

  lemma SourceStep(s: State, source: string)
    requires (s.modes == SCAN || s.modes == PARSED) && NameOk(source)
    ensures Step(s, "--- " + source + "\n")
            == s.(modes := NAMES, srcname := Some(source), reading := false)
  {
    var line := "--- " + source + "\n";
    NameReads("--- ", source);
    assert line[0] == '-' && line[1] == '-' && line[2] == '-' && line[3] == ' ';
    assert IsSource(line);
    assert HunkHead(line).None?;
  }

  lemma TargetStep(s: State, target: string)
    requires s.modes == NAMES && s.tgtname == None && s.srcname.Some? && NameOk(target)
    ensures Step(s, "+++ " + target + "\n")
            == s.(modes := HEAD, reading := false, srcname := None, header := [], items := Collected(s),
                  p := Some(Patch(s.srcname, target, s.header, [], Ends(0, 0, 0))))
  {
    var line := "+++ " + target + "\n";
    NameReads("+++ ", target);
    assert line[0] == '+' && line[1] == '+' && line[2] == '+' && line[3] == ' ';
    assert IsTarget(line) && !IsSource(line);
  }

  lemma NamesRun(s: State, source: string, target: string)
    requires (s.modes == SCAN || s.modes == PARSED) && s.tgtname == None && NameOk(source) && NameOk(target)
    ensures var t := Run(s, NameLines(source, target), 0);
            && t.modes == HEAD && t.header == [] && t.srcname == None && t.tgtname == None
            && t.errors == s.errors && t.items == Collected(s)
            && t.p == Some(Patch(Some(source), target, s.header, [], Ends(0, 0, 0)))
  {
    var lines := NameLines(source, target);
    SourceStep(s, source);
    TargetStep(Step(s, lines[0]), target);
    assert Run(s, lines, 0) == Run(Step(s, lines[0]), lines, 1)
        == Run(Step(Step(s, lines[0]), lines[1]), lines, 2);
  }

  lemma PatchRun(s: State, p: Patch)
    requires AwaitsPatch(s) && SoundPatch(p) && (s.p.Some? ==> FollowsPrinted(p.header))
    ensures var t := Run(s, DumpPatch(p), 0);
            && AwaitsPatch(t) && t.modes == PARSED && t.errors == s.errors && t.items == Collected(s)
            && IsReprint(t.p.value, p)
  {
    var header, names, hunks := PrintedAll(p.header), NameLines(p.source.value, p.target), DumpHunks(p.hunks, 0);
    forall i | 0 <= i < |header| ensures !IsSource(header[i]) {
      assert !IsSource(p.header[i]);
      PrintedNoSource(p.header[i]);
    }
    var s1 := Run(s, header, 0);
    HeaderRun(s, header);
    var s2 := Run(s1, names, 0);
    NamesRun(s1, p.source.value, p.target);
    HunksRun(s2, p.hunks, 0);
    assert [] + AllReprinted(p.hunks)[0..] == AllReprinted(p.hunks);
    RunConcat(s, header, names + hunks, 0);
    RunConcat(s1, names, hunks, 0);
  }

  /** A patch set the printer can hand to the parser. */
  predicate Printable(items: seq<Patch>) {
    forall i {:trigger SoundPatch(items[i])} :: 0 <= i < |items| ==>
      SoundPatch(items[i]) && (i > 0 ==> FollowsPrinted(items[i].header))
  }

  lemma PrintableNamed(items: seq<Patch>)
    requires Printable(items)
    ensures AllNamed(items)
  {
    forall i | 0 <= i < |items| ensures items[i].source.Some? {
      assert SoundPatch(items[i]);
    }
  }

  lemma {:induction false} DumpRun(s: State, items: seq<Patch>, k: nat)
    requires k <= |items| && AwaitsPatch(s) && Printable(items) && AllNamed(items)
    requires k > 0 <==> s.p.Some?
    requires AreReprints(Collected(s), items[..k])
    ensures var t := Run(s, Dump(items, k), 0);
            t.errors == s.errors && AwaitsPatch(t) && (items != [] ==> t.p.Some?) && AreReprints(Collected(t), items)
    decreases |items| - k
  {
    if k == |items| {
      assert items[..k] == items;
    } else {
      assert SoundPatch(items[k]);
      var t := Run(s, DumpPatch(items[k]), 0);
      PatchRun(s, items[k]);
      ReprintsGrow(Collected(s), items, k, t.p.value);
      DumpRun(t, items, k + 1);
      RunConcat(s, DumpPatch(items[k]), Dump(items, k + 1), 0);
    }
  }

  lemma ReprintsGrow(as': seq<Patch>, items: seq<Patch>, k: nat, a: Patch)
    requires k < |items| && AreReprints(as', items[..k]) && IsReprint(a, items[k])
    ensures AreReprints(as' + [a], items[..k + 1])
  {
    forall i | 0 <= i <= k ensures IsReprint((as' + [a])[i], items[..k + 1][i]) {
      if i < k {
        assert IsReprint(as'[i], items[..k][i]);
      }
    }
  }

  /**
   Print, then parse: for every non-empty list of complete patches whose later headers
   cannot be read as a hunk, parsing the print succeeds without errors and rebuilds the
   same patches: names, headers, hunk numbers and bodies.
   */
  lemma PrintThenParse(items: seq<Patch>, warnings: nat)
    requires items != [] && Printable(items)
    ensures AllNamed(items)
    ensures var r := Parse([], warnings, Dump(items, 0));
            r.ok && r.errors == 0 && AreReprints(r.items, items)
  {
    PrintableNamed(items);
    var s := Init([], warnings);
    assert items[..0] == [];
    DumpRun(s, items, 0);
  }

  // ----- the print is a fixed point

  lemma PrintedTwice(lines: seq<string>)
    ensures PrintedAll(PrintedAll(lines)) == PrintedAll(lines)
  {
    forall i | 0 <= i < |lines| ensures Printed(Printed(lines[i])) == Printed(lines[i]) {
      DropLfUnique(Printed(lines[i]), DropLf(lines[i]));
    }
  }

  lemma {:induction false} HunksPrintSame(hunks: seq<Hunk>, k: nat)
    requires k <= |hunks|
    ensures DumpHunks(AllReprinted(hunks), k) == DumpHunks(hunks, k)
    decreases |hunks| - k
  {
    if k < |hunks| {
      PrintedTwice(hunks[k].text);
      assert DumpHunk(Reprinted(hunks[k])) == DumpHunk(hunks[k]);
      HunksPrintSame(hunks, k + 1);
    }
  }

  lemma PatchPrintsSame(a: Patch, b: Patch)
    requires b.source.Some? && IsReprint(a, b)
    ensures a.source.Some? && DumpPatch(a) == DumpPatch(b)
  {
    PrintedTwice(b.header);
    HunksPrintSame(b.hunks, 0);
  }

  lemma ReprintsNamed(as': seq<Patch>, bs: seq<Patch>)
    requires AllNamed(bs) && AreReprints(as', bs)
    ensures AllNamed(as')
  {
    forall i | 0 <= i < |as'| ensures as'[i].source.Some? {
      assert IsReprint(as'[i], bs[i]);
    }
  }

  function Prints(items: seq<Patch>): (parts: seq<seq<string>>)
    requires AllNamed(items)
    ensures |parts| == |items|
  {
    seq(|items|, i requires 0 <= i < |items| => DumpPatch(items[i]))
  }

  lemma {:induction false} DumpIsFlat(items: seq<Patch>, k: nat)
    requires k <= |items| && AllNamed(items)
    ensures Dump(items, k) == Flat(Prints(items), k)
    decreases |items| - k
  {
    if k < |items| {
      DumpIsFlat(items, k + 1);
    }
  }

  lemma ReprintsPrintSame(as': seq<Patch>, bs: seq<Patch>)
    requires AllNamed(as') && AllNamed(bs) && AreReprints(as', bs)
    ensures Prints(as') == Prints(bs)
  {
    forall i | 0 <= i < |bs| ensures DumpPatch(as'[i]) == DumpPatch(bs[i]) {
      assert IsReprint(as'[i], bs[i]);
      PatchPrintsSame(as'[i], bs[i]);
    }
  }

  /** Printing what was read from a print gives the same print, line for line. */
  lemma PrintIsFixedPoint(items: seq<Patch>, warnings: nat)
    requires items != [] && Printable(items)
    ensures AllNamed(items)
    ensures var again := Parse([], warnings, Dump(items, 0)).items;
            AllNamed(again) && Dump(again, 0) == Dump(items, 0)
  {
    PrintThenParse(items, warnings);
    var again := Parse([], warnings, Dump(items, 0)).items;
    ReprintsNamed(again, items);
    ReprintsPrintSame(again, items);
    DumpIsFlat(again, 0);
    DumpIsFlat(items, 0);
  }
}
