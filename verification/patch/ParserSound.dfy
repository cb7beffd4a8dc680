/**
 Soundness of a successful parse: every stored patch is complete, every stored hunk is
 valid and its body has exactly the lines its header declares.
 */
module ParserSound {
  import opened Options
  import opened Text
  import opened Hunks
  import opened Decoders
  import opened Parser
  import opened ParserProofs

  /** The first `k` body lines already reach both counts. */
  predicate Complete(h: Hunk, k: nat)
    requires k <= |h.text|
  {
    |Side(h.text[..k], '-')| == h.linessrc && |Side(h.text[..k], '+')| == h.linestgt
  }

  predicate OpenUpTo(h: Hunk, n: nat)
    requires n <= |h.text|
  {
    forall k {:trigger Complete(h, k)} :: 0 < k <= n ==> !Complete(h, k)
  }

  /** A stored hunk: valid, with the declared counts, reached at its last line and not before. */
  predicate Sealed(h: Hunk) {
    && !h.invalid && h.text != [] && KnownText(h.text)
    && |SourceSide(h)| == h.linessrc && |TargetSide(h)| == h.linestgt
    && OpenUpTo(h, |h.text| - 1)
  }

  predicate AllSealed(hunks: seq<Hunk>) {
    forall i {:trigger Sealed(hunks[i])} :: 0 <= i < |hunks| ==> Sealed(hunks[i])
  }

  predicate NameOk(name: string) {
    IsTrimmed(name) && '\t' !in name
  }

  predicate HeaderOk(header: seq<string>) {
    forall i {:trigger IsSource(header[i])} :: 0 <= i < |header| ==> !IsSource(header[i])
  }

  /** A header that can follow a complete hunk: its first line does not start another hunk. */
  predicate Follows(header: seq<string>) {
    header != [] ==> HunkHead(header[0]).None?
  }

  predicate SoundPatch(p: Patch) {
    && p.source.Some? && NameOk(p.source.value) && NameOk(p.target) && HeaderOk(p.header)
    && p.hunks != [] && AllSealed(p.hunks)
  }

  predicate AllSound(items: seq<Patch>) {
    forall i {:trigger SoundPatch(items[i])} :: 0 <= i < |items| ==>
      SoundPatch(items[i]) && (i > 0 ==> Follows(items[i].header))
  }

  /** The hunk under construction. */
  predicate Building(s: State) {
    && KnownText(s.hunk.text) && !s.hunk.invalid
    && |SourceSide(s.hunk)| == s.actualsrc && |TargetSide(s.hunk)| == s.actualtgt
    && OpenUpTo(s.hunk, |s.hunk.text|)
  }

  /** The patch under construction. */
  predicate Growing(s: State, p: Patch) {
    && p.source.Some? && NameOk(p.source.value) && NameOk(p.target) && HeaderOk(p.header)
    && AllSealed(p.hunks)
    && (p.hunks == [] ==> s.modes.hunkhead || s.modes.hunkbody)
    && (s.items != [] ==> Follows(p.header))
  }

  predicate Sound(s: State) {
    && !s.modes.hunkskip && AllSound(s.items)
    && (s.items != [] ==> s.p.Some?)
    && (s.p.Some? ==> Growing(s, s.p.value) && Follows(s.header))
    && (s.modes.hunkbody ==> Building(s))
    && (s.srcname.Some? ==> NameOk(s.srcname.value))
    && HeaderOk(s.header)
    && (!s.modes.headscan && !s.modes.filenames ==> s.header == [])
    && (s.modes.headscan && s.p.Some? ==> s.header != [])
  }

  lemma {:induction false} SideAppend(text: seq<string>, line: string, sign: char)
    ensures Side(text + [line], sign)
            == Side(text, sign) + (if OnSide(line, sign) then [Chomp(line[1..])] else [])
  {
    if text == [] {
      assert text + [line] == [line];
    } else {
      assert (text + [line])[1..] == text[1..] + [line];
      SideAppend(text[1..], line, sign);
    }
  }

  /** A taken line keeps the counters equal to the sides of the body. */
  lemma TakeKeepsCount(s: State, line: string)
    requires Building(s) && BodyLine(line)
    ensures var t := TakeLine(s, line);
            && t.hunk.text == s.hunk.text + [line] && KnownText(t.hunk.text) && !t.hunk.invalid
            && |SourceSide(t.hunk)| == t.actualsrc && |TargetSide(t.hunk)| == t.actualtgt
            && OpenUpTo(t.hunk, |s.hunk.text|)
            && (Complete(t.hunk, |t.hunk.text|) <==> Reached(t))
  {
    var t := TakeLine(s, line);
    SideAppend(s.hunk.text, line, '-');
    SideAppend(s.hunk.text, line, '+');
    assert t.hunk.text[..|t.hunk.text|] == t.hunk.text;
    forall k | 0 < k <= |s.hunk.text| ensures !Complete(t.hunk, k) {
      assert t.hunk.text[..k] == s.hunk.text[..k];
      assert !Complete(s.hunk, k);
    }
  }

  lemma AppendSealed(hunks: seq<Hunk>, h: Hunk)
    requires AllSealed(hunks) && Sealed(h)
    ensures AllSealed(hunks + [h])
  {
    assert forall i :: 0 <= i < |hunks| ==> (hunks + [h])[i] == hunks[i];
    forall i | 0 <= i < |hunks + [h]| ensures Sealed((hunks + [h])[i]) {
      if i < |hunks| {
        assert Sealed(hunks[i]);
      }
    }
  }

  lemma BodySound(s: State, line: string)
    requires Inv(s) && s.modes == BODY && Sound(s) && Body(s, line).errors == s.errors
    ensures Sound(Body(s, line)) && Body(s, line) == Handle(s, line)
  {
    var text := if Blank(line) then " " + line else line;
    var s0 := if Blank(line) then s.(warnings := s.warnings + 1) else s;
    assert BodyLine(text);
    TakeKeepsCount(s0, text);
    var t := TakeLine(s0, text);
    if Reached(t) {
      assert Sealed(t.hunk) by {
        assert t.hunk.text[..|t.hunk.text|] == t.hunk.text;
      }
      AppendSealed(s.p.value.hunks, t.hunk);
    } else {
      assert OpenUpTo(t.hunk, |t.hunk.text|);
    }
    BodyKeeps(s, line);
  }

  lemma AppendSound(items: seq<Patch>, p: Patch)
    requires AllSound(items) && SoundPatch(p) && (items != [] ==> Follows(p.header))
    ensures AllSound(items + [p])
  {
    forall i | 0 <= i < |items + [p]|
      ensures SoundPatch((items + [p])[i]) && (i > 0 ==> Follows((items + [p])[i].header))
    {
      if i < |items| {
        assert SoundPatch(items[i]);
      }
    }
  }

  lemma NamesSound(s: State, line: string)
    requires s.modes == NAMES && s.tgtname == None && Sound(s)
    requires IsSource(line) || s.srcname.Some?
    requires Handle(s, line).errors == s.errors
    ensures Sound(Handle(s, line))
  {
    if |line| >= 4 && Name(line).Some? {
      NameIsTrimmed(line);
    }
    if IsSource(line) {
      assert HunkHead(line).None?;
    } else if OpensPatch(s, line) && s.p.Some? {
      AppendSound(s.items, s.p.value);
    }
  }

  lemma HeadSound(s: State, line: string)
    requires Inv(s) || HunkHead(line).Some?
    requires s.modes == HEAD && s.p.Some? && Sound(s) && Handle(s, line).errors == s.errors
    ensures Sound(Handle(s, line))
  {
    if HunkHead(line).Some? {
      var h := Handle(s, line);
      assert h.hunk.text == [];
    }
  }

  lemma BodyErrors(s: State, line: string)
    ensures Body(s, line).errors >= s.errors
  {}

  lemma SkipErrors(s: State, line: string)
    ensures Skip(s, line).errors == s.errors
  {}

  lemma NamesErrors(s: State, line: string)
    ensures AfterNames(s, line).errors >= s.errors
  {}

  lemma StartErrors(s: State, line: string)
    ensures StartHunk(s, line).errors >= s.errors
  {}

  lemma LaterErrors(s: State, line: string)
    ensures Skip(s, line).errors == s.errors
    ensures AfterNames(s, line).errors >= s.errors
    ensures StartHunk(s, line).errors >= s.errors
  {
    SkipErrors(s, line);
    NamesErrors(s, line);
    StartErrors(s, line);
  }

  lemma ErrorsGrow(s: State, line: string)
    ensures Step(s, line).errors >= s.errors
  {
    if !Scans(s, line) {
      var d := Decided(s, line);
      var text, k := Expanded(d, line), BeforeNames(d, line);
      BodyErrors(d, line);
      LaterErrors(if d.modes.hunkbody then Body(d, line) else d, text);
      LaterErrors(k, text);
      LaterErrors(AfterNames(k, text), text);
    }
  }

  lemma HeaderAppend(header: seq<string>, line: string)
    requires HeaderOk(header) && !IsSource(line)
    ensures HeaderOk(header + [line])
    ensures Follows(header) && (header == [] ==> HunkHead(line).None?) ==> Follows(header + [line])
  {
    assert header == [] ==> (header + [line])[0] == line;
    assert header != [] ==> (header + [line])[0] == header[0];
  }

  lemma ScanSound(s: State, line: string)
    requires Inv(s) && Sound(s) && Scans(s, line)
    ensures Sound(Step(s, line))
  {
    HeaderAppend(s.header, line);
  }

  lemma DecidedSound(s: State, line: string)
    requires Inv(s) && Sound(s) && !Scans(s, line)
    ensures Sound(Decided(s, line)) && Decided(s, line).errors == s.errors
    ensures var d := Decided(s, line);
            && d.tgtname == None
            && (|| (d.modes == BODY && Inv(d))
                || (d.modes == NAMES && (IsSource(line) || d.srcname.Some?))
                || (d.modes == HEAD && d.p.Some? && (Inv(d) || HunkHead(line).Some?)))
  {}

  lemma StepSound(s: State, line: string)
    requires Inv(s) && Sound(s) && Step(s, line).errors == s.errors
    ensures Sound(Step(s, line))
  {
    if Scans(s, line) {
      ScanSound(s, line);
    } else {
      var d := Decided(s, line);
      DecidedSound(s, line);
      if d.modes == BODY {
        BodyErrorFree(d, line);
        BodySound(d, line);
      } else if d.modes == NAMES {
        NamesSound(d, line);
      } else {
        HeadSound(d, line);
      }
    }
  }

  lemma BodyErrorFree(s: State, line: string)
    requires s.modes.hunkbody && Handle(s, line).errors == s.errors
    ensures Body(s, line).errors == s.errors
  {
    var text, k := Expanded(s, line), BeforeNames(s, line);
    BodyErrors(s, line);
    LaterErrors(Body(s, line), text);
    LaterErrors(k, text);
    LaterErrors(AfterNames(k, text), text);
  }

  lemma {:induction false} RunSound(s: State, lines: seq<string>, i: nat)
    requires i <= |lines| && Inv(s) && Sound(s)
    ensures Run(s, lines, i).errors >= s.errors
    ensures Run(s, lines, i).errors == s.errors ==> Sound(Run(s, lines, i)) && Inv(Run(s, lines, i))
    decreases |lines| - i
  {
    if i < |lines| {
      ErrorsGrow(s, lines[i]);
      StepKeeps(s, lines[i]);
      if Step(s, lines[i]).errors == s.errors {
        StepSound(s, lines[i]);
        RunSound(Step(s, lines[i]), lines, i + 1);
      } else {
        RunErrorsGrow(Step(s, lines[i]), lines, i + 1);
      }
    }
  }

  lemma {:induction false} RunErrorsGrow(s: State, lines: seq<string>, i: nat)
    requires i <= |lines|
    ensures Run(s, lines, i).errors >= s.errors
    decreases |lines| - i
  {
    if i < |lines| {
      ErrorsGrow(s, lines[i]);
      RunErrorsGrow(Step(s, lines[i]), lines, i + 1);
    }
  }

  /**
   Whenever a parse into a fresh patch set succeeds, there is at least one patch, and every
   patch has a source, a target and at least one hunk; no hunk is invalid, and each body
   has exactly the context-or-minus and context-or-plus lines its header declares.
   */
  lemma ParseSound(warnings: nat, lines: seq<string>)
    requires Parse([], warnings, lines).ok
    ensures Parse([], warnings, lines).items != [] && AllSound(Parse([], warnings, lines).items)
  {
    var s := Run(Init([], warnings), lines, 0);
    RunErrorsGrow(Init([], warnings), lines, 0);
    RunSound(Init([], warnings), lines, 0);
    if s.p.Some? {
      AppendSound(s.items, s.p.value);
    }
  }

  lemma SidesOfPrefix(h: Hunk, k: nat, sign: char)
    requires k < |h.text|
    ensures |Side(h.text[..k], sign)| <= |Side(h.text[..k + 1], sign)|
            == |Side(h.text[..k], sign)| + (if OnSide(h.text[k], sign) then 1 else 0)
  {
    assert h.text[..k + 1] == h.text[..k] + [h.text[k]];
    SideAppend(h.text[..k], h.text[k], sign);
  }

  lemma {:induction false} SidesGrowTo(h: Hunk, k: nat, m: nat)
    requires k <= m <= |h.text|
    ensures |Side(h.text[..k], '-')| <= |Side(h.text[..m], '-')| && |Side(h.text[..k], '+')| <= |Side(h.text[..m], '+')|
    decreases m - k
  {
    if k < m {
      SidesOfPrefix(h, k, '-');
      SidesOfPrefix(h, k, '+');
      SidesGrowTo(h, k + 1, m);
    }
  }

  /**
   The stored hunks are exactly the valid, non-empty, consistent ones that do not end with a
   `\` line after another line: there the parser has already closed the hunk.
   */
  lemma SealedExact(h: Hunk)
    ensures Sealed(h) <==>
            !h.invalid && h.text != [] && Consistent(h) && (|h.text| == 1 || !IsMark(h.text[|h.text| - 1]))
  {
    if h.text != [] && Consistent(h) {
      var last := |h.text| - 1;
      assert h.text[..|h.text|] == h.text && BodyLine(h.text[last]);
      SidesOfPrefix(h, last, '-');
      SidesOfPrefix(h, last, '+');
      if IsMark(h.text[last]) {
        assert Complete(h, last);
      } else {
        forall k | 0 < k <= last ensures !Complete(h, k) {
          SidesGrowTo(h, k, last);
        }
      }
    }
  }

  lemma SealedConsistent(hunks: seq<Hunk>)
    requires AllSealed(hunks)
    ensures AllConsistent(hunks)
  {
    forall i | 0 <= i < |hunks| ensures Consistent(hunks[i]) {
      assert Sealed(hunks[i]);
    }
  }
}
