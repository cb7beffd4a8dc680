/**
 What the rewriting generator guarantees: on ordered hunks whose windows lie inside the
 file it is the simple splice, it never reads past the end inside a hunk, and it keeps
 the line ends of the file except where it writes before it has read any line.
 */
module RewriterProofs {
  import opened Text
  import opened Hunks
  import opened Rewriter

  /** A body reads one line of the file for every line of its source side, and one for every `\` line. */
  lemma {:induction false} ConsumedExact(text: seq<string>, k: nat)
    requires KnownText(text) && k <= |text|
    ensures Consumed(text, k) == |Side(text[k..], '-')| + Marks(text, k)
    decreases |text| - k
  {
    if k < |text| {
      assert BodyLine(text[k]) && text[k..][1..] == text[k + 1..];
      ConsumedExact(text, k + 1);
    }
  }

  /** A body makes the generator write exactly its target side, up to line ends. */
  lemma {:induction false} BodyIsTargetSide(src: seq<string>, pos: nat, text: seq<string>, k: nat)
    requires KnownText(text) && k <= |text|
    ensures Chomped(Body(src, pos, text, k)) == Side(text[k..], '+')
    decreases |text| - k
  {
    if k < |text| {
      var line := text[k];
      assert BodyLine(line) && text[k..][1..] == text[k + 1..];
      BodyIsTargetSide(src, After(pos, line), text, k + 1);
      ChompedConcat(Shown(src, pos, line), Body(src, After(pos, line), text, k + 1));
      ReplaceEol(Unsigned(line), Detected(src, After(pos, line)));
      assert Chomped(Shown(src, pos, line)) == if OnSide(line, '+') then [Chomp(line[1..])] else [];
    }
  }

  lemma CopiedInside(src: seq<string>, pos: nat, end: nat)
    requires pos <= end <= |src|
    ensures Copied(src, pos, end) == src[pos..end]
  {
    assert forall i :: 0 <= i < end - pos ==> Copied(src, pos, end)[i] == LineAt(src, pos + i);
  }

  /** The line the generator stands at when the last hunk is done. */
  function ReadTo(pos: nat, hunks: seq<Hunk>, k: nat): nat
    requires k <= |hunks|
    decreases |hunks| - k
  {
    if k == |hunks| then pos else ReadTo(End(pos, hunks[k]), hunks, k + 1)
  }

  /**
   On ordered windows a generator that has read `at` lines, maybe more than it should have,
   starts with the next body at its window, if it is not past it, and has then read the
   window and one more line for every `\` line.
   */
  lemma Geometry(hunks: seq<Hunk>, k: nat, pos: nat, at: nat, n: nat)
    requires k < |hunks| && pos <= at && Windows(hunks, k, pos, n) && AllConsistent(hunks)
    ensures pos <= hunks[k].Before() <= hunks[k].Last() <= n && Windows(hunks, k + 1, hunks[k].Last(), n)
    ensures Start(at, hunks[k]) == if at < hunks[k].Before() then hunks[k].Before() else at
    ensures End(at, hunks[k]) == Start(at, hunks[k]) + hunks[k].linessrc + Marks(hunks[k].text, 0)
  {
    WindowsBound(hunks, k, pos, n);
    assert Consistent(hunks[k]);
    ConsumedExact(hunks[k].text, 0);
    assert hunks[k].text[0..] == hunks[k].text;
  }

  lemma BodyLength(src: seq<string>, pos: nat, h: Hunk)
    requires Consistent(h)
    ensures Chomped(Body(src, pos, h.text, 0)) == TargetSide(h) && |Body(src, pos, h.text, 0)| == h.linestgt
  {
    BodyIsTargetSide(src, pos, h.text, 0);
    assert h.text[0..] == h.text;
  }

  lemma StreamLength(src: seq<string>, at: nat, hunks: seq<Hunk>, k: nat)
    requires k < |hunks| && AllConsistent(hunks)
    ensures |Stream(src, at, hunks, k)|
            == Start(at, hunks[k]) - at + hunks[k].linestgt + |Stream(src, End(at, hunks[k]), hunks, k + 1)|
  {
    assert Consistent(hunks[k]);
    BodyLength(src, Start(at, hunks[k]), hunks[k]);
  }

  // ----- the rewriter and the splice

  lemma ChompedStep(src: seq<string>, pos: nat, start: nat, h: Hunk, rest: seq<string>)
    requires pos <= start <= |src| && Consistent(h)
    ensures Chomped(Copied(src, pos, start) + Body(src, start, h.text, 0) + rest)
            == Chomped(src)[pos..start] + TargetSide(h) + Chomped(rest)
  {
    var copied, body := Copied(src, pos, start), Body(src, start, h.text, 0);
    ChompedConcat(copied + body, rest);
    ChompedConcat(copied, body);
    BodyLength(src, start, h);
    CopiedInside(src, pos, start);
    ChompedSlice(src, pos, start);
  }

  lemma ChompedBody(src: seq<string>, at: nat, pos: nat, h: Hunk, rest: seq<string>)
    requires Consistent(h) && pos <= |src|
    ensures Chomped(Copied(src, at, at) + Body(src, at, h.text, 0) + rest)
            == Chomped(src)[pos..pos] + TargetSide(h) + Chomped(rest)
  {
    var body := Body(src, at, h.text, 0);
    assert Copied(src, at, at) + body + rest == body + rest;
    BodyLength(src, at, h);
    ChompedConcat(body, rest);
    assert Chomped(src)[pos..pos] + TargetSide(h) == TargetSide(h);
  }

  /** One hunk, inside the file or past the last line outside the windows. */
  lemma SpliceStep(src: seq<string>, pos: nat, at: nat, hunks: seq<Hunk>, k: nat)
    requires k < |hunks| && pos <= at && Windows(hunks, k, pos, |src|) && AllConsistent(hunks)
    requires at == pos || hunks[k].Before() == pos
    requires Windows(hunks, k + 1, hunks[k].Last(), |src|)
    requires Chomped(Stream(src, End(at, hunks[k]), hunks, k + 1)) ==
             Splice(Chomped(src), hunks[k].Last(), hunks, k + 1)
    ensures Chomped(Stream(src, at, hunks, k)) == Splice(Chomped(src), pos, hunks, k)
  {
    var h := hunks[k];
    Geometry(hunks, k, pos, at, |src|);
    assert Consistent(h);
    if at == pos {
      ChompedStep(src, pos, h.Before(), h, Stream(src, End(at, h), hunks, k + 1));
    } else {
      ChompedBody(src, at, pos, h, Stream(src, End(at, h), hunks, k + 1));
    }
  }

  /** With no line left outside the windows, a lead does no harm: only target sides are written. */
  lemma {:induction false} LeadIsHarmless(src: seq<string>, pos: nat, at: nat, hunks: seq<Hunk>, k: nat)
    requires k <= |hunks| && pos <= at && Windows(hunks, k, pos, |src|) && AllConsistent(hunks)
    requires Gap(hunks, k, pos, |src|) == 0
    ensures Chomped(Stream(src, at, hunks, k)) == Splice(Chomped(src), pos, hunks, k)
    decreases |hunks| - k
  {
    if k < |hunks| {
      Geometry(hunks, k, pos, at, |src|);
      LeadIsHarmless(src, hunks[k].Last(), End(at, hunks[k]), hunks, k + 1);
      SpliceStep(src, pos, at, hunks, k);
    }
  }

  lemma ChompedRest(src: seq<string>, pos: nat)
    requires pos <= |src|
    ensures Chomped(src[pos..]) == Chomped(src)[pos..]
  {
    ChompedSlice(src, pos, |src|);
    assert src[pos..|src|] == src[pos..];
    assert Chomped(src)[pos..|src|] == Chomped(src)[pos..];
  }

  lemma {:induction false} AtEndIsSplice(src: seq<string>, pos: nat, hunks: seq<Hunk>, k: nat)
    requires k <= |hunks| && Windows(hunks, k, pos, |src|) && AllConsistent(hunks)
    requires MarksAtEnd(hunks, k, pos, |src|)
    ensures Chomped(Stream(src, pos, hunks, k)) == Splice(Chomped(src), pos, hunks, k)
    decreases |hunks| - k
  {
    if k == |hunks| {
      ChompedRest(src, pos);
    } else {
      MarksStep(hunks, k, pos, |src|);
      Geometry(hunks, k, pos, pos, |src|);
      if Unmarked(hunks[k]) {
        AtEndIsSplice(src, hunks[k].Last(), hunks, k + 1);
      } else {
        LeadIsHarmless(src, hunks[k].Last(), End(pos, hunks[k]), hunks, k + 1);
      }
      SpliceStep(src, pos, pos, hunks, k);
    }
  }

  // ----- how many lines the rewriter writes

  /** The number of lines written from hunk `k` on, after `at` lines read of a file of `n` lines. */
  function Yields(n: nat, at: nat, hunks: seq<Hunk>, k: nat): nat
    requires k <= |hunks|
    decreases |hunks| - k
  {
    if k == |hunks| then (if at <= n then n - at else 0)
    else Start(at, hunks[k]) - at + hunks[k].linestgt + Yields(n, End(at, hunks[k]), hunks, k + 1)
  }

  lemma {:induction false} YieldsExact(src: seq<string>, at: nat, hunks: seq<Hunk>, k: nat)
    requires k <= |hunks| && AllConsistent(hunks)
    ensures |Stream(src, at, hunks, k)| == Yields(|src|, at, hunks, k)
    decreases |hunks| - k
  {
    if k < |hunks| {
      StreamLength(src, at, hunks, k);
      YieldsExact(src, End(at, hunks[k]), hunks, k + 1);
    }
  }

  function Min(a: int, b: int): int {
    if a < b then a else b
  }

  /**
   A generator that has read too many lines writes as many too few, or misses all lines outside
   the windows; `n` is the length the file should have, and `size` the length it has.
   */
  lemma {:induction false} LengthBound(size: nat, pos: nat, at: nat, hunks: seq<Hunk>, k: nat, n: nat)
    requires k <= |hunks| && pos <= at && size <= n && Windows(hunks, k, pos, n) && AllConsistent(hunks)
    ensures Yields(size, at, hunks, k) + Min(at - pos, Gap(hunks, k, pos, n)) <= n - pos + Growth(hunks, k)
    decreases |hunks| - k
  {
    if k < |hunks| {
      Geometry(hunks, k, pos, at, n);
      LengthBound(size, hunks[k].Last(), End(at, hunks[k]), hunks, k + 1, n);
    }
  }

  lemma MarksStep(hunks: seq<Hunk>, k: nat, pos: nat, n: nat)
    requires k < |hunks| && Windows(hunks, k, pos, n)
    ensures pos <= hunks[k].Before() <= hunks[k].Last() <= n && Windows(hunks, k + 1, hunks[k].Last(), n)
    ensures MarksAtEnd(hunks, k, pos, n) <==>
            (Unmarked(hunks[k]) || Gap(hunks, k + 1, hunks[k].Last(), n) == 0)
            && MarksAtEnd(hunks, k + 1, hunks[k].Last(), n)
    ensures Gap(hunks, k + 1, hunks[k].Last(), n) == 0 ==> MarksAtEnd(hunks, k + 1, hunks[k].Last(), n)
  {
    WindowsBound(hunks, k, pos, n);
    if Gap(hunks, k + 1, hunks[k].Last(), n) == 0 {
      UnmarkedAtEnd(hunks, k + 1, hunks[k].Last(), n);
    }
  }

  /** Where a `\` line comes before a line outside the windows, lines are lost. */
  lemma {:induction false} FewerLines(size: nat, pos: nat, hunks: seq<Hunk>, k: nat, n: nat)
    requires k <= |hunks| && size <= n && Windows(hunks, k, pos, n) && AllConsistent(hunks)
    requires !MarksAtEnd(hunks, k, pos, n)
    ensures Yields(size, pos, hunks, k) < n - pos + Growth(hunks, k)
    decreases |hunks| - k
  {
    var h := hunks[k];
    MarksStep(hunks, k, pos, n);
    Geometry(hunks, k, pos, pos, n);
    if !Unmarked(h) && Gap(hunks, k + 1, h.Last(), n) > 0 {
      LengthBound(size, h.Last(), End(pos, h), hunks, k + 1, n);
    } else {
      FewerLines(size, h.Last(), hunks, k + 1, n);
    }
  }

  lemma LinesLost(src: seq<string>, hunks: seq<Hunk>, n: nat)
    requires |src| <= n && Windows(hunks, 0, 0, n) && AllConsistent(hunks) && !MarksAtEnd(hunks, 0, 0, n)
    ensures |Stream(src, 0, hunks, 0)| < n + Growth(hunks, 0)
  {
    YieldsExact(src, 0, hunks, 0);
    FewerLines(|src|, 0, hunks, 0, n);
  }

  lemma {:induction false} ReadInside(pos: nat, hunks: seq<Hunk>, k: nat, n: nat)
    requires k <= |hunks| && Windows(hunks, k, pos, n) && AllConsistent(hunks) && AllUnmarked(hunks, k)
    ensures ReadTo(pos, hunks, k) <= n
    decreases |hunks| - k
  {
    if k < |hunks| {
      Geometry(hunks, k, pos, pos, n);
      assert Unmarked(hunks[k]);
      ReadInside(hunks[k].Last(), hunks, k + 1, n);
    }
  }

  /**
   On windows inside the file the rewriter is the splice if and only if no line outside the
   windows comes after a hunk with a `\` line. Without such lines nothing is read past the
   end of the file inside a hunk.
   */
  lemma StreamIsSplice(src: seq<string>, hunks: seq<Hunk>)
    requires Windows(hunks, 0, 0, |src|) && AllConsistent(hunks)
    ensures Chomped(Stream(src, 0, hunks, 0)) == Splice(Chomped(src), 0, hunks, 0) <==> MarksAtEnd(hunks, 0, 0, |src|)
    ensures AllUnmarked(hunks, 0) ==> MarksAtEnd(hunks, 0, 0, |src|) && ReadTo(0, hunks, 0) <= |src|
  {
    if AllUnmarked(hunks, 0) {
      UnmarkedAtEnd(hunks, 0, 0, |src|);
      ReadInside(0, hunks, 0, |src|);
    }
    if MarksAtEnd(hunks, 0, 0, |src|) {
      AtEndIsSplice(src, 0, hunks, 0);
    } else {
      LinesLost(src, hunks, |src|);
      SpliceLength(Chomped(src), 0, hunks, 0);
    }
  }

  /**
   The whole-file statement, against the window-by-window reference and with the new length,
   which is never exceeded.
   */
  lemma PatchIsReplacement(src: seq<string>, hunks: seq<Hunk>)
    requires Windows(hunks, 0, 0, |src|) && AllConsistent(hunks)
    ensures Chomped(Stream(src, 0, hunks, 0)) == ReplaceBackwards(Chomped(src), 0, hunks, 0) <==>
            MarksAtEnd(hunks, 0, 0, |src|)
    ensures |Stream(src, 0, hunks, 0)| == |src| + Growth(hunks, 0) <==> MarksAtEnd(hunks, 0, 0, |src|)
    ensures |Stream(src, 0, hunks, 0)| <= |src| + Growth(hunks, 0)
  {
    StreamIsSplice(src, hunks);
    SpliceIsReplacement(Chomped(src), 0, hunks, 0);
    SpliceLength(Chomped(src), 0, hunks, 0);
    assert Chomped(src)[..0] + Splice(Chomped(src), 0, hunks, 0) == Splice(Chomped(src), 0, hunks, 0);
    if !MarksAtEnd(hunks, 0, 0, |src|) {
      LinesLost(src, hunks, |src|);
    }
  }

  // ----- line ends

  ghost predicate AllEnd(lines: seq<string>, e: Eol) {
    forall i :: 0 <= i < |lines| ==> EolOf(lines[i]) == e
  }

  lemma AllEndConcat(a: seq<string>, b: seq<string>, e: Eol)
    ensures AllEnd(a + b, e) <==> AllEnd(a, e) && AllEnd(b, e)
  {
    assert forall i :: 0 <= i < |a| ==> a[i] == (a + b)[i];
    assert forall i :: 0 <= i < |b| ==> b[i] == (a + b)[|a| + i];
  }

  lemma UniformDetected(src: seq<string>, n: nat, e: Eol)
    requires AllEnd(src, e) && e != NoEol
    ensures Detected(src, n) == if n > 0 && src != [] then e else NoEol
  {
    if n > 0 && src != [] {
      assert EolOf(src[0]) == e;
      assert Seen(src, n, e);
    }
  }

  /** The lines of a body that are written before a line of a file of `n` lines is read. */
  function OpeningText(text: seq<string>, k: nat, n: nat): seq<string>
    requires k <= |text|
    decreases |text| - k
  {
    if k == |text| || (Consumes(text[k]) && n > 0) then []
    else (if Skips(text[k]) then [] else [Unsigned(text[k])]) + OpeningText(text, k + 1, n)
  }

  /** The lines a hunk list writes before any line of a file of `n` lines has been read. */
  function Opening(hunks: seq<Hunk>, k: nat, n: nat): seq<string>
    requires k <= |hunks|
    decreases |hunks| - k
  {
    if k == |hunks| || (hunks[k].startsrc > 1 && n > 0) then []
    else
      OpeningText(hunks[k].text, 0, n)
      + (if Consumed(hunks[k].text, 0) == 0 || n == 0 then Opening(hunks, k + 1, n) else [])
  }

  /** Nothing of the file has been read after `pos` lines. */
  predicate Unread(src: seq<string>, pos: nat) {
    pos == 0 || src == []
  }

  lemma ShownEnds(src: seq<string>, pos: nat, line: string, e: Eol)
    requires AllEnd(src, e) && e != NoEol
    ensures AllEnd(Shown(src, pos, line), e) <==>
            (Unread(src, After(pos, line)) ==> AllEnd(if Skips(line) then [] else [Unsigned(line)], e))
  {
    UniformDetected(src, After(pos, line), e);
    ReplaceEol(Unsigned(line), e);
  }

  lemma OpeningTextSplit(text: seq<string>, k: nat, n: nat, e: Eol)
    requires k < |text|
    ensures AllEnd(OpeningText(text, k, n), e) <==>
            (Consumes(text[k]) && n > 0)
            || (AllEnd(if Skips(text[k]) then [] else [Unsigned(text[k])], e) && AllEnd(OpeningText(text, k + 1, n), e))
  {
    AllEndConcat(if Skips(text[k]) then [] else [Unsigned(text[k])], OpeningText(text, k + 1, n), e);
  }

  lemma {:induction false} BodyEnds(src: seq<string>, pos: nat, text: seq<string>, k: nat, e: Eol)
    requires k <= |text| && AllEnd(src, e) && e != NoEol
    ensures AllEnd(Body(src, pos, text, k), e) <==> (Unread(src, pos) ==> AllEnd(OpeningText(text, k, |src|), e))
    decreases |text| - k
  {
    if k < |text| {
      var line, next := text[k], After(pos, text[k]);
      BodyEnds(src, next, text, k + 1, e);
      AllEndConcat(Shown(src, pos, line), Body(src, next, text, k + 1), e);
      ShownEnds(src, pos, line, e);
      OpeningTextSplit(text, k, |src|, e);
    }
  }

  lemma OpeningSplit(hunks: seq<Hunk>, k: nat, n: nat, e: Eol)
    requires k < |hunks|
    ensures AllEnd(Opening(hunks, k, n), e) <==>
            (hunks[k].startsrc <= 1 || n == 0 ==>
               AllEnd(OpeningText(hunks[k].text, 0, n), e)
               && (Consumed(hunks[k].text, 0) == 0 || n == 0 ==> AllEnd(Opening(hunks, k + 1, n), e)))
  {
    AllEndConcat(OpeningText(hunks[k].text, 0, n), Opening(hunks, k + 1, n), e);
    assert OpeningText(hunks[k].text, 0, n) + [] == OpeningText(hunks[k].text, 0, n);
  }

  lemma HunkEnds(src: seq<string>, at: nat, start: nat, h: Hunk, rest: seq<string>, e: Eol)
    requires at <= start && (start > at ==> start <= |src|) && AllEnd(src, e) && e != NoEol
    ensures AllEnd(Copied(src, at, start) + Body(src, start, h.text, 0) + rest, e) <==>
            (Unread(src, start) ==> AllEnd(OpeningText(h.text, 0, |src|), e)) && AllEnd(rest, e)
  {
    var copied, body := Copied(src, at, start), Body(src, start, h.text, 0);
    assert AllEnd(copied, e) by {
      if start > at {
        CopiedInside(src, at, start);
      }
    }
    BodyEnds(src, start, h.text, 0, e);
    AllEndConcat(copied + body, rest, e);
    AllEndConcat(copied, body, e);
  }

  lemma {:induction false} StreamEnds(src: seq<string>, pos: nat, at: nat, hunks: seq<Hunk>, k: nat, e: Eol)
    requires k <= |hunks| && pos <= at && Windows(hunks, k, pos, |src|) && AllConsistent(hunks)
    requires AllEnd(src, e) && e != NoEol
    ensures AllEnd(Stream(src, at, hunks, k), e) <==> (Unread(src, at) ==> AllEnd(Opening(hunks, k, |src|), e))
    decreases |hunks| - k
  {
    if k < |hunks| {
      var h := hunks[k];
      Geometry(hunks, k, pos, at, |src|);
      StreamEnds(src, h.Last(), End(at, h), hunks, k + 1, e);
      HunkEnds(src, at, Start(at, h), h, Stream(src, End(at, h), hunks, k + 1), e);
      OpeningSplit(hunks, k, |src|, e);
    }
  }

  /**
   In a file with one kind of line end the patched file keeps that kind throughout exactly
   when the lines written before the first line of the file is read already carry it.
   */
  lemma LineEndsKept(src: seq<string>, hunks: seq<Hunk>, e: Eol)
    requires Windows(hunks, 0, 0, |src|) && AllConsistent(hunks) && AllEnd(src, e) && e != NoEol
    ensures AllEnd(Stream(src, 0, hunks, 0), e) <==> AllEnd(Opening(hunks, 0, |src|), e)
  {
    StreamEnds(src, 0, 0, hunks, 0, e);
  }

  const TOP_INSERTION := Hunk(1, 1, 1, 2, false, "", ["+new\n", " old\n"])

  lemma TopInsertionConsistent()
    ensures Consistent(TOP_INSERTION) && Windows([TOP_INSERTION], 0, 0, 1)
  {
    var text := TOP_INSERTION.text;
    assert text[1..] == [" old\n"] && text[1..][1..] == [];
    var old' := Chomp(" old\n"[1..]);
    assert Side(text[1..], '-') == [old'] + [] && Side(text[1..], '+') == [old'] + [];
    assert Side(text, '-') == [] + [old'] && Side(text, '+') == [Chomp("+new\n"[1..])] + [old'];
  }

  /** An insertion at the very top of a `\r\n` file keeps the `\n` of the patch. */
  lemma TopInsertionKeepsPatchEol()
    ensures Windows([TOP_INSERTION], 0, 0, 1) && Consistent(TOP_INSERTION) && AllEnd(["old\r\n"], CrLf)
    ensures !AllEnd(Stream(["old\r\n"], 0, [TOP_INSERTION], 0), CrLf)
  {
    TopInsertionConsistent();
    assert AllEnd(["old\r\n"], CrLf) by {
      assert EolOf("old\r\n") == CrLf;
    }
    LineEndsKept(["old\r\n"], [TOP_INSERTION], CrLf);
    TopInsertionOpens();
  }

  lemma TopInsertionOpens()
    ensures !AllEnd(Opening([TOP_INSERTION], 0, 1), CrLf)
  {
    var opening := Opening([TOP_INSERTION], 0, 1);
    assert opening[0] == "new\n" && EolOf("new\n") == Lf;
  }

  // ----- one hunk at the top

  /** How many lines a hunk at the top of the file reads. */
  function ReadBy(src: seq<string>, h: Hunk): (n: nat)
    ensures n <= |src|
  {
    if h.linessrc + Marks(h.text, 0) <= |src| then h.linessrc + Marks(h.text, 0) else |src|
  }

  /** A hunk at the top of the file: its target side, and then whatever it has not read. */
  lemma TopStream(src: seq<string>, h: Hunk)
    requires Consistent(h) && h.startsrc <= 1
    ensures Chomped(Stream(src, 0, [h], 0)) == TargetSide(h) + Chomped(src)[ReadBy(src, h)..]
  {
    var body, n, read := Body(src, 0, h.text, 0), ReadBy(src, h), h.linessrc + Marks(h.text, 0);
    BodyLength(src, 0, h);
    ConsumedExact(h.text, 0);
    assert h.text[0..] == h.text;
    assert End(0, h) == read;
    assert Stream(src, read, [h], 1) == src[n..];
    assert Copied(src, 0, 0) == [];
    assert Stream(src, 0, [h], 0) == [] + body + src[n..] == body + src[n..];
    ChompedConcat(body, src[n..]);
    ChompedRest(src, n);
  }
}
