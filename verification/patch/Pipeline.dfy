/**
 From a parsed stream to the file: what the parser stores is what the scan, the rewriter and
 the reversal are proved for, and a print of it does the same.
 */
module Pipeline {
  import opened Text
  import opened Hunks
  import opened Parser
  import opened ParserSound
  import opened Rewriter
  import opened RewriterProofs
  import opened Revert
  import opened Dumper
  import Scanner
  import Applier

  /** Every patch of a successful parse has consistent hunks, whatever the stream. */
  lemma ParsedIsConsistent(warnings: nat, lines: seq<string>, i: nat)
    requires Parse([], warnings, lines).ok && i < |Parse([], warnings, lines).items|
    ensures var hunks := Parse([], warnings, lines).items[i].hunks; hunks != [] && AllConsistent(hunks)
  {
    ParseSound(warnings, lines);
    var p := Parse([], warnings, lines).items[i];
    assert SoundPatch(p);
    SealedConsistent(p.hunks);
  }

  /**
   A parsed patch that the scan accepts, with ordered hunks, has its windows in the file, and
   is written as the splice exactly when its remarks are at the end.
   */
  lemma ParsedPatchApplies(warnings: nat, lines: seq<string>, i: nat, file: seq<string>)
    requires Parse([], warnings, lines).ok && i < |Parse([], warnings, lines).items|
    requires var hunks := Parse([], warnings, lines).items[i].hunks;
             hunks != [] && Ordered(hunks, 0, 0) && Scanner.Scan(file, hunks).Verdict?
                 && Scanner.Scan(file, hunks).canpatch
    ensures var hunks := Parse([], warnings, lines).items[i].hunks;
            && Windows(hunks, 0, 0, |file|)
            && (Chomped(Stream(file, 0, hunks, 0)) == ReplaceBackwards(Chomped(file), 0, hunks, 0) <==>
                MarksAtEnd(hunks, 0, 0, |file|))
  {
    ParsedIsConsistent(warnings, lines, i);
    Applier.ScanProtectsRewriter(file, Parse([], warnings, lines).items[i].hunks);
  }

  /** A parsed patch reverts exactly where it had matched in full with its remarks at the end. */
  lemma ParsedPatchReverts(warnings: nat, lines: seq<string>, i: nat, file: seq<string>)
    requires Parse([], warnings, lines).ok && i < |Parse([], warnings, lines).items|
    requires var hunks := Parse([], warnings, lines).items[i].hunks;
             Windows(hunks, 0, 0, |file|) && TargetsFollow(hunks, 0, 0)
    ensures var hunks := Parse([], warnings, lines).items[i].hunks;
            var out := Stream(file, 0, hunks, 0);
            Chomped(Stream(out, 0, AllReversed(hunks), 0)) == Chomped(file) <==>
            MarksAtEnd(hunks, 0, 0, |file|) && AllMatch(Chomped(file), hunks)
  {
    ParsedIsConsistent(warnings, lines, i);
    ApplyThenRevert(file, Parse([], warnings, lines).items[i].hunks);
  }

  // ----- applying a print

  lemma {:induction false} PrintedMarks(text: seq<string>, k: nat)
    requires KnownText(text) && k <= |text|
    ensures Marks(PrintedAll(text), k) == Marks(text, k)
    decreases |text| - k
  {
    if k < |text| {
      assert BodyLine(text[k]);
      PrintedBody(text[k]);
      PrintedMarks(text, k + 1);
    }
  }

  /** A printed hunk has the window, the sides and the number of remarks of the hunk itself. */
  lemma ReprintedAlike(h: Hunk)
    requires Consistent(h)
    ensures var r := Reprinted(h);
            && Consistent(r) && r.Before() == h.Before() && r.Last() == h.Last()
            && TargetSide(r) == TargetSide(h) && (Unmarked(r) <==> Unmarked(h))
  {
    var r := Reprinted(h);
    PrintedSide(h.text, '-');
    PrintedSide(h.text, '+');
    PrintedMarks(h.text, 0);
    forall k | 0 <= k < |r.text| ensures BodyLine(r.text[k]) {
      assert BodyLine(h.text[k]);
      PrintedBody(h.text[k]);
    }
  }

  lemma {:induction false} SpliceAlike(file: seq<string>, pos: nat, hunks: seq<Hunk>, k: nat)
    requires k <= |hunks| && Windows(hunks, k, pos, |file|) && AllConsistent(hunks)
    ensures var r := AllReprinted(hunks);
            && Windows(r, k, pos, |file|) && Splice(file, pos, r, k) == Splice(file, pos, hunks, k)
            && Gap(r, k, pos, |file|) == Gap(hunks, k, pos, |file|)
            && (MarksAtEnd(r, k, pos, |file|) <==> MarksAtEnd(hunks, k, pos, |file|))
    decreases |hunks| - k
  {
    if k < |hunks| {
      WindowsBound(hunks, k, pos, |file|);
      assert Consistent(hunks[k]);
      ReprintedAlike(hunks[k]);
      SpliceAlike(file, hunks[k].Last(), hunks, k + 1);
    }
  }

  /** Applying the print of a patch, read again, gives the same file, up to line ends. */
  lemma PrintAppliesAlike(file: seq<string>, hunks: seq<Hunk>)
    requires Windows(hunks, 0, 0, |file|) && AllConsistent(hunks) && MarksAtEnd(hunks, 0, 0, |file|)
    ensures Chomped(Stream(file, 0, AllReprinted(hunks), 0)) == Chomped(Stream(file, 0, hunks, 0))
  {
    var r := AllReprinted(hunks);
    forall i | 0 <= i < |r| ensures Consistent(r[i]) {
      assert Consistent(hunks[i]);
      ReprintedAlike(hunks[i]);
    }
    SpliceAlike(Chomped(file), 0, hunks, 0);
    StreamIsSplice(file, hunks);
    StreamIsSplice(file, r);
  }
}
