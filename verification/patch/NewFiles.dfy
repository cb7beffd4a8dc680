/**
 A patch that creates a file: what is written when the file is already there, and what the
 reverse patch makes of the result.
 */
module NewFiles {
  import opened Options
  import opened Text
  import opened Hunks
  import opened Rewriter
  import opened RewriterProofs
  import opened Scanner
  import opened Revert
  import opened Applier

  /** The hunk that creates a file. */
  predicate Creates(h: Hunk) {
    h.startsrc == 0 && h.linessrc == 0
  }

  /**
   The target side is written, and behind it what the file held before, less one line for
   every `\` line of the body.
   */
  lemma CreatedStream(src: seq<string>, h: Hunk)
    requires Creates(h) && Consistent(h)
    ensures var lost := Marks(h.text, 0);
            Chomped(Stream(src, 0, [h], 0)) == TargetSide(h) + if lost <= |src| then Chomped(src)[lost..] else []
  {
    TopStream(src, h);
  }

  /** Creating succeeds without errors whatever the file holds. */
  lemma CreateApplies(src: seq<string>, h: Hunk)
    requires Creates(h) && !Removes([h])
    ensures Applied(src, [h], false) == Outcome(Some(Stream(src, 0, [h], 0)), 0, false)
  {
    NewFileAlwaysAccepted(src, [h]);
  }

  lemma ReversedMatches(src: seq<string>, h: Hunk)
    requires Creates(h) && Consistent(h) && h.starttgt == 1
    ensures var out, rev := Stream(src, 0, [h], 0), Reversed(h);
            Consistent(rev) && Windows([rev], 0, 0, |out|) && AllMatch(Chomped(out), [rev])
  {
    var out, rev := Stream(src, 0, [h], 0), Reversed(h);
    CreatedStream(src, h);
    FlippedSides(h.text);
    FlippedMarks(h.text, 0);
    ReversedConsistent([h]);
    assert AllReversed([h])[0] == rev && Consistent(AllReversed([h])[0]);
    assert Windows([rev], 1, rev.Last(), |out|);
    assert Chomped(out)[0..h.linestgt] == TargetSide(h);
    assert Matches(Chomped(out), rev);
  }

  /** Creating a file of at least one line and reverting that removes the file, with whatever it held before. */
  lemma CreateThenRevert(src: seq<string>, h: Hunk)
    requires Creates(h) && Consistent(h) && h.starttgt == 1 && h.linestgt >= 1
    ensures var out := Stream(src, 0, [h], 0);
            && Applied(src, [h], false) == Outcome(Some(out), 0, false)
            && Applied(out, AllReversed([h]), false) == Outcome(None, 0, false)
  {
    var out, rev := Stream(src, 0, [h], 0), AllReversed([h]);
    CreateApplies(src, h);
    ReversedMatches(src, h);
    assert rev == [Reversed(h)];
    assert AllConsistent(rev);
    ConsistentIsSourced(rev);
    FullMatchIsAccepted(out, rev);
    assert Removes(rev);
  }

  /** With any other target start it removes the file exactly when the scan finds the target side there. */
  lemma RevertRemovesExact(src: seq<string>, h: Hunk)
    requires Creates(h) && Consistent(h) && h.starttgt >= 1
    ensures var out := Stream(src, 0, [h], 0);
            var r := Applied(out, AllReversed([h]), false);
            r.Outcome? && r.content == if Ready(out, Reversed(h)) then None else Some(out)
  {
    var out, rev := Stream(src, 0, [h], 0), AllReversed([h]);
    assert rev == [Reversed(h)];
    ReversedConsistent([h]);
    ConsistentIsSourced(rev);
    assert Ordered(rev, 1, rev[0].Last()) && Ordered(rev, 0, 0);
    CanPatchExact(out, rev);
    assert Removes(rev);
  }
}
