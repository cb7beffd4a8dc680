/**
 What `apply` does to one file once it is found: dry run, already-patched check, rewrite.
 A file is a list of lines; a removed file has no content. Whether a backup of the same
 name already exists is decided by the environment.
 */
module Applier {
  import opened Counting
  import opened Options
  import opened Text
  import opened Hunks
  import opened Rewriter
  import opened RewriterProofs
  import opened Scanner
  import opened Matcher
  import opened Revert

  datatype Outcome = Aborted
                   | Outcome(content: Option<seq<string>>, errors: nat, alreadyPatched: bool)

  function Removes(hunks: seq<Hunk>): bool {
    |hunks| == 1 && hunks[0].starttgt == 0 && hunks[0].linestgt == 0
  }

  ghost function Applied(lines: seq<string>, hunks: seq<Hunk>, backupExists: bool): Outcome
    requires hunks != []
  {
    match Scan(lines, hunks)
    case IndexError => Aborted
    case Verdict(canpatch, validhunks, premature) =>
      var incomplete := validhunks < |hunks|;
      var already := incomplete && MatchFrom(Chomped(lines), 0, hunks, 0);
      var errors := (if premature then 1 else 0) + (if incomplete && !already then 1 else 0);
      if canpatch && !backupExists
      then Outcome(if Removes(hunks) then None else Some(Stream(lines, 0, hunks, 0)), errors, already)
      else Outcome(Some(lines), errors, already)
  }

  method ApplyToFile(lines: seq<string>, hunks: seq<Hunk>, backupExists: bool) returns (outcome: Outcome)
    requires hunks != []
    ensures outcome == Applied(lines, hunks, backupExists)
  {
    var verdict := ScanFile(lines, hunks);
    if verdict.IndexError? {
      return Aborted;
    }
    var errors, already, content := 0, false, Some(lines);
    if verdict.premature {
      errors := errors + 1;
    }
    if verdict.validhunks < |hunks| {
      already := MatchFileHunks(lines, hunks);
      if !already {
        errors := errors + 1;
      }
    }
    if verdict.canpatch {
      if !backupExists {
        if Removes(hunks) {
          content := None;
        } else {
          var written := PatchStream(lines, hunks);
          content := Some(written);
        }
      }
    }
    outcome := Outcome(content, errors, already);
  }

  /**
   The scan protects the rewriter. On ordered hunks whatever it accepts has all windows inside
   the file; it is rewritten one window at a time, and changes its length by what the headers
   declare, exactly when no line outside the windows comes after a hunk with a `\` line.
   Without such lines nothing is read past the end of the file inside a hunk.
   */
  lemma ScanProtectsRewriter(lines: seq<string>, hunks: seq<Hunk>)
    requires hunks != [] && Ordered(hunks, 0, 0) && AllConsistent(hunks)
    requires Scan(lines, hunks).Verdict? && Scan(lines, hunks).canpatch
    ensures Windows(hunks, 0, 0, |lines|)
    ensures var atEnd := MarksAtEnd(hunks, 0, 0, |lines|);
            && (Chomped(Stream(lines, 0, hunks, 0)) == ReplaceBackwards(Chomped(lines), 0, hunks, 0) <==> atEnd)
            && (|Stream(lines, 0, hunks, 0)| == |lines| + Growth(hunks, 0) <==> atEnd)
            && (AllUnmarked(hunks, 0) ==> atEnd && ReadTo(0, hunks, 0) <= |lines|)
  {
    ConsistentIsSourced(hunks);
    CanPatchExact(lines, hunks);
    assert forall k :: 0 <= k < |hunks| ==> Ready(lines, hunks[k]) ==> InFile(hunks[k], |lines|);
    WindowsExact(hunks, 0, 0, |lines|);
    StreamIsSplice(lines, hunks);
    PatchIsReplacement(lines, hunks);
  }

  lemma WindowsApart(hunks: seq<Hunk>, a: nat, b: nat)
    requires a < b < |hunks| && Ordered(hunks, 0, 0)
    ensures hunks[a].Last() <= hunks[b].Before()
    decreases b
  {
    OrderedAt(hunks, 0, 0, b - 1);
    if a < b - 1 {
      WindowsApart(hunks, a, b - 1);
    }
  }

  lemma ReadyElsewhere(lines: seq<string>, h: Hunk, at: nat, other: string)
    requires Ready(lines, h) && at < |lines| && (at < h.Before() || h.Last() - 1 <= at)
    ensures Ready(lines[at := other], h)
  {}

  /** The scan never looks at the last line of a window: any text there is accepted, and overwritten. */
  lemma LastLineUnchecked(lines: seq<string>, hunks: seq<Hunk>, k: nat, other: string)
    requires hunks != [] && Ordered(hunks, 0, 0) && AllSourced(hunks) && k < |hunks|
    requires Scan(lines, hunks).Verdict? && Scan(lines, hunks).canpatch
    ensures 1 <= hunks[k].Last() <= |lines|
    ensures var v := Scan(lines[hunks[k].Last() - 1 := other], hunks); v.Verdict? && v.canpatch
  {
    CanPatchExact(lines, hunks);
    assert Ready(lines, hunks[k]);
    var at := hunks[k].Last() - 1;
    var changed := lines[at := other];
    forall j | 0 <= j < |hunks| ensures Ready(changed, hunks[j]) {
      assert Ready(lines, hunks[j]);
      if j < k {
        WindowsApart(hunks, j, k);
      } else if k < j {
        WindowsApart(hunks, k, j);
      }
      ReadyElsewhere(lines, hunks[j], at, other);
    }
    CanPatchExact(changed, hunks);
  }

  lemma MatchIsReady(lines: seq<string>, h: Hunk)
    requires h.startsrc >= 1 && h.linessrc >= 1 && h.Last() <= |lines|
    requires Sourced(h) && Matches(Chomped(lines), h)
    ensures Ready(lines, h)
  {
    forall i | 0 <= i < h.linessrc - 1 ensures Chomp(lines[h.Before() + i]) == SourceSide(h)[i] {
      assert Chomped(lines)[h.Before()..h.Last()][i] == Chomped(lines)[h.Before() + i];
    }
  }

  /** A full match with non-empty windows passes the scan. */
  lemma FullMatchIsAccepted(lines: seq<string>, hunks: seq<Hunk>)
    requires hunks != [] && Windows(hunks, 0, 0, |lines|) && AllSourced(hunks)
    requires AllMatch(Chomped(lines), hunks)
    requires forall k :: 0 <= k < |hunks| ==> hunks[k].linessrc >= 1
    ensures Scan(lines, hunks) == Verdict(true, |hunks|, false)
  {
    WindowsExact(hunks, 0, 0, |lines|);
    forall k | 0 <= k < |hunks| ensures Ready(lines, hunks[k]) {
      assert Sourced(hunks[k]);
      MatchIsReady(lines, hunks[k]);
    }
    CanPatchExact(lines, hunks);
  }

  /**
   Applying a patch to a file it matches succeeds without errors. If no line outside the
   windows comes after a hunk with a `\` line, reverting succeeds without errors too and
   gives every line back, up to line ends; otherwise no revert that rewrites the file does.
   */
  lemma RevertUndoesApply(lines: seq<string>, hunks: seq<Hunk>)
    requires hunks != [] && Windows(hunks, 0, 0, |lines|) && AllConsistent(hunks) && TargetsFollow(hunks, 0, 0)
    requires AllMatch(Chomped(lines), hunks)
    requires forall k :: 0 <= k < |hunks| ==> hunks[k].linessrc >= 1 && hunks[k].linestgt >= 1
    ensures var patched := Applied(lines, hunks, false);
            && patched.Outcome? && patched.content == Some(Stream(lines, 0, hunks, 0)) && patched.errors == 0
    ensures var out, rev := Stream(lines, 0, hunks, 0), AllReversed(hunks);
            var back := Applied(out, rev, false);
            if MarksAtEnd(hunks, 0, 0, |lines|) then
              back.Outcome? && back.errors == 0 && back.content.Some? && Chomped(back.content.value) == Chomped(lines)
            else
              back.Outcome? && Scan(out, rev).canpatch ==>
                back.content.Some? && Chomped(back.content.value) != Chomped(lines)
  {
    var out, rev := Stream(lines, 0, hunks, 0), AllReversed(hunks);
    ApplyThenRevert(lines, hunks);
    ConsistentIsSourced(hunks);
    ConsistentIsSourced(rev);
    FullMatchIsAccepted(lines, hunks);
    assert !Removes(hunks) && !Removes(rev);
    if MarksAtEnd(hunks, 0, 0, |lines|) {
      FullMatchIsAccepted(out, rev);
    }
  }

  /**
   Applying the same patch again. Either the scan accepts its own result: then the file is
   patched a second time, with no errors. Or it is left alone; then it is noticed as already
   patched exactly when no hunk has a `\` line, and reported as a different file otherwise.
   */
  lemma SecondApply(lines: seq<string>, hunks: seq<Hunk>)
    requires hunks != [] && Windows(hunks, 0, 0, |lines|) && AllConsistent(hunks) && TargetsNear(hunks, 0, 0)
    requires MarksAtEnd(hunks, 0, 0, |lines|)
    ensures var out := Stream(lines, 0, hunks, 0);
            var again, twice := Applied(out, hunks, false), forall k :: 0 <= k < |hunks| ==> Ready(out, hunks[k]);
            && again.Outcome?
            && (again.alreadyPatched <==> !twice && AllUnmarked(hunks, 0))
            && (twice ==> again.errors == 0
                          && again.content == if Removes(hunks) then None else Some(Stream(out, 0, hunks, 0)))
            && (!twice ==> again.content == Some(out)
                           && again.errors == Bit(SomeUnfinished(out, hunks, 0)) + Bit(!AllUnmarked(hunks, 0)))
  {
    var out := Stream(lines, 0, hunks, 0);
    PatchedIsRecognised(lines, hunks);
    WindowsExact(hunks, 0, 0, |lines|);
    ConsistentIsSourced(hunks);
    CanPatchExact(out, hunks);
    PrematureExact(out, hunks);
  }

  /**
   A patch with a hunk that only inserts, without lines around it, leaves the file alone and
   reports an error, or the file as already patched; only the creation of a file is exempt.
   */
  lemma EmptySourceLeftAlone(lines: seq<string>, hunks: seq<Hunk>, k: nat)
    requires k < |hunks| && hunks[k].linessrc == 0 && (|hunks| > 1 || hunks[0].startsrc > 0)
    requires (Ordered(hunks, 0, 0) && AllSourced(hunks)) || (k == 0 && hunks[0].startsrc == 0)
    ensures var r := Applied(lines, hunks, false);
            r.Outcome? && r.content == Some(lines) && (r.errors > 0 || r.alreadyPatched)
  {
    EmptySourceRefused(lines, hunks, k);
  }

  /**
   What apply does. The file is written exactly when all hunks are ready and no backup is in the
   way. One error is for a hunk the file is too short for, with nothing in it
   that differs; another one for hunks that are not ready in a file that is not already patched.
   */
  lemma ApplyExact(lines: seq<string>, hunks: seq<Hunk>, backupExists: bool)
    requires hunks != [] && Ordered(hunks, 0, 0) && AllSourced(hunks)
    ensures var r := Applied(lines, hunks, backupExists);
            var ready := forall k :: 0 <= k < |hunks| ==> Ready(lines, hunks[k]);
            && r.Outcome?
            && r.content == (if !ready || backupExists then Some(lines)
                             else if |hunks| == 1 && hunks[0].starttgt == 0 && hunks[0].linestgt == 0 then None
                             else Some(Stream(lines, 0, hunks, 0)))
            && r.errors == Bit(SomeUnfinished(lines, hunks, 0)) + Bit(!ready && !MatchFrom(Chomped(lines), 0, hunks, 0))
            && (r.alreadyPatched <==> !ready && MatchFrom(Chomped(lines), 0, hunks, 0))
  {
    PrematureExact(lines, hunks);
    CanPatchExact(lines, hunks);
  }

  /** With a backup of the same name in place the file is never touched, whatever it and the hunks are. */
  lemma BackupProtects(lines: seq<string>, hunks: seq<Hunk>)
    requires hunks != []
    ensures var r := Applied(lines, hunks, true); r.Outcome? ==> r.content == Some(lines)
  {}
}
