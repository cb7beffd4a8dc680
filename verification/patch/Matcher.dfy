/**
 The check for an already patched file: it walks over the file once and compares every
 line of a hunk that is not a deletion with the file, from the target start of the hunk.
 */
module Matcher {
  import opened Text
  import opened Hunks
  import opened Rewriter
  import opened RewriterProofs

  predicate Deletes(line: string) {
    line != "" && line[0] == '-'
  }

  /** What a body expects to find, from index `k` on; a `\` line counts as a line of the file. */
  function Expected(text: seq<string>, k: nat): seq<string>
    requires k <= |text|
    decreases |text| - k
  {
    if k == |text| then []
    else (if Deletes(text[k]) then [] else [Chomp(Unsigned(text[k]))]) + Expected(text, k + 1)
  }

  predicate StandsAt(file: seq<string>, at: nat, expected: seq<string>) {
    at + |expected| <= |file| && file[at..at + |expected|] == expected
  }

  function From(pos: nat, h: Hunk): nat {
    if pos + 1 < h.starttgt then h.starttgt - 1 else pos
  }

  /** The walk from line `pos` and hunk `k` on; `file` holds the lines without line ends. */
  predicate MatchFrom(file: seq<string>, pos: nat, hunks: seq<Hunk>, k: nat)
    requires k <= |hunks|
    decreases |hunks| - k
  {
    k == |hunks|
    || (StandsAt(file, From(pos, hunks[k]), Expected(hunks[k].text, 0))
        && MatchFrom(file, From(pos, hunks[k]) + |Expected(hunks[k].text, 0)|, hunks, k + 1))
  }

  /** The comparison line by line. */
  predicate Agrees(file: seq<string>, pos: nat, text: seq<string>, k: nat)
    requires k <= |text|
    decreases |text| - k
  {
    if k == |text| then pos <= |file|
    else if Deletes(text[k]) then Agrees(file, pos, text, k + 1)
    else pos < |file| && file[pos] == Chomp(Unsigned(text[k])) && Agrees(file, pos + 1, text, k + 1)
  }

  lemma StandsCons(file: seq<string>, pos: nat, want: string, rest: seq<string>)
    ensures StandsAt(file, pos, [want] + rest) <==>
            pos < |file| && file[pos] == want && StandsAt(file, pos + 1, rest)
  {
    var end := pos + 1 + |rest|;
    if end <= |file| {
      assert file[pos..end] == [file[pos]] + file[pos + 1..end];
      assert ([want] + rest)[0] == want && ([want] + rest)[1..] == rest;
    }
  }

  lemma {:induction false} AgreesExact(file: seq<string>, pos: nat, text: seq<string>, k: nat)
    requires k <= |text|
    ensures Agrees(file, pos, text, k) <==> StandsAt(file, pos, Expected(text, k))
    decreases |text| - k
  {
    if k < |text| {
      if Deletes(text[k]) {
        AgreesExact(file, pos, text, k + 1);
      } else {
        AgreesExact(file, pos + 1, text, k + 1);
        StandsCons(file, pos, Chomp(Unsigned(text[k])), Expected(text, k + 1));
      }
    }
  }

  /** Compares one body with the file; a mismatch or the end of the file is the exception NoMatch. */
  method MatchBody(lines: seq<string>, start: nat, text: seq<string>) returns (matched: bool, pos: nat)
    requires start <= |lines|
    ensures matched <==> StandsAt(Chomped(lines), start, Expected(text, 0))
    ensures matched ==> pos == start + |Expected(text, 0)| && pos <= |lines|
  {
    pos := start;
    AgreesExact(Chomped(lines), start, text, 0);
    for k := 0 to |text|
      invariant pos <= |lines|
      invariant Agrees(Chomped(lines), start, text, 0) == Agrees(Chomped(lines), pos, text, k)
      invariant start + |Expected(text, 0)| == pos + |Expected(text, k)|
    {
      var hline := text[k];
      if Deletes(hline) {
        continue;
      }
      if pos == |lines| || Chomp(lines[pos]) != Chomp(Unsigned(hline)) {
        return false, pos;
      }
      pos := pos + 1;
    }
    matched := true;
  }

  /** Reads up to the line before the target start; `false` when the file ends first. */
  method SkipTo(lines: seq<string>, pos: nat, h: Hunk) returns (found: bool, start: nat)
    requires pos <= |lines|
    ensures found == (From(pos, h) <= |lines|)
    ensures start <= |lines| && (found ==> start == From(pos, h))
  {
    start := pos;
    while start + 1 < h.starttgt
      invariant pos <= start <= |lines| && From(start, h) == From(pos, h)
      decreases h.starttgt - start
    {
      if start == |lines| {
        return false, start;
      }
      start := start + 1;
    }
    found := true;
  }

  method MatchFileHunks(lines: seq<string>, hunks: seq<Hunk>) returns (matched: bool)
    ensures matched == MatchFrom(Chomped(lines), 0, hunks, 0)
  {
    var pos := 0;
    for hno := 0 to |hunks|
      invariant 0 <= pos <= |lines|
      invariant MatchFrom(Chomped(lines), pos, hunks, hno) == MatchFrom(Chomped(lines), 0, hunks, 0)
    {
      ghost var file, at, text := Chomped(lines), From(pos, hunks[hno]), hunks[hno].text;
      assert MatchFrom(file, pos, hunks, hno)
          == (StandsAt(file, at, Expected(text, 0)) && MatchFrom(file, at + |Expected(text, 0)|, hunks, hno + 1));
      matched, pos := SkipTo(lines, pos, hunks[hno]);
      if !matched {
        return;
      }
      matched, pos := MatchBody(lines, pos, hunks[hno].text);
      if !matched {
        return;
      }
    }
    matched := true;
  }

  // ----- exactness

  /** Target windows ordered and not overlapping. */
  predicate TargetOrdered(hunks: seq<Hunk>, k: nat, pos: nat)
    requires k <= |hunks|
    decreases |hunks| - k
  {
    k == |hunks| || (pos < hunks[k].starttgt
                     && TargetOrdered(hunks, k + 1, hunks[k].starttgt - 1 + |Expected(hunks[k].text, 0)|))
  }

  predicate Stands(file: seq<string>, h: Hunk) {
    h.starttgt >= 1 && StandsAt(file, h.starttgt - 1, Expected(h.text, 0))
  }

  /** On ordered target windows the walk succeeds exactly when every hunk stands at its own target start. */
  lemma {:induction false} MatchExact(file: seq<string>, pos: nat, hunks: seq<Hunk>, k: nat)
    requires k <= |hunks| && TargetOrdered(hunks, k, pos)
    ensures MatchFrom(file, pos, hunks, k) <==> forall i :: k <= i < |hunks| ==> Stands(file, hunks[i])
    decreases |hunks| - k
  {
    if k < |hunks| {
      MatchExact(file, hunks[k].starttgt - 1 + |Expected(hunks[k].text, 0)|, hunks, k + 1);
    }
  }

  lemma {:induction false} ExpectedLength(text: seq<string>, k: nat)
    requires KnownText(text) && k <= |text|
    ensures |Expected(text, k)| == |Side(text[k..], '+')| + Marks(text, k)
    decreases |text| - k
  {
    if k < |text| {
      assert BodyLine(text[k]) && text[k..][1..] == text[k + 1..];
      ExpectedLength(text, k + 1);
    }
  }

  /** The expected lines of a body are its target side exactly when it has no `\` lines. */
  lemma {:induction false} ExpectedIsTargetSide(text: seq<string>, k: nat)
    requires KnownText(text) && k <= |text|
    ensures Expected(text, k) == Side(text[k..], '+') <==> Marks(text, k) == 0
    decreases |text| - k
  {
    if Marks(text, k) != 0 {
      ExpectedLength(text, k);
    } else if k < |text| {
      assert BodyLine(text[k]) && text[k..][1..] == text[k + 1..];
      ExpectedIsTargetSide(text, k + 1);
    }
  }

  // ----- a file that was just patched

  /** The walk reaches the hunk where the rewriter has put its target side, or before that if there is none. */
  lemma ReachesHunk(h: Hunk, at: nat, pos: nat, walk: nat)
    requires walk <= at && pos <= h.Before()
    requires h.starttgt == h.startsrc + (at - pos) || StartsEarly(h, at - pos)
    ensures From(walk, h) <= at + (h.Before() - pos)
    ensures h.starttgt == h.startsrc + (at - pos) ==> From(walk, h) == at + (h.Before() - pos)
  {}

  /** The hunk stands where the walk looks for it in what the hunks have written. */
  lemma HunkStands(file: seq<string>, pos: nat, hunks: seq<Hunk>, k: nat, pre: seq<string>, walk: nat)
    requires k < |hunks| && Windows(hunks, k, pos, |file|) && AllConsistent(hunks) && Unmarked(hunks[k])
    requires TargetsNear(hunks, k, |pre| - pos) && walk <= |pre|
    ensures var h := hunks[k];
            && pos <= h.Before() <= h.Last() <= |file| && Windows(hunks, k + 1, h.Last(), |file|)
            && pre + Splice(file, pos, hunks, k)
               == pre + file[pos..h.Before()] + TargetSide(h) + Splice(file, h.Last(), hunks, k + 1)
            && |TargetSide(h)| == |Expected(h.text, 0)| == h.linestgt
            && From(walk, h) <= |pre + file[pos..h.Before()]|
            && StandsAt(pre + Splice(file, pos, hunks, k), From(walk, h), Expected(h.text, 0))
  {
    var h := hunks[k];
    WindowsBound(hunks, k, pos, |file|);
    assert Consistent(h);
    ExpectedIsTargetSide(h.text, 0);
    assert h.text[0..] == h.text;
    var copied, rest := file[pos..h.Before()], Splice(file, h.Last(), hunks, k + 1);
    PrefixStep(pre, copied, TargetSide(h), rest);
    ReachesHunk(h, |pre|, pos, walk);
    StandsBetween(pre + copied, TargetSide(h), rest);
  }

  lemma {:induction false} SpliceMatches(
    file: seq<string>, pos: nat, hunks: seq<Hunk>, k: nat, pre: seq<string>, walk: nat)
    requires k <= |hunks| && Windows(hunks, k, pos, |file|) && AllConsistent(hunks) && AllUnmarked(hunks, k)
    requires TargetsNear(hunks, k, |pre| - pos) && walk <= |pre|
    ensures MatchFrom(pre + Splice(file, pos, hunks, k), walk, hunks, k)
    decreases |hunks| - k
  {
    if k < |hunks| {
      var h := hunks[k];
      assert Unmarked(h);
      HunkStands(file, pos, hunks, k, pre, walk);
      var pre' := pre + file[pos..h.Before()] + TargetSide(h);
      SpliceMatches(file, h.Last(), hunks, k + 1, pre', From(walk, h) + h.linestgt);
    }
  }

  lemma StandsBetween(pre: seq<string>, mid: seq<string>, rest: seq<string>)
    ensures StandsAt(pre + mid + rest, |pre|, mid)
  {}

  /** A successful walk needs room for all expected lines from where it stands. */
  function Needed(hunks: seq<Hunk>, k: nat): nat
    requires k <= |hunks|
    decreases |hunks| - k
  {
    if k == |hunks| then 0 else |Expected(hunks[k].text, 0)| + Needed(hunks, k + 1)
  }

  lemma {:induction false} MatchNeeds(file: seq<string>, pos: nat, hunks: seq<Hunk>, k: nat)
    requires k <= |hunks| && pos <= |file| && MatchFrom(file, pos, hunks, k)
    ensures pos + Needed(hunks, k) <= |file|
    decreases |hunks| - k
  {
    if k < |hunks| {
      MatchNeeds(file, From(pos, hunks[k]) + |Expected(hunks[k].text, 0)|, hunks, k + 1);
    }
  }

  /** The check expects at least the target lines of the hunks from `k` on. */
  lemma {:induction false} NeedsTargets(hunks: seq<Hunk>, k: nat, pos: nat, n: nat)
    requires k <= |hunks| && Windows(hunks, k, pos, n) && AllConsistent(hunks)
    ensures Needed(hunks, k) >= n - pos - Gap(hunks, k, pos, n) + Growth(hunks, k)
    decreases |hunks| - k
  {
    if k < |hunks| {
      var h := hunks[k];
      WindowsBound(hunks, k, pos, n);
      ExpectedCount(hunks, k);
      NeedsTargets(hunks, k + 1, h.Last(), n);
    }
  }

  /** With a `\` line that is at the end, the check expects more lines than the patched file has left. */
  lemma {:induction false} MarkedIsNotRecognised(
    hunks: seq<Hunk>, k: nat, pos: nat, n: nat, file: seq<string>, at: nat, walk: nat)
    requires k <= |hunks| && Windows(hunks, k, pos, n) && AllConsistent(hunks)
    requires MarksAtEnd(hunks, k, pos, n) && !AllUnmarked(hunks, k) && TargetsNear(hunks, k, at - pos)
    requires |file| == at + n - pos + Growth(hunks, k) && walk <= at
    ensures !MatchFrom(file, walk, hunks, k)
    decreases |hunks| - k
  {
    var h := hunks[k];
    WindowsBound(hunks, k, pos, n);
    ExpectedCount(hunks, k);
    ReachesHunk(h, at, pos, walk);
    var start := at + (h.Before() - pos);
    if Unmarked(h) {
      assert !AllUnmarked(hunks, k + 1);
      MarkedIsNotRecognised(hunks, k + 1, h.Last(), n, file, start + h.linestgt, From(walk, h) + h.linestgt);
    } else {
      NoRoom(hunks, k + 1, h.Last(), n, file, start + |Expected(h.text, 0)|);
    }
  }

  lemma ExpectedCount(hunks: seq<Hunk>, k: nat)
    requires k < |hunks| && AllConsistent(hunks)
    ensures |Expected(hunks[k].text, 0)| == hunks[k].linestgt + Marks(hunks[k].text, 0)
  {
    assert Consistent(hunks[k]);
    ExpectedLength(hunks[k].text, 0);
    assert hunks[k].text[0..] == hunks[k].text;
  }

  lemma NoRoom(hunks: seq<Hunk>, k: nat, pos: nat, n: nat, file: seq<string>, at: nat)
    requires k <= |hunks| && Windows(hunks, k, pos, n) && AllConsistent(hunks) && Gap(hunks, k, pos, n) == 0
    requires at > |file| - (n - pos + Growth(hunks, k))
    ensures at > |file| || !MatchFrom(file, at, hunks, k)
  {
    NeedsTargets(hunks, k, pos, n);
    if at <= |file| && MatchFrom(file, at, hunks, k) {
      MatchNeeds(file, at, hunks, k);
    }
  }

  lemma SpliceIsRecognised(file: seq<string>, hunks: seq<Hunk>)
    requires Windows(hunks, 0, 0, |file|) && AllConsistent(hunks) && TargetsNear(hunks, 0, 0)
    requires MarksAtEnd(hunks, 0, 0, |file|)
    ensures MatchFrom(Splice(file, 0, hunks, 0), 0, hunks, 0) <==> AllUnmarked(hunks, 0)
  {
    var out := Splice(file, 0, hunks, 0);
    if AllUnmarked(hunks, 0) {
      SpliceMatches(file, 0, hunks, 0, [], 0);
      assert [] + out == out;
    } else {
      SpliceLength(file, 0, hunks, 0);
      MarkedIsNotRecognised(hunks, 0, 0, |file|, out, 0, 0);
    }
  }

  /**
   A file that was just patched is recognised as already patched exactly when no hunk has a
   `\` line: the check takes the remark for a line of the file.
   */
  lemma PatchedIsRecognised(src: seq<string>, hunks: seq<Hunk>)
    requires Windows(hunks, 0, 0, |src|) && AllConsistent(hunks) && TargetsNear(hunks, 0, 0)
    requires MarksAtEnd(hunks, 0, 0, |src|)
    ensures MatchFrom(Chomped(Stream(src, 0, hunks, 0)), 0, hunks, 0) <==> AllUnmarked(hunks, 0)
  {
    StreamIsSplice(src, hunks);
    SpliceIsRecognised(Chomped(src), hunks);
  }
}
