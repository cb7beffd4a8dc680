/**
 Reversing a patch: starts and counts are swapped, insertions become deletions and back.
 */
module Revert {
  import opened Text
  import opened Hunks
  import opened Rewriter
  import opened RewriterProofs

  function Flip(line: string): string {
    if line != "" && line[0] == '+' then "-" + line[1..]
    else if line != "" && line[0] == '-' then "+" + line[1..]
    else line
  }

  function Flipped(text: seq<string>): (r: seq<string>)
    ensures |r| == |text|
  {
    seq(|text|, i requires 0 <= i < |text| => Flip(text[i]))
  }

  function Reversed(h: Hunk): Hunk {
    Hunk(h.starttgt, h.linestgt, h.startsrc, h.linessrc, h.invalid, h.desc, Flipped(h.text))
  }

  function AllReversed(hunks: seq<Hunk>): (r: seq<Hunk>)
    ensures |r| == |hunks|
  {
    seq(|hunks|, i requires 0 <= i < |hunks| => Reversed(hunks[i]))
  }

  /** Reversing twice gives the hunks back, whatever they hold. */
  lemma ReverseTwice(hunks: seq<Hunk>)
    ensures AllReversed(AllReversed(hunks)) == hunks
  {
    forall i | 0 <= i < |hunks| ensures Reversed(Reversed(hunks[i])) == hunks[i] {
      var text := hunks[i].text;
      forall k | 0 <= k < |text| ensures Flip(Flip(text[k])) == text[k] {
      }
      assert Flipped(Flipped(text)) == text;
    }
  }

  lemma {:induction false} FlippedSides(text: seq<string>)
    ensures Side(Flipped(text), '-') == Side(text, '+')
    ensures Side(Flipped(text), '+') == Side(text, '-')
  {
    if text != [] {
      assert Flipped(text)[1..] == Flipped(text[1..]);
      assert Flipped(text)[0] == Flip(text[0]);
      assert text[0] != "" ==> Flip(text[0])[1..] == text[0][1..];
      FlippedSides(text[1..]);
    }
  }

  lemma ReversedConsistent(hunks: seq<Hunk>)
    requires AllConsistent(hunks)
    ensures AllConsistent(AllReversed(hunks))
  {
    forall i | 0 <= i < |hunks| ensures Consistent(AllReversed(hunks)[i]) {
      var h := hunks[i];
      assert Consistent(h);
      FlippedSides(h.text);
      forall k | 0 <= k < |h.text| ensures BodyLine(Flipped(h.text)[k]) {
        assert BodyLine(h.text[k]);
      }
    }
  }

  /** The file with every source window replaced by the source side the hunk claims. */
  ghost function Restored(file: seq<string>, pos: nat, hunks: seq<Hunk>, k: nat): seq<string>
    requires k <= |hunks| && Windows(hunks, k, pos, |file|)
    decreases |hunks| - k
  {
    WindowsBound(hunks, k, pos, |file|);
    if k == |hunks| then file[pos..]
    else file[pos..hunks[k].Before()] + SourceSide(hunks[k]) + Restored(file, hunks[k].Last(), hunks, k + 1)
  }

  lemma {:induction false} FlippedMarks(text: seq<string>, k: nat)
    requires k <= |text|
    ensures Marks(Flipped(text), k) == Marks(text, k)
    decreases |text| - k
  {
    if k < |text| {
      assert Flipped(text)[k] == Flip(text[k]);
      FlippedMarks(text, k + 1);
    }
  }

  lemma ReplaceExact(file: seq<string>, a: nat, b: nat, c: nat, mid: seq<string>, rest: seq<string>)
    requires a <= b <= c <= |file| && |mid| == c - b
    ensures file[a..b] + mid + rest == file[a..] <==> mid == file[b..c] && rest == file[c..]
  {
    var whole := file[a..b] + mid + rest;
    assert file[a..b] + file[b..c] + file[c..] == file[a..];
    if whole == file[a..] {
      assert mid == whole[b - a..c - a] == file[b..c];
      assert rest == whole[c - a..] == file[c..];
    }
  }

  /** Putting the claimed source sides back gives the file exactly when they stood there. */
  lemma {:induction false} RestoredExact(file: seq<string>, pos: nat, hunks: seq<Hunk>, k: nat)
    requires k <= |hunks| && Windows(hunks, k, pos, |file|) && AllConsistent(hunks)
    ensures pos <= |file|
    ensures Restored(file, pos, hunks, k) == file[pos..] <==> forall i :: k <= i < |hunks| ==> Matches(file, hunks[i])
    decreases |hunks| - k
  {
    WindowsBound(hunks, k, pos, |file|);
    if k < |hunks| {
      var h := hunks[k];
      assert Consistent(h);
      RestoredExact(file, h.Last(), hunks, k + 1);
      ReplaceExact(file, pos, h.Before(), h.Last(), SourceSide(h), Restored(file, h.Last(), hunks, k + 1));
    }
  }

  lemma Sliced(pre: seq<string>, a: seq<string>, b: seq<string>, rest: seq<string>)
    ensures var out := pre + a + b + rest;
            out[|pre|..|pre| + |a|] == a && out[|pre| + |a|..|pre| + |a| + |b|] == b
  {}

  /** Where the reversed hunk stands in what the hunks have written. */
  lemma ReversedWindow(file: seq<string>, pos: nat, hunks: seq<Hunk>, k: nat, pre: seq<string>)
    requires k < |hunks| && Windows(hunks, k, pos, |file|) && AllConsistent(hunks)
             && TargetsFollow(hunks, k, |pre| - pos)
    ensures pos <= hunks[k].Before() <= hunks[k].Last() <= |file|
    ensures var copied, target := file[pos..hunks[k].Before()], TargetSide(hunks[k]);
            var rev := Reversed(hunks[k]);
            && rev.Before() == |pre| + |copied| && rev.Last() == |pre + copied + target|
            && SourceSide(rev) == target && TargetSide(rev) == SourceSide(hunks[k])
            && pre + Splice(file, pos, hunks, k)
               == pre + copied + target + Splice(file, hunks[k].Last(), hunks, k + 1)
  {
    var h := hunks[k];
    WindowsBound(hunks, k, pos, |file|);
    assert Consistent(h);
    FlippedSides(h.text);
    PrefixStep(pre, file[pos..h.Before()], TargetSide(h), Splice(file, h.Last(), hunks, k + 1));
  }

  /** The reversed hunks fit what the hunks have written, with the same lines outside the windows. */
  lemma {:induction false} ReversedFit(hunks: seq<Hunk>, k: nat, pos: nat, n: nat, at: nat)
    requires k <= |hunks| && Windows(hunks, k, pos, n) && AllConsistent(hunks) && TargetsFollow(hunks, k, at - pos)
    ensures at + n - pos + Growth(hunks, k) >= at
    ensures Windows(AllReversed(hunks), k, at, at + n - pos + Growth(hunks, k))
    ensures Gap(AllReversed(hunks), k, at, at + n - pos + Growth(hunks, k)) == Gap(hunks, k, pos, n)
    decreases |hunks| - k
  {
    WindowsBound(hunks, k, pos, n);
    if k < |hunks| {
      assert Consistent(hunks[k]);
      ReversedFit(hunks, k + 1, hunks[k].Last(), n, at + hunks[k].Before() - pos + hunks[k].linestgt);
    }
  }

  lemma {:induction false} ReversedMarks(hunks: seq<Hunk>, k: nat, pos: nat, n: nat, at: nat)
    requires k <= |hunks| && Windows(hunks, k, pos, n) && AllConsistent(hunks) && TargetsFollow(hunks, k, at - pos)
    requires at + n - pos + Growth(hunks, k) >= 0
    requires Windows(AllReversed(hunks), k, at, at + n - pos + Growth(hunks, k))
    ensures MarksAtEnd(AllReversed(hunks), k, at, at + n - pos + Growth(hunks, k)) <==> MarksAtEnd(hunks, k, pos, n)
    decreases |hunks| - k
  {
    WindowsBound(hunks, k, pos, n);
    if k < |hunks| {
      assert Consistent(hunks[k]);
      FlippedMarks(hunks[k].text, 0);
      var next := at + hunks[k].Before() - pos + hunks[k].linestgt;
      ReversedFit(hunks, k + 1, hunks[k].Last(), n, next);
      ReversedMarks(hunks, k + 1, hunks[k].Last(), n, next);
    }
  }

  lemma {:induction false} GrowthReversed(hunks: seq<Hunk>, k: nat)
    requires k <= |hunks|
    ensures Growth(AllReversed(hunks), k) == -Growth(hunks, k)
    decreases |hunks| - k
  {
    if k < |hunks| {
      GrowthReversed(hunks, k + 1);
    }
  }

  /** The reversed hunks put the source sides back. */
  lemma {:induction false} SpliceBack(file: seq<string>, pos: nat, hunks: seq<Hunk>, k: nat, pre: seq<string>)
    requires k <= |hunks| && Windows(hunks, k, pos, |file|) && AllConsistent(hunks)
             && TargetsFollow(hunks, k, |pre| - pos)
    requires Windows(AllReversed(hunks), k, |pre|, |pre + Splice(file, pos, hunks, k)|)
    ensures Splice(pre + Splice(file, pos, hunks, k), |pre|, AllReversed(hunks), k) == Restored(file, pos, hunks, k)
    decreases |hunks| - k
  {
    if k == |hunks| {
      assert (pre + file[pos..])[|pre|..] == file[pos..];
    } else {
      var h, rev, out := hunks[k], AllReversed(hunks), pre + Splice(file, pos, hunks, k);
      ReversedWindow(file, pos, hunks, k, pre);
      var copied, target, rest := file[pos..h.Before()], TargetSide(h), Splice(file, h.Last(), hunks, k + 1);
      var next := pre + copied + target;
      assert out == next + rest;
      assert Splice(out, |next|, rev, k + 1) == Restored(file, h.Last(), hunks, k + 1) by {
        SpliceBack(file, h.Last(), hunks, k + 1, next);
      }
      assert out[|pre|..rev[k].Before()] == copied by {
        Sliced(pre, copied, target, rest);
      }
      SpliceUnfolds(out, |pre|, rev, k, |next|);
    }
  }

  lemma SpliceUnfolds(lines: seq<string>, pos: nat, hunks: seq<Hunk>, k: nat, last: nat)
    requires k < |hunks| && Windows(hunks, k, pos, |lines|) && last == hunks[k].Last()
    ensures pos <= hunks[k].Before() <= |lines| && Windows(hunks, k + 1, last, |lines|)
    ensures Splice(lines, pos, hunks, k)
            == lines[pos..hunks[k].Before()] + TargetSide(hunks[k]) + Splice(lines, last, hunks, k + 1)
  {
    WindowsBound(hunks, k, pos, |lines|);
  }

  /** The reversed hunks match in full what the hunks have written. */
  lemma {:induction false} ReversedMatch(
    file: seq<string>, pos: nat, hunks: seq<Hunk>, k: nat, pre: seq<string>, i: nat)
    requires k <= i < |hunks| && Windows(hunks, k, pos, |file|) && AllConsistent(hunks)
             && TargetsFollow(hunks, k, |pre| - pos)
    ensures Matches(pre + Splice(file, pos, hunks, k), Reversed(hunks[i]))
    decreases |hunks| - k
  {
    var h := hunks[k];
    ReversedWindow(file, pos, hunks, k, pre);
    var copied, target, rest := file[pos..h.Before()], TargetSide(h), Splice(file, h.Last(), hunks, k + 1);
    if k < i {
      ReversedMatch(file, h.Last(), hunks, k + 1, pre + copied + target, i);
    } else {
      Sliced(pre, copied, target, rest);
    }
  }

  /** On the splice itself: everything fits, matches and is put back. */
  lemma SpliceReversed(file: seq<string>, hunks: seq<Hunk>)
    requires Windows(hunks, 0, 0, |file|) && AllConsistent(hunks) && TargetsFollow(hunks, 0, 0)
    ensures var out, rev := Splice(file, 0, hunks, 0), AllReversed(hunks);
            && |out| == |file| + Growth(hunks, 0) && Windows(rev, 0, 0, |out|) && AllMatch(out, rev)
            && (Splice(out, 0, rev, 0) == file <==> AllMatch(file, hunks))
            && (MarksAtEnd(rev, 0, 0, |out|) <==> MarksAtEnd(hunks, 0, 0, |file|))
  {
    var out, rev := Splice(file, 0, hunks, 0), AllReversed(hunks);
    assert [] + out == out;
    SpliceLength(file, 0, hunks, 0);
    ReversedFit(hunks, 0, 0, |file|, 0);
    ReversedMarks(hunks, 0, 0, |file|, 0);
    forall i {:trigger Matches(out, rev[i])} | 0 <= i < |rev| ensures Matches(out, rev[i]) {
      ReversedMatch(file, 0, hunks, 0, [], i);
    }
    SpliceBack(file, 0, hunks, 0, []);
    RestoredExact(file, 0, hunks, 0);
    assert file[0..] == file;
  }

  /** Lines lost by the patch are not brought back by its reverse. */
  lemma LossStays(src: seq<string>, hunks: seq<Hunk>)
    requires Windows(hunks, 0, 0, |src|) && AllConsistent(hunks) && TargetsFollow(hunks, 0, 0)
    requires !MarksAtEnd(hunks, 0, 0, |src|)
    ensures |Stream(Stream(src, 0, hunks, 0), 0, AllReversed(hunks), 0)| < |src|
  {
    var out, rev := Stream(src, 0, hunks, 0), AllReversed(hunks);
    ReversedConsistent(hunks);
    ReversedFit(hunks, 0, 0, |src|, 0);
    ReversedMarks(hunks, 0, 0, |src|, 0);
    GrowthReversed(hunks, 0);
    LinesLost(src, hunks, |src|);
    LinesLost(out, rev, |src| + Growth(hunks, 0));
  }

  /**
   Apply, then apply the reversed patch. The file comes back, up to line ends, exactly when
   every hunk had matched it in full, the last line of each window included, and no line
   outside the windows came after a hunk with a `\` line.
   */
  lemma ApplyThenRevert(src: seq<string>, hunks: seq<Hunk>)
    requires Windows(hunks, 0, 0, |src|) && AllConsistent(hunks) && TargetsFollow(hunks, 0, 0)
    ensures var out := Stream(src, 0, hunks, 0);
            var rev := AllReversed(hunks);
            && AllConsistent(rev)
            && (MarksAtEnd(hunks, 0, 0, |src|) ==>
                  Windows(rev, 0, 0, |out|) && MarksAtEnd(rev, 0, 0, |out|) && AllMatch(Chomped(out), rev))
            && (Chomped(Stream(out, 0, rev, 0)) == Chomped(src) <==>
                  MarksAtEnd(hunks, 0, 0, |src|) && AllMatch(Chomped(src), hunks))
  {
    var file, out, rev := Chomped(src), Stream(src, 0, hunks, 0), AllReversed(hunks);
    ReversedConsistent(hunks);
    SpliceReversed(file, hunks);
    StreamIsSplice(src, hunks);
    if MarksAtEnd(hunks, 0, 0, |src|) {
      assert Chomped(out) == Splice(file, 0, hunks, 0);
      StreamIsSplice(out, rev);
    } else {
      LossStays(src, hunks);
    }
  }
}
