/**
 Hunks of a unified diff, the two sides of their bodies, and what it means to splice a
 list of hunks into a file. Line numbers count from 1, as in the diff format. The
 functions over a hunk list take the index `k` of the first hunk they look at.
 */
module Hunks {
  import opened Text

  datatype Hunk = Hunk(
    startsrc: nat, linessrc: nat, starttgt: nat, linestgt: nat,
    invalid: bool, desc: string, text: seq<string>)
  {
    /** The line just before the source window, and the last line of that window. */
    function Before(): int { startsrc - 1 }
    function Last(): int { startsrc - 1 + linessrc }
  }

  predicate OnSide(line: string, sign: char) {
    line != "" && (line[0] == ' ' || line[0] == sign)
  }

  /** The lines a body shows for one side of the change, without sign and line end. */
  function Side(text: seq<string>, sign: char): seq<string> {
    if text == [] then []
    else (if OnSide(text[0], sign) then [Chomp(text[0][1..])] else []) + Side(text[1..], sign)
  }

  function SourceSide(h: Hunk): seq<string> {
    Side(h.text, '-')
  }

  function TargetSide(h: Hunk): seq<string> {
    Side(h.text, '+')
  }

  predicate BodyLine(line: string) {
    line != "" && (line[0] == '-' || line[0] == ' ' || line[0] == '+' || line[0] == '\\')
  }

  predicate KnownText(text: seq<string>) {
    forall i {:trigger BodyLine(text[i])} :: 0 <= i < |text| ==> BodyLine(text[i])
  }

  /** A remark such as `\ No newline at end of file`; it belongs to neither side. */
  predicate IsMark(line: string) {
    line != "" && line[0] == '\\'
  }

  /** How many `\` lines a body has, from index `k` on. */
  function Marks(text: seq<string>, k: nat): nat
    requires k <= |text|
    decreases |text| - k
  {
    if k == |text| then 0 else (if IsMark(text[k]) then 1 else 0) + Marks(text, k + 1)
  }

  predicate Unmarked(h: Hunk) {
    Marks(h.text, 0) == 0
  }

  predicate AllUnmarked(hunks: seq<Hunk>, k: nat)
    requires k <= |hunks|
  {
    forall i {:trigger Unmarked(hunks[i])} :: k <= i < |hunks| ==> Unmarked(hunks[i])
  }

  lemma {:induction false} MarksExact(text: seq<string>, k: nat)
    requires k <= |text|
    ensures Marks(text, k) == 0 <==> forall i {:trigger text[i]} :: k <= i < |text| ==> !IsMark(text[i])
    decreases |text| - k
  {
    if k < |text| {
      MarksExact(text, k + 1);
    }
  }

  /** The body agrees with the counts of the header; `\` lines may stand anywhere in it. */
  predicate Consistent(h: Hunk) {
    KnownText(h.text) && |SourceSide(h)| == h.linessrc && |TargetSide(h)| == h.linestgt
  }

  predicate AllConsistent(hunks: seq<Hunk>) {
    forall i {:trigger Consistent(hunks[i])} :: 0 <= i < |hunks| ==> Consistent(hunks[i])
  }

  /** All the scan asks of a body: no empty string, and the source lines the header declares. */
  predicate Sourced(h: Hunk) {
    "" !in h.text && |SourceSide(h)| == h.linessrc
  }

  predicate AllSourced(hunks: seq<Hunk>) {
    forall i {:trigger Sourced(hunks[i])} :: 0 <= i < |hunks| ==> Sourced(hunks[i])
  }

  lemma ConsistentIsSourced(hunks: seq<Hunk>)
    requires AllConsistent(hunks)
    ensures AllSourced(hunks)
  {
    forall i | 0 <= i < |hunks| ensures Sourced(hunks[i]) {
      assert Consistent(hunks[i]);
      forall k | 0 <= k < |hunks[i].text| ensures hunks[i].text[k] != "" {
        assert BodyLine(hunks[i].text[k]);
      }
    }
  }

  /** Source windows ordered and not overlapping, all after line `pos`. */
  predicate Ordered(hunks: seq<Hunk>, k: nat, pos: nat)
    requires k <= |hunks|
    decreases |hunks| - k
  {
    k == |hunks| || (pos <= hunks[k].Before() && Ordered(hunks, k + 1, hunks[k].Last()))
  }

  /** Ordered source windows that also lie inside a file of `n` lines. */
  predicate Windows(hunks: seq<Hunk>, k: nat, pos: nat, n: nat)
    requires k <= |hunks|
    decreases |hunks| - k
  {
    if k == |hunks| then pos <= n
    else pos <= hunks[k].Before() && Windows(hunks, k + 1, hunks[k].Last(), n)
  }

  lemma WindowsBound(hunks: seq<Hunk>, k: nat, pos: nat, n: nat)
    requires k <= |hunks| && Windows(hunks, k, pos, n)
    ensures pos <= n
    ensures k < |hunks| ==> pos <= hunks[k].Before() <= hunks[k].Last() <= n
    decreases |hunks| - k
  {
    if k < |hunks| {
      WindowsBound(hunks, k + 1, hunks[k].Last(), n);
    }
  }

  predicate InFile(h: Hunk, n: nat) {
    0 <= h.Before() && h.Last() <= n
  }

  /** Ordered windows lie inside the file exactly when each of them does. */
  lemma {:induction false} WindowsExact(hunks: seq<Hunk>, k: nat, pos: nat, n: nat)
    requires k <= |hunks| && pos <= n
    ensures Windows(hunks, k, pos, n) <==>
            Ordered(hunks, k, pos) && forall i :: k <= i < |hunks| ==> InFile(hunks[i], n)
    decreases |hunks| - k
  {
    if k < |hunks| && pos <= hunks[k].Before() {
      if hunks[k].Last() <= n {
        WindowsExact(hunks, k + 1, hunks[k].Last(), n);
      } else if Windows(hunks, k + 1, hunks[k].Last(), n) {
        WindowsBound(hunks, k + 1, hunks[k].Last(), n);
      }
    }
  }

  /** How many lines of a file of `n` lines stand outside the windows, from line `pos` on. */
  function Gap(hunks: seq<Hunk>, k: nat, pos: nat, n: nat): nat
    requires k <= |hunks| && Windows(hunks, k, pos, n)
    decreases |hunks| - k
  {
    WindowsBound(hunks, k, pos, n);
    if k == |hunks| then n - pos
    else hunks[k].Before() - pos + Gap(hunks, k + 1, hunks[k].Last(), n)
  }

  /** No line outside the windows comes after a hunk with a `\` line. */
  predicate MarksAtEnd(hunks: seq<Hunk>, k: nat, pos: nat, n: nat)
    requires k <= |hunks| && Windows(hunks, k, pos, n)
    decreases |hunks| - k
  {
    WindowsBound(hunks, k, pos, n);
    k == |hunks|
    || ((!Unmarked(hunks[k]) ==> Gap(hunks, k + 1, hunks[k].Last(), n) == 0)
        && MarksAtEnd(hunks, k + 1, hunks[k].Last(), n))
  }

  lemma {:induction false} UnmarkedAtEnd(hunks: seq<Hunk>, k: nat, pos: nat, n: nat)
    requires k <= |hunks| && Windows(hunks, k, pos, n)
    requires AllUnmarked(hunks, k) || Gap(hunks, k, pos, n) == 0
    ensures MarksAtEnd(hunks, k, pos, n)
    decreases |hunks| - k
  {
    if k < |hunks| {
      WindowsBound(hunks, k, pos, n);
      assert AllUnmarked(hunks, k) ==> Unmarked(hunks[k]);
      UnmarkedAtEnd(hunks, k + 1, hunks[k].Last(), n);
    }
  }

  /** The file from line `pos` on, with every source window replaced by the target side. */
  ghost function Splice(lines: seq<string>, pos: nat, hunks: seq<Hunk>, k: nat): seq<string>
    requires k <= |hunks| && Windows(hunks, k, pos, |lines|)
    decreases |hunks| - k
  {
    WindowsBound(hunks, k, pos, |lines|);
    if k == |hunks| then lines[pos..]
    else lines[pos..hunks[k].Before()] + TargetSide(hunks[k]) + Splice(lines, hunks[k].Last(), hunks, k + 1)
  }

  /** The reference form: replace one window at a time, the last one first. */
  ghost function ReplaceBackwards(lines: seq<string>, pos: nat, hunks: seq<Hunk>, k: nat): (r: seq<string>)
    requires k <= |hunks| && Windows(hunks, k, pos, |lines|)
    ensures pos <= |lines| && pos <= |r| && r[..pos] == lines[..pos]
    decreases |hunks| - k
  {
    WindowsBound(hunks, k, pos, |lines|);
    if k == |hunks| then lines
    else
      var before, last := hunks[k].Before(), hunks[k].Last();
      var later := ReplaceBackwards(lines, last, hunks, k + 1);
      assert later[..before] == later[..last][..before] == lines[..before];
      assert lines[..before][..pos] == lines[..pos];
      later[..before] + TargetSide(hunks[k]) + later[last..]
  }

  /** The one-pass splice is the window-by-window replacement. */
  lemma {:induction false} SpliceIsReplacement(lines: seq<string>, pos: nat, hunks: seq<Hunk>, k: nat)
    requires k <= |hunks| && Windows(hunks, k, pos, |lines|)
    ensures pos <= |lines|
    ensures lines[..pos] + Splice(lines, pos, hunks, k) == ReplaceBackwards(lines, pos, hunks, k)
    decreases |hunks| - k
  {
    WindowsBound(hunks, k, pos, |lines|);
    if k == |hunks| {
      assert lines[..pos] + lines[pos..] == lines;
    } else {
      var before, last := hunks[k].Before(), hunks[k].Last();
      SpliceIsReplacement(lines, last, hunks, k + 1);
      CutWindow(lines, pos, before, last, TargetSide(hunks[k]), Splice(lines, last, hunks, k + 1));
    }
  }

  lemma CutWindow(lines: seq<string>, pos: nat, start: nat, end: nat, mid: seq<string>, rest: seq<string>)
    requires pos <= start <= end <= |lines|
    ensures (lines[..end] + rest)[..start] + mid + (lines[..end] + rest)[end..]
            == lines[..pos] + (lines[pos..start] + mid + rest)
  {
    assert (lines[..end] + rest)[end..] == rest;
    assert (lines[..end] + rest)[..start] == lines[..start] == lines[..pos] + lines[pos..start];
  }

  /** By how many lines the hunks from index `k` on make a file longer. */
  function Growth(hunks: seq<Hunk>, k: nat): int
    requires k <= |hunks|
    decreases |hunks| - k
  {
    if k == |hunks| then 0 else hunks[k].linestgt - hunks[k].linessrc + Growth(hunks, k + 1)
  }

  lemma {:induction false} SpliceLength(lines: seq<string>, pos: nat, hunks: seq<Hunk>, k: nat)
    requires k <= |hunks| && Windows(hunks, k, pos, |lines|) && AllConsistent(hunks)
    ensures pos <= |lines| && |Splice(lines, pos, hunks, k)| == |lines| - pos + Growth(hunks, k)
    decreases |hunks| - k
  {
    WindowsBound(hunks, k, pos, |lines|);
    if k < |hunks| {
      assert Consistent(hunks[k]);
      SpliceLength(lines, hunks[k].Last(), hunks, k + 1);
    }
  }

  /** The source side of a hunk stands in the file at its window. */
  predicate Matches(lines: seq<string>, h: Hunk) {
    InFile(h, |lines|) && lines[h.Before()..h.Last()] == SourceSide(h)
  }

  predicate AllMatch(lines: seq<string>, hunks: seq<Hunk>) {
    forall i {:trigger Matches(lines, hunks[i])} :: 0 <= i < |hunks| ==> Matches(lines, hunks[i])
  }

  /** Every target start is the source start moved by the size changes of the earlier hunks. */
  predicate TargetsFollow(hunks: seq<Hunk>, k: nat, delta: int)
    requires k <= |hunks|
    decreases |hunks| - k
  {
    k == |hunks| || (hunks[k].starttgt == hunks[k].startsrc + delta
                     && TargetsFollow(hunks, k + 1, delta + hunks[k].linestgt - hunks[k].linessrc))
  }

  /**
   The same, but a hunk that leaves nothing may have its target start one line earlier: a
   start line with a count of 0 names the line before.
   */
  predicate TargetsNear(hunks: seq<Hunk>, k: nat, delta: int)
    requires k <= |hunks|
    decreases |hunks| - k
  {
    k == |hunks| || ((hunks[k].starttgt == hunks[k].startsrc + delta || StartsEarly(hunks[k], delta))
                     && TargetsNear(hunks, k + 1, delta + hunks[k].linestgt - hunks[k].linessrc))
  }

  predicate StartsEarly(h: Hunk, delta: int) {
    h.linestgt == 0 && Unmarked(h) && h.starttgt + 1 == h.startsrc + delta
  }

  lemma {:induction false} FollowingIsNear(hunks: seq<Hunk>, k: nat, delta: int)
    requires k <= |hunks| && TargetsFollow(hunks, k, delta)
    ensures TargetsNear(hunks, k, delta)
    decreases |hunks| - k
  {
    if k < |hunks| {
      FollowingIsNear(hunks, k + 1, delta + hunks[k].linestgt - hunks[k].linessrc);
    }
  }

  /** The file position after a prefix of the output and one window is what the prefix says. */
  lemma PrefixStep(pre: seq<string>, a: seq<string>, b: seq<string>, c: seq<string>)
    ensures pre + (a + b + c) == (pre + a + b) + c
  {}
}
