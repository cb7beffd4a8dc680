/**
 The change statistics of a patch set and the histogram drawn from them, in exact
 arithmetic.
 */
module DiffStat {
  import opened Hunks
  import opened Decoders
  import opened Parser
  import opened ParserSound

  predicate Marked(line: string, sign: char) {
    line != "" && line[0] == sign
  }

  /** Insertions, deletions and the change of size in bytes. */
  datatype Tally = Tally(inserts: nat, deletes: nat, delta: int) {
    function Plus(other: Tally): Tally {
      Tally(inserts + other.inserts, deletes + other.deletes, delta + other.delta)
    }
  }

  const NO_CHANGE := Tally(0, 0, 0)

  function LineTally(line: string): Tally {
    if Marked(line, '+') then Tally(1, 0, |line| - 1)
    else if Marked(line, '-') then Tally(0, 1, 1 - |line|)
    else NO_CHANGE
  }

  function TextTally(text: seq<string>, k: nat): Tally
    requires k <= |text|
    decreases |text| - k
  {
    if k == |text| then NO_CHANGE else LineTally(text[k]).Plus(TextTally(text, k + 1))
  }

  function HunksTally(hunks: seq<Hunk>, k: nat): Tally
    requires k <= |hunks|
    decreases |hunks| - k
  {
    if k == |hunks| then NO_CHANGE else TextTally(hunks[k].text, 0).Plus(HunksTally(hunks, k + 1))
  }

  function PatchTally(p: Patch): Tally {
    HunksTally(p.hunks, 0)
  }

  function Total(items: seq<Patch>, k: nat): Tally
    requires k <= |items|
    decreases |items| - k
  {
    if k == |items| then NO_CHANGE else PatchTally(items[k]).Plus(Total(items, k + 1))
  }

  function Max(a: int, b: int): int {
    if a < b then b else a
  }

  // ----- the histogram

  /** Room for the bars beside the name and count columns on a line of 80 characters. */
  function HistWidth(namelen: nat, maxdiff: nat): nat {
    Max(2, 80 - (namelen + |Decimal(maxdiff)| + 6))
  }

  function Ratio(part: nat, maxdiff: nat, width: nat): real
    requires maxdiff > 0
  {
    (part as real / maxdiff as real) * width as real
  }

  function Scaled(part: nat, maxdiff: nat, width: nat): int
    requires maxdiff > 0
  {
    var ratio := Ratio(part, maxdiff, width);
    if 0.0 < ratio < 1.0 then 1 else ratio.Floor
  }

  datatype Bar = Bar(plus: int, minus: int)

  function BarOf(t: Tally, maxdiff: nat, width: nat): Bar
    requires width >= 1
  {
    if maxdiff < width then Bar(t.inserts, t.deletes)
    else Bar(Scaled(t.inserts, maxdiff, width), Scaled(t.deletes, maxdiff, width))
  }

  lemma Product(x: real, w: real)
    requires w > 0.0
    ensures x > 0.0 <==> x * w > 0.0
    ensures x >= 0.0 <==> x * w >= 0.0
  {}

  lemma RatioBounds(a: nat, b: nat, maxdiff: nat, width: nat)
    requires maxdiff > 0 && width > 0 && a + b <= maxdiff
    ensures Ratio(a, maxdiff, width) + Ratio(b, maxdiff, width) <= width as real
    ensures Ratio(a, maxdiff, width) >= 0.0 && (Ratio(a, maxdiff, width) > 0.0 <==> a > 0)
  {
    var m, w := maxdiff as real, width as real;
    var x, y := a as real / m, b as real / m;
    assert x * m == a as real && y * m == b as real;
    Product(x, m);
    Product(x, w);
    Product(1.0 - x - y, m);
    assert (1.0 - x - y) * m == m - (x * m + y * m);
    Product(1.0 - x - y, w);
    assert (1.0 - x - y) * w == w - (x * w + y * w);
  }

  /**
   Both bars of a file together fit into the histogram column, and every count that is
   not zero shows at least one character.
   */
  lemma BarFits(t: Tally, maxdiff: nat, width: nat)
    requires width >= 2 && t.inserts + t.deletes <= maxdiff
    ensures var bar := BarOf(t, maxdiff, width);
            && 0 <= bar.plus && 0 <= bar.minus && bar.plus + bar.minus <= width
            && (bar.plus > 0 <==> t.inserts > 0) && (bar.minus > 0 <==> t.deletes > 0)
  {
    if maxdiff >= width {
      RatioBounds(t.inserts, t.deletes, maxdiff, width);
      RatioBounds(t.deletes, t.inserts, maxdiff, width);
      var x, y := Ratio(t.inserts, maxdiff, width), Ratio(t.deletes, maxdiff, width);
      assert x.Floor as real <= x && y.Floor as real <= y;
    }
  }

  // ----- the report

  datatype Row = Row(name: string, changes: nat, bar: Bar)
  datatype Report = Report(rows: seq<Row>, files: nat, inserts: nat, deletes: nat, delta: int)

  function NameLen(items: seq<Patch>, k: nat): nat
    requires k <= |items|
    decreases |items| - k
  {
    if k == |items| then 0 else Max(|items[k].target|, NameLen(items, k + 1))
  }

  function MaxDiff(items: seq<Patch>, k: nat): nat
    requires k <= |items|
    decreases |items| - k
  {
    if k == |items| then 0
    else Max(PatchTally(items[k]).inserts + PatchTally(items[k]).deletes, MaxDiff(items, k + 1))
  }

  function RowOf(p: Patch, namelen: nat, maxdiff: nat): Row {
    Row(p.target, PatchTally(p).inserts + PatchTally(p).deletes,
        BarOf(PatchTally(p), maxdiff, HistWidth(namelen, maxdiff)))
  }

  function ReportOf(items: seq<Patch>): Report {
    var namelen, maxdiff, total := NameLen(items, 0), MaxDiff(items, 0), Total(items, 0);
    Report(seq(|items|, i requires 0 <= i < |items| => RowOf(items[i], namelen, maxdiff)),
           |items|, total.inserts, total.deletes, total.delta)
  }

  lemma {:induction false} MaxDiffBounds(items: seq<Patch>, k: nat, i: nat)
    requires k <= i < |items|
    ensures PatchTally(items[i]).inserts + PatchTally(items[i]).deletes <= MaxDiff(items, k)
    ensures |items[i].target| <= NameLen(items, k)
    decreases i - k
  {
    if k < i {
      MaxDiffBounds(items, k + 1, i);
    }
  }

  /** In every report every row fits its column and hides no change. */
  lemma HistogramBound(items: seq<Patch>, i: nat)
    requires i < |items|
    ensures var row := ReportOf(items).rows[i];
            var width := HistWidth(NameLen(items, 0), MaxDiff(items, 0));
            && row.name == items[i].target
            && row.bar.plus + row.bar.minus <= width
            && (row.bar.plus > 0 <==> PatchTally(items[i]).inserts > 0)
            && (row.bar.minus > 0 <==> PatchTally(items[i]).deletes > 0)
  {
    MaxDiffBounds(items, 0, i);
    BarFits(PatchTally(items[i]), MaxDiff(items, 0), HistWidth(NameLen(items, 0), MaxDiff(items, 0)));
    assert ReportOf(items).rows[i] == RowOf(items[i], NameLen(items, 0), MaxDiff(items, 0));
  }

  // ----- the counts agree with the headers

  lemma {:induction false} TallyIsSides(text: seq<string>, k: nat)
    requires k <= |text|
    ensures TextTally(text, k).inserts - TextTally(text, k).deletes == |Side(text[k..], '+')| - |Side(text[k..], '-')|
    decreases |text| - k
  {
    if k < |text| {
      assert text[k..][1..] == text[k + 1..];
      TallyIsSides(text, k + 1);
    }
  }

  lemma {:induction false} TallyIsGrowth(hunks: seq<Hunk>, k: nat)
    requires k <= |hunks| && AllSealed(hunks)
    ensures HunksTally(hunks, k).inserts - HunksTally(hunks, k).deletes == Growth(hunks, k)
    decreases |hunks| - k
  {
    if k < |hunks| {
      assert Sealed(hunks[k]);
      TallyIsSides(hunks[k].text, 0);
      assert hunks[k].text[0..] == hunks[k].text;
      TallyIsGrowth(hunks, k + 1);
    }
  }

  function AllGrowth(items: seq<Patch>, k: nat): int
    requires k <= |items|
    decreases |items| - k
  {
    if k == |items| then 0 else Growth(items[k].hunks, 0) + AllGrowth(items, k + 1)
  }

  /** For parsed patches insertions minus deletions is what the hunk headers declare, whole report. */
  lemma {:induction false} ReportIsGrowth(items: seq<Patch>, k: nat)
    requires k <= |items| && AllSound(items)
    ensures Total(items, k).inserts - Total(items, k).deletes == AllGrowth(items, k)
    decreases |items| - k
  {
    if k < |items| {
      assert SoundPatch(items[k]);
      TallyIsGrowth(items[k].hunks, 0);
      ReportIsGrowth(items, k + 1);
    }
  }
}
