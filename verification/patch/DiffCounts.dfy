/**
 The change statistics in terms of the lines themselves: what the counts count, how long the
 bars are, and that a row fits its line.
 */
module DiffCounts {
  import opened Hunks
  import opened Decoders
  import opened Parser
  import opened DiffStat

  // ----- what is counted

  /** The lines with a sign, without it. */
  function Signed(text: seq<string>, sign: char): seq<string> {
    if text == [] then []
    else if text[0] != "" && text[0][0] == sign then [text[0][1..]] + Signed(text[1..], sign)
    else Signed(text[1..], sign)
  }

  /** All of them as one text. */
  function Whole(lines: seq<string>): string {
    if lines == [] then "" else lines[0] + Whole(lines[1..])
  }

  lemma {:induction false} SignedConcat(a: seq<string>, b: seq<string>, sign: char)
    ensures Signed(a + b, sign) == Signed(a, sign) + Signed(b, sign)
  {
    if a == [] {
      assert a + b == b;
    } else {
      assert (a + b)[1..] == a[1..] + b;
      SignedConcat(a[1..], b, sign);
    }
  }

  lemma {:induction false} WholeConcat(a: seq<string>, b: seq<string>)
    ensures Whole(a + b) == Whole(a) + Whole(b)
  {
    if a == [] {
      assert a + b == b;
    } else {
      assert (a + b)[1..] == a[1..] + b;
      WholeConcat(a[1..], b);
    }
  }

  /** Lines by sign, and the size of the added text less that of the removed text. */
  function Counted(text: seq<string>): Tally {
    var added, removed := Signed(text, '+'), Signed(text, '-');
    Tally(|added|, |removed|, |Whole(added)| - |Whole(removed)|)
  }

  lemma CountedConcat(a: seq<string>, b: seq<string>)
    ensures Counted(a + b) == Counted(a).Plus(Counted(b))
  {
    SizeConcat(a, b, '+');
    SizeConcat(a, b, '-');
  }

  lemma SizeConcat(a: seq<string>, b: seq<string>, sign: char)
    ensures |Signed(a + b, sign)| == |Signed(a, sign)| + |Signed(b, sign)|
    ensures |Whole(Signed(a + b, sign))| == |Whole(Signed(a, sign))| + |Whole(Signed(b, sign))|
  {
    SignedConcat(a, b, sign);
    WholeConcat(Signed(a, sign), Signed(b, sign));
  }

  lemma LineCounted(line: string)
    ensures Counted([line]) == LineTally(line)
  {
    assert [line][1..] == [];
    var tail := if line == "" then "" else line[1..];
    assert Whole([]) == "" && [tail][1..] == [] && Whole([tail]) == tail + "";
    assert Signed([line], '+') == if line != "" && line[0] == '+' then [tail] + [] else [];
    assert Signed([line], '-') == if line != "" && line[0] == '-' then [tail] + [] else [];
  }

  lemma {:induction false} TextCounted(text: seq<string>, k: nat)
    requires k <= |text|
    ensures TextTally(text, k) == Counted(text[k..])
    decreases |text| - k
  {
    if k == |text| {
      assert text[k..] == [] && Signed([], '+') == Signed([], '-') == [];
    } else {
      assert text[k..] == [text[k]] + text[k + 1..];
      TextCounted(text, k + 1);
      LineCounted(text[k]);
      CountedConcat([text[k]], text[k + 1..]);
    }
  }

  /** All body lines of the hunks from `k` on. */
  function Lines(hunks: seq<Hunk>, k: nat): seq<string>
    requires k <= |hunks|
    decreases |hunks| - k
  {
    if k == |hunks| then [] else hunks[k].text + Lines(hunks, k + 1)
  }

  lemma {:induction false} HunksCounted(hunks: seq<Hunk>, k: nat)
    requires k <= |hunks|
    ensures HunksTally(hunks, k) == Counted(Lines(hunks, k))
    decreases |hunks| - k
  {
    if k == |hunks| {
      assert Signed([], '+') == Signed([], '-') == [];
    } else {
      HunksCounted(hunks, k + 1);
      TextCounted(hunks[k].text, 0);
      assert hunks[k].text[0..] == hunks[k].text;
      CountedConcat(hunks[k].text, Lines(hunks, k + 1));
    }
  }

  function AllLines(items: seq<Patch>, k: nat): seq<string>
    requires k <= |items|
    decreases |items| - k
  {
    if k == |items| then [] else Lines(items[k].hunks, 0) + AllLines(items, k + 1)
  }

  lemma {:induction false} TotalCounted(items: seq<Patch>, k: nat)
    requires k <= |items|
    ensures Total(items, k) == Counted(AllLines(items, k))
    decreases |items| - k
  {
    if k == |items| {
      assert Signed([], '+') == Signed([], '-') == [];
    } else {
      TotalCounted(items, k + 1);
      HunksCounted(items[k].hunks, 0);
      CountedConcat(Lines(items[k].hunks, 0), AllLines(items, k + 1));
    }
  }

  // ----- the bars

  /** The length of a bar in whole numbers: its share of the width, at least one character for any change. */
  function Share(part: nat, maxdiff: nat, width: nat): nat
    requires maxdiff > 0
  {
    if 0 < part * width < maxdiff then 1 else part * width / maxdiff
  }

  lemma FloorOfQuotient(a: nat, b: nat)
    requires b > 0
    ensures (a as real / b as real).Floor == a / b
  {
    var q, x := a / b, a as real / b as real;
    assert a == q * b + a % b;
    assert x * b as real == a as real;
    assert q as real * b as real <= a as real < (q + 1) as real * b as real;
    Product((q + 1) as real - x, b as real);
    Product(x - q as real, b as real);
    assert (x - q as real) * b as real == a as real - q as real * b as real;
    assert ((q + 1) as real - x) * b as real == (q + 1) as real * b as real - a as real;
  }

  lemma RatioIsQuotient(part: nat, maxdiff: nat, width: nat)
    requires maxdiff > 0
    ensures Ratio(part, maxdiff, width) == (part * width) as real / maxdiff as real
  {
    var x := part as real / maxdiff as real;
    assert x * maxdiff as real == part as real;
    assert (x * width as real) * maxdiff as real == part as real * width as real == (part * width) as real;
  }

  lemma ScaledExact(part: nat, maxdiff: nat, width: nat)
    requires maxdiff > 0
    ensures Scaled(part, maxdiff, width) == Share(part, maxdiff, width)
  {
    var a := part * width;
    RatioIsQuotient(part, maxdiff, width);
    FloorOfQuotient(a, maxdiff);
    var x := a as real / maxdiff as real;
    assert x * maxdiff as real == a as real;
    Product(x, maxdiff as real);
    Product(1.0 - x, maxdiff as real);
    assert (1.0 - x) * maxdiff as real == maxdiff as real - a as real;
  }

  /**
   The whole report in terms of body lines: each row counts the lines of its patch by sign;
   its bars are these counts where all rows of the report fit, and shares of the width otherwise.
   */
  lemma ReportExact(items: seq<Patch>, i: nat)
    requires i < |items|
    ensures var report, all, lines := ReportOf(items), AllLines(items, 0), Lines(items[i].hunks, 0);
            var row, added, removed := report.rows[i], |Signed(lines, '+')|, |Signed(lines, '-')|;
            var maxdiff, width := MaxDiff(items, 0), HistWidth(NameLen(items, 0), MaxDiff(items, 0));
            && report.files == |items| == |report.rows|
            && report.inserts == |Signed(all, '+')| && report.deletes == |Signed(all, '-')|
            && report.delta == |Whole(Signed(all, '+'))| - |Whole(Signed(all, '-'))|
            && row.name == items[i].target && row.changes == added + removed <= maxdiff
            && row.bar == if maxdiff < width then Bar(added, removed)
                          else Bar(Share(added, maxdiff, width), Share(removed, maxdiff, width))
  {
    var lines := Lines(items[i].hunks, 0);
    TotalCounted(items, 0);
    HunksCounted(items[i].hunks, 0);
    MaxDiffBounds(items, 0, i);
    var maxdiff, width := MaxDiff(items, 0), HistWidth(NameLen(items, 0), MaxDiff(items, 0));
    if maxdiff >= width {
      ScaledExact(|Signed(lines, '+')|, maxdiff, width);
      ScaledExact(|Signed(lines, '-')|, maxdiff, width);
    }
  }

  /** The columns are as wide as the longest name and the greatest number of changes, and no wider. */
  lemma {:induction false} ColumnsTight(items: seq<Patch>, k: nat)
    requires k < |items|
    ensures exists i :: k <= i < |items| && |items[i].target| == NameLen(items, k)
    ensures exists i {:trigger PatchTally(items[i])} ::
              k <= i < |items| && PatchTally(items[i]).inserts + PatchTally(items[i]).deletes == MaxDiff(items, k)
    decreases |items| - k
  {
    if k + 1 < |items| {
      ColumnsTight(items, k + 1);
    } else {
      assert NameLen(items, k + 1) == 0 && MaxDiff(items, k + 1) == 0;
    }
    assert PatchTally(items[k]) == PatchTally(items[k]);
  }

  /**
   A row of name, count and bars, with what stands between them, fits 80 characters, unless
   that leaves fewer than two for the bars.
   */
  lemma RowFits(items: seq<Patch>, i: nat)
    requires i < |items|
    ensures var namelen, statlen := NameLen(items, 0), |Decimal(MaxDiff(items, 0))|;
            var bar := ReportOf(items).rows[i].bar;
            var room := 80 - (|" "| + namelen + |" | "| + statlen + |" "| + |"\n"|);
            && |items[i].target| <= namelen
            && HistWidth(namelen, MaxDiff(items, 0)) == (if room < 2 then 2 else room)
            && (|" "| + namelen + |" | "| + statlen + |" "| + bar.plus + bar.minus + |"\n"| <= 80
                || (namelen + statlen + 6 > 78 && bar.plus + bar.minus <= 2))
  {
    HistogramBound(items, i);
    MaxDiffBounds(items, 0, i);
  }
}
