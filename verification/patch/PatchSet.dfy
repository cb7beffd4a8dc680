/**
 The patch set object: its list of patches and its counters, and the methods that fill
 it from a stream, reverse it in place, print it and count its changes.
 */
module PatchSets {
  import opened Text
  import opened Hunks
  import opened Decoders
  import opened Parser
  import opened Dumper
  import opened Revert
  import opened DiffStat
  import ParseLoop

  function PatchReversed(p: Patch): Patch {
    p.(hunks := AllReversed(p.hunks))
  }

  function SetReversed(items: seq<Patch>): (r: seq<Patch>)
    ensures |r| == |items|
  {
    seq(|items|, i requires 0 <= i < |items| => PatchReversed(items[i]))
  }

  /** Reversing a whole set twice gives it back. */
  lemma SetReversedTwice(items: seq<Patch>)
    ensures SetReversed(SetReversed(items)) == items
  {
    forall i | 0 <= i < |items| ensures PatchReversed(PatchReversed(items[i])) == items[i] {
      ReverseTwice(items[i].hunks);
    }
  }

  /**
   What reversing does: names, headers and statistics stay; every hunk has its starts, its
   counts and the two sides of its body exchanged.
   */
  lemma SetReversedExchanges(items: seq<Patch>, i: nat, k: nat)
    requires i < |items| && k < |items[i].hunks|
    ensures var p, r := items[i], SetReversed(items)[i];
            && |r.hunks| == |p.hunks| && r.source == p.source && r.target == p.target && r.header == p.header
            && r.ends == p.ends
            && r.hunks[k].startsrc == p.hunks[k].starttgt && r.hunks[k].linessrc == p.hunks[k].linestgt
            && r.hunks[k].starttgt == p.hunks[k].startsrc && r.hunks[k].linestgt == p.hunks[k].linessrc
            && SourceSide(r.hunks[k]) == TargetSide(p.hunks[k]) && TargetSide(r.hunks[k]) == SourceSide(p.hunks[k])
  {
    FlippedSides(items[i].hunks[k].text);
  }

  /** Flips the sign of every line of a body, one index at a time. */
  method FlipLines(text: seq<string>) returns (flipped: seq<string>)
    ensures flipped == Flipped(text)
  {
    flipped := text;
    for i := 0 to |text|
      invariant |flipped| == |text|
      invariant forall k :: 0 <= k < |text| ==> flipped[k] == if k < i then Flip(text[k]) else text[k]
    {
      var line := flipped[i];
      if line != "" {
        if line[0] == '+' {
          flipped := flipped[i := "-" + line[1..]];
        } else if line[0] == '-' {
          flipped := flipped[i := "+" + line[1..]];
        }
      }
      assert flipped[i] == Flip(text[i]);
    }
  }

  method ReverseHunks(hunks: seq<Hunk>) returns (reversed: seq<Hunk>)
    ensures reversed == AllReversed(hunks)
  {
    reversed := hunks;
    for k := 0 to |hunks|
      invariant |reversed| == |hunks|
      invariant forall j :: 0 <= j < |hunks| ==> reversed[j] == if j < k then Reversed(hunks[j]) else hunks[j]
    {
      var h := reversed[k];
      h := h.(startsrc := h.starttgt, starttgt := h.startsrc);
      h := h.(linessrc := h.linestgt, linestgt := h.linessrc);
      var text := FlipLines(h.text);
      reversed := reversed[k := h.(text := text)];
    }
  }

  method PrintLines(lines: seq<string>) returns (out: seq<string>)
    ensures out == PrintedAll(lines)
  {
    out := [];
    for i := 0 to |lines|
      invariant |out| == i && forall k :: 0 <= k < i ==> out[k] == Printed(lines[k])
    {
      out := out + [DropLf(lines[i]) + "\n"];
    }
  }

  method PrintHunk(h: Hunk) returns (out: seq<string>)
    ensures out == DumpHunk(h)
  {
    var body := PrintLines(h.text);
    out := [HeadLine(h.startsrc, h.linessrc, h.starttgt, h.linestgt)] + body;
  }

  method PrintPatch(p: Patch) returns (out: seq<string>)
    requires p.source.Some?
    ensures out == DumpPatch(p)
  {
    var header := PrintLines(p.header);
    out := header + NameLines(p.source.value, p.target);
    ghost var all := out + DumpHunks(p.hunks, 0);
    assert all == DumpPatch(p) by {
      Assoc(header, NameLines(p.source.value, p.target), DumpHunks(p.hunks, 0));
    }
    for k := 0 to |p.hunks|
      invariant out + DumpHunks(p.hunks, k) == all
    {
      var printed := PrintHunk(p.hunks[k]);
      Assoc(out, printed, DumpHunks(p.hunks, k + 1));
      out := out + printed;
    }
    assert out + [] == out;
  }

  method CountText(text: seq<string>) returns (inserts: nat, deletes: nat, delta: int)
    ensures TextTally(text, 0) == Tally(inserts, deletes, delta)
  {
    inserts, deletes, delta := 0, 0, 0;
    for k := 0 to |text|
      invariant Tally(inserts, deletes, delta).Plus(TextTally(text, k)) == TextTally(text, 0)
    {
      if Marked(text[k], '+') {
        inserts, delta := inserts + 1, delta + (|text[k]| - 1);
      } else if Marked(text[k], '-') {
        deletes, delta := deletes + 1, delta - (|text[k]| - 1);
      }
    }
  }

  method CountPatch(p: Patch) returns (tally: Tally)
    ensures tally == PatchTally(p)
  {
    tally := NO_CHANGE;
    for j := 0 to |p.hunks|
      invariant tally.Plus(HunksTally(p.hunks, j)) == HunksTally(p.hunks, 0)
    {
      var i, d, delta := CountText(p.hunks[j].text);
      tally := tally.Plus(Tally(i, d, delta));
    }
  }

  /** The rows of the report, once the columns are known. */
  method DrawRows(items: seq<Patch>, tallies: seq<Tally>, namelen: nat, maxdiff: nat) returns (rows: seq<Row>)
    requires |tallies| == |items| && forall k :: 0 <= k < |items| ==> tallies[k] == PatchTally(items[k])
    ensures |rows| == |items|
    ensures forall k :: 0 <= k < |items| ==> rows[k] == RowOf(items[k], namelen, maxdiff)
  {
    rows := [];
    for i := 0 to |items|
      invariant |rows| == i && forall k :: 0 <= k < i ==> rows[k] == RowOf(items[k], namelen, maxdiff)
    {
      var t := tallies[i];
      rows := rows + [Row(items[i].target, t.inserts + t.deletes, BarOf(t, maxdiff, HistWidth(namelen, maxdiff)))];
    }
  }

  class PatchSet {
    var items: seq<Patch>
    var errors: nat
    var warnings: nat

    constructor ()
      ensures items == [] && errors == 0 && warnings == 0
    {
      items, errors, warnings := [], 0, 0;
    }

    /** Parses a stream; the patches are added to those the set already holds. */
    method Parse(lines: seq<string>) returns (ok: bool)
      modifies this
      ensures Result(ok, items, errors, warnings) == Parser.Parse(old(items), old(warnings), lines)
    {
      ok, items, errors, warnings := ParseLoop.ParseLines(items, warnings, lines);
    }

    /** Swaps the direction of every hunk in place; file names stay. */
    method Reverse()
      modifies this`items
      ensures items == SetReversed(old(items))
    {
      for i := 0 to |items|
        invariant |items| == |old(items)|
        invariant forall k :: 0 <= k < |items| ==>
                  items[k] == if k < i then PatchReversed(old(items)[k]) else old(items)[k]
      {
        var hunks := ReverseHunks(items[i].hunks);
        items := items[i := items[i].(hunks := hunks)];
      }
    }

    /** The lines `dump` prints. */
    method DumpLines() returns (out: seq<string>)
      requires AllNamed(items)
      ensures out == Dump(items, 0)
    {
      out := [];
      for i := 0 to |items|
        invariant out + Dump(items, i) == Dump(items, 0)
      {
        var printed := PrintPatch(items[i]);
        Assoc(out, printed, Dump(items, i + 1));
        out := out + printed;
      }
      assert out + [] == out;
    }

    /** The rows and totals of the change statistics. */
    method CountChanges() returns (report: Report)
      ensures report == ReportOf(items)
    {
      var tallies: seq<Tally>, total, namelen: nat, maxdiff: nat := [], NO_CHANGE, 0, 0;
      for i := 0 to |items|
        invariant |tallies| == i && forall k :: 0 <= k < i ==> tallies[k] == PatchTally(items[k])
        invariant total.Plus(Total(items, i)) == Total(items, 0)
        invariant Max(namelen, NameLen(items, i)) == NameLen(items, 0)
        invariant Max(maxdiff, MaxDiff(items, i)) == MaxDiff(items, 0)
      {
        var tally := CountPatch(items[i]);
        tallies := tallies + [tally];
        total := total.Plus(tally);
        namelen := Max(namelen, |items[i].target|);
        maxdiff := Max(maxdiff, tally.inserts + tally.deletes);
      }
      var rows := DrawRows(items, tallies, namelen, maxdiff);
      report := Report(rows, |items|, total.inserts, total.deletes, total.delta);
      assert rows == ReportOf(items).rows;
    }
  }
}
