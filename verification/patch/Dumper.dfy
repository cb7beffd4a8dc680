/**
 Printing a patch set back as a unified diff, and reading the print again.
 */
module Dumper {
  import opened Text
  import opened Hunks
  import opened Decoders
  import opened Parser
  import opened ParserSound

  /** A line as `print(line.rstrip('\n'))` puts it out. */
  function Printed(line: string): string {
    DropLf(line) + "\n"
  }

  function PrintedAll(lines: seq<string>): (r: seq<string>)
    ensures |r| == |lines|
  {
    seq(|lines|, i requires 0 <= i < |lines| => Printed(lines[i]))
  }

  function DumpHunk(h: Hunk): seq<string> {
    [HeadLine(h.startsrc, h.linessrc, h.starttgt, h.linestgt)] + PrintedAll(h.text)
  }

  function DumpHunks(hunks: seq<Hunk>, k: nat): seq<string>
    requires k <= |hunks|
    decreases |hunks| - k
  {
    if k == |hunks| then [] else DumpHunk(hunks[k]) + DumpHunks(hunks, k + 1)
  }

  function NameLines(source: string, target: string): seq<string> {
    ["--- " + source + "\n", "+++ " + target + "\n"]
  }

  function DumpPatch(p: Patch): seq<string>
    requires p.source.Some?
  {
    PrintedAll(p.header) + (NameLines(p.source.value, p.target) + DumpHunks(p.hunks, 0))
  }

  predicate AllNamed(items: seq<Patch>) {
    forall i :: 0 <= i < |items| ==> items[i].source.Some?
  }

  function Dump(items: seq<Patch>, k: nat): seq<string>
    requires k <= |items| && AllNamed(items)
    decreases |items| - k
  {
    if k == |items| then [] else DumpPatch(items[k]) + Dump(items, k + 1)
  }

  /** The hunk and the patch that a print can carry: no description, every line ended by `\n`. */
  function Reprinted(h: Hunk): Hunk {
    h.(text := PrintedAll(h.text), desc := "")
  }

  function AllReprinted(hunks: seq<Hunk>): (r: seq<Hunk>)
    ensures |r| == |hunks|
  {
    seq(|hunks|, i requires 0 <= i < |hunks| => Reprinted(hunks[i]))
  }

  /** `a` is the print of `b`, read again; the statistics of line ends are not compared. */
  predicate IsReprint(a: Patch, b: Patch) {
    && a.source == b.source && a.target == b.target && a.header == PrintedAll(b.header)
    && a.hunks == AllReprinted(b.hunks)
  }

  predicate AreReprints(as': seq<Patch>, bs: seq<Patch>) {
    |as'| == |bs| && forall i {:trigger IsReprint(as'[i], bs[i])} :: 0 <= i < |bs| ==> IsReprint(as'[i], bs[i])
  }

  // ----- one line of the print

  lemma PrintedBody(line: string)
    requires BodyLine(line)
    ensures BodyLine(Printed(line)) && Printed(line)[0] == line[0]
    ensures Chomp(Printed(line)[1..]) == Chomp(line[1..])
  {
    var d := DropLf(line);
    assert d != "" && d[0] == line[0];
    var tail := line[1..];
    var c := Chomp(tail);
    assert forall i :: |c| <= i < |tail| ==> IsEol(tail[i]);
    assert c != [] ==> c[|c| - 1] == tail[|c| - 1] == line[|c|];
    assert |c| <= |d| - 1;
    var printed := Printed(line)[1..];
    assert printed == d[1..] + "\n";
    assert forall i :: 0 <= i < |d| - 1 ==> d[1..][i] == tail[i];
    assert c <= printed;
    forall i | |c| <= i < |printed| ensures IsEol(printed[i]) {
      if i < |d| - 1 {
        assert printed[i] == tail[i];
      }
    }
    ChompUnique(printed, c);
  }

  lemma PrintedNoSource(line: string)
    requires !IsSource(line)
    ensures !IsSource(Printed(line))
  {
    var d := DropLf(line);
    assert |d| < 4 ==> Printed(line)[|d|] == '\n';
  }

  lemma {:induction false} PrintedSide(text: seq<string>, sign: char)
    requires KnownText(text) && sign in {'-', '+'}
    ensures Side(PrintedAll(text), sign) == Side(text, sign)
  {
    if text != [] {
      assert BodyLine(text[0]);
      PrintedBody(text[0]);
      assert PrintedAll(text)[1..] == PrintedAll(text[1..]);
      forall i | 0 <= i < |text[1..]| ensures BodyLine(text[1..][i]) {
        assert BodyLine(text[i + 1]);
      }
      PrintedSide(text[1..], sign);
    }
  }

  /** A print keeps what makes a hunk storable. */
  lemma ReprintedSealed(h: Hunk)
    requires Sealed(h)
    ensures Sealed(Reprinted(h))
  {
    var r := Reprinted(h);
    PrintedSide(h.text, '-');
    PrintedSide(h.text, '+');
    forall i | 0 <= i < |r.text| ensures BodyLine(r.text[i]) {
      assert BodyLine(h.text[i]);
      PrintedBody(h.text[i]);
    }
    forall k | 0 < k <= |r.text| - 1 ensures !Complete(r, k) {
      assert !Complete(h, k);
      assert r.text[..k] == PrintedAll(h.text[..k]);
      forall i | 0 <= i < k ensures BodyLine(h.text[..k][i]) {
        assert BodyLine(h.text[i]);
      }
      PrintedSide(h.text[..k], '-');
      PrintedSide(h.text[..k], '+');
    }
  }
}
