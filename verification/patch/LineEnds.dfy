/**
 The line ends of a rewritten file, for files of any mixture: what is copied is copied as it
 is, and what is written takes the line end of the lines read so far, if these agree on one.
 */
module LineEnds {
  import opened Text
  import opened Hunks
  import opened Rewriter
  import opened RewriterProofs

  /** The kinds of line ends among the first `n` lines of the file. */
  function KindsRead(src: seq<string>, n: nat): set<Eol> {
    set i | 0 <= i < |src| && i < n && EolOf(src[i]) != NoEol :: EolOf(src[i])
  }

  /** A line without sign, as it is written when these kinds have been read. */
  function Rendered(kinds: set<Eol>, text: string): string {
    if kinds == {Lf} then Chomp(text) + "\n"
    else if kinds == {CrLf} then Chomp(text) + "\r\n"
    else if kinds == {Cr} then Chomp(text) + "\r"
    else text
  }

  lemma KindIsSeen(src: seq<string>, n: nat, e: Eol)
    requires e != NoEol
    ensures e in KindsRead(src, n) <==> Seen(src, n, e)
  {}

  lemma OnlyKind(kinds: set<Eol>, e: Eol)
    requires NoEol !in kinds && e != NoEol
    ensures kinds == {e} <==> e in kinds && forall x :: x in {Lf, CrLf, Cr} && x != e ==> x !in kinds
  {
    if e in kinds && forall x :: x in {Lf, CrLf, Cr} && x != e ==> x !in kinds {
      forall x | x in kinds ensures x == e {
        assert x == Lf || x == CrLf || x == Cr;
        assert x in {Lf, CrLf, Cr};
      }
    }
  }

  /** The line end is taken from what was read, when exactly one kind was; otherwise the line stays as it is. */
  lemma WrittenExact(src: seq<string>, n: nat, text: string)
    ensures Written(src, n, text) == Rendered(KindsRead(src, n), text)
  {
    var kinds := KindsRead(src, n);
    KindIsSeen(src, n, Lf);
    KindIsSeen(src, n, CrLf);
    KindIsSeen(src, n, Cr);
    OnlyKind(kinds, Lf);
    OnlyKind(kinds, CrLf);
    OnlyKind(kinds, Cr);
  }

  /** A written line is the hunk's own line, or the same text with the one kind of line end read so far. */
  lemma WrittenLine(src: seq<string>, n: nat, text: string, e: Eol)
    ensures |KindsRead(src, n)| != 1 ==> Written(src, n, text) == text
    ensures KindsRead(src, n) == {e} ==>
              Chomp(Written(src, n, text)) == Chomp(text) && EolOf(Written(src, n, text)) == e
  {
    WrittenExact(src, n, text);
    if KindsRead(src, n) == {e} {
      assert e in KindsRead(src, n);
      ReplaceEol(text, e);
    } else if |KindsRead(src, n)| != 1 {
      assert |{Lf}| == |{CrLf}| == |{Cr}| == 1;
    }
  }

  // ----- a whole body

  /** How many lines of the file a line of a body reads. */
  function Reads(line: string): nat {
    if line != "" && line[0] == '+' then 0 else 1
  }

  /** The lines of a body that are written, each rendered with what has been read by then. */
  function Rendition(src: seq<string>, at: nat, text: seq<string>, k: nat): seq<string>
    requires k <= |text|
    decreases |text| - k
  {
    if k == |text| then []
    else RenderedLine(src, at, text[k]) + Rendition(src, at + Reads(text[k]), text, k + 1)
  }

  /** A deletion and a remark write nothing; any other line is rendered without its sign. */
  function RenderedLine(src: seq<string>, at: nat, line: string): seq<string> {
    if line == "" then [Rendered(KindsRead(src, at + 1), "")]
    else if line[0] == '-' || line[0] == '\\' then []
    else [Rendered(KindsRead(src, at + Reads(line)), line[1..])]
  }

  lemma ShownIsRendered(src: seq<string>, at: nat, line: string)
    ensures Shown(src, at, line) == RenderedLine(src, at, line) && After(at, line) == at + Reads(line)
  {
    WrittenExact(src, After(at, line), Unsigned(line));
  }

  lemma {:induction false} BodyIsRendition(src: seq<string>, at: nat, text: seq<string>, k: nat)
    requires k <= |text|
    ensures Body(src, at, text, k) == Rendition(src, at, text, k)
    decreases |text| - k
  {
    if k < |text| {
      BodyIsRendition(src, After(at, text[k]), text, k + 1);
      ShownIsRendered(src, at, text[k]);
    }
  }

  // ----- the whole file

  /** Where the lines of the file before the window go: as they are. `at` lines have been read, maybe too many. */
  function Verbatim(src: seq<string>, pos: nat, at: nat, hunks: seq<Hunk>, k: nat): seq<string>
    requires k <= |hunks| && Windows(hunks, k, pos, |src|)
    decreases |hunks| - k
  {
    WindowsBound(hunks, k, pos, |src|);
    if k == |hunks| then src[pos..]
    else
      Piece(src, pos, at, hunks[k]) + Verbatim(src, hunks[k].Last(), ReadAfter(at, hunks[k]), hunks, k + 1)
  }

  /** The lines up to a window as they are, and the body rendered. */
  function Piece(src: seq<string>, pos: nat, at: nat, h: Hunk): seq<string>
    requires pos <= h.Before() <= |src|
  {
    src[pos..h.Before()] + Rendition(src, ReadBefore(at, h), h.text, 0)
  }

  /** How many lines have been read when the body begins. */
  function ReadBefore(at: nat, h: Hunk): nat {
    if at < h.Before() then h.Before() else at
  }

  function ReadAfter(at: nat, h: Hunk): nat {
    ReadBefore(at, h) + h.linessrc + Marks(h.text, 0)
  }

  lemma CopiedVerbatim(src: seq<string>, pos: nat, end: nat)
    requires pos <= end <= |src|
    ensures Copied(src, pos, end) == src[pos..end]
  {
    forall i | 0 <= i < end - pos ensures Copied(src, pos, end)[i] == src[pos..end][i] {
      assert LineAt(src, pos + i) == src[pos + i];
    }
  }

  lemma StreamFrom(src: seq<string>, hunks: seq<Hunk>, k: nat, at: nat)
    requires k < |hunks|
    ensures Stream(src, at, hunks, k)
            == Copied(src, at, Start(at, hunks[k])) + Rendition(src, Start(at, hunks[k]), hunks[k].text, 0)
               + Stream(src, End(at, hunks[k]), hunks, k + 1)
  {
    BodyIsRendition(src, Start(at, hunks[k]), hunks[k].text, 0);
  }

  /** Reading too far, at the end of the file, copies nothing. */
  lemma NothingCopied(src: seq<string>, pos: nat, at: nat, h: Hunk)
    requires pos <= at && pos <= h.Before() <= |src| && (at > pos ==> h.Before() == pos)
    ensures Copied(src, at, Start(at, h)) == src[pos..h.Before()]
  {
    if at == pos {
      CopiedVerbatim(src, pos, h.Before());
    }
  }

  lemma {:induction false} StreamIsVerbatim(src: seq<string>, pos: nat, at: nat, hunks: seq<Hunk>, k: nat)
    requires k <= |hunks| && Windows(hunks, k, pos, |src|) && AllConsistent(hunks) && pos <= at
    requires MarksAtEnd(hunks, k, pos, |src|) && (at > pos ==> Gap(hunks, k, pos, |src|) == 0)
    ensures Stream(src, at, hunks, k) == Verbatim(src, pos, at, hunks, k)
    decreases |hunks| - k
  {
    WindowsBound(hunks, k, pos, |src|);
    if k < |hunks| {
      StepsOn(hunks, k, pos, at, |src|);
      StreamPiece(src, pos, at, hunks, k);
      VerbatimFrom(src, pos, at, hunks, k);
      StreamIsVerbatim(src, hunks[k].Last(), ReadAfter(at, hunks[k]), hunks, k + 1);
    }
  }

  lemma StreamPiece(src: seq<string>, pos: nat, at: nat, hunks: seq<Hunk>, k: nat)
    requires k < |hunks| && pos <= at && pos <= hunks[k].Before() <= |src| && (at > pos ==> hunks[k].Before() == pos)
    requires Start(at, hunks[k]) == ReadBefore(at, hunks[k]) && End(at, hunks[k]) == ReadAfter(at, hunks[k])
    ensures Stream(src, at, hunks, k)
            == Piece(src, pos, at, hunks[k]) + Stream(src, ReadAfter(at, hunks[k]), hunks, k + 1)
  {
    NothingCopied(src, pos, at, hunks[k]);
    StreamFrom(src, hunks, k, at);
  }

  lemma VerbatimFrom(src: seq<string>, pos: nat, at: nat, hunks: seq<Hunk>, k: nat)
    requires k < |hunks| && Windows(hunks, k, pos, |src|) && pos <= hunks[k].Before() <= hunks[k].Last() <= |src|
    requires Windows(hunks, k + 1, hunks[k].Last(), |src|)
    ensures Verbatim(src, pos, at, hunks, k)
            == Piece(src, pos, at, hunks[k]) + Verbatim(src, hunks[k].Last(), ReadAfter(at, hunks[k]), hunks, k + 1)
  {}

  lemma StepsOn(hunks: seq<Hunk>, k: nat, pos: nat, at: nat, n: nat)
    requires k < |hunks| && Windows(hunks, k, pos, n) && AllConsistent(hunks) && pos <= at
    requires MarksAtEnd(hunks, k, pos, n) && (at > pos ==> Gap(hunks, k, pos, n) == 0)
    ensures var h := hunks[k];
            && pos <= h.Before() <= h.Last() <= n && Windows(hunks, k + 1, h.Last(), n)
            && Start(at, h) == ReadBefore(at, h) && End(at, h) == ReadAfter(at, h) && h.Last() <= ReadAfter(at, h)
            && (at > pos ==> h.Before() == pos) && MarksAtEnd(hunks, k + 1, h.Last(), n)
            && (ReadAfter(at, h) > h.Last() ==> Gap(hunks, k + 1, h.Last(), n) == 0)
  {
    Geometry(hunks, k, pos, at, n);
    MarksStep(hunks, k, pos, n);
  }

  /**
   For every file, of whatever line ends: if no line outside the windows comes after a hunk with
   a `\` line, the lines outside the windows are those of the file, unchanged, and every line of
   a body is written as the lines read by then demand.
   */
  lemma FileIsVerbatim(src: seq<string>, hunks: seq<Hunk>)
    requires Windows(hunks, 0, 0, |src|) && AllConsistent(hunks) && MarksAtEnd(hunks, 0, 0, |src|)
    ensures Stream(src, 0, hunks, 0) == Verbatim(src, 0, 0, hunks, 0)
  {
    StreamIsVerbatim(src, 0, 0, hunks, 0);
  }
}
