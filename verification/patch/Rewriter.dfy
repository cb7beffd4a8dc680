/**
 The generator that rewrites a file line by line while it walks over the hunks.
 Reading past the end of the file yields empty strings, as `readline` does.
 */
module Rewriter {
  import opened Text
  import opened Hunks

  function LineAt(src: seq<string>, pos: nat): string {
    if pos < |src| then src[pos] else ""
  }

  /** One of the first `n` lines of the file ends in `e`. */
  ghost predicate Seen(src: seq<string>, n: nat, e: Eol) {
    exists i :: 0 <= i < n && i < |src| && EolOf(src[i]) == e
  }

  /** The only kind of line end among the first `n` lines, or NoEol when none or several occur. */
  ghost function Detected(src: seq<string>, n: nat): Eol {
    var lf, crlf, cr := Seen(src, n, Lf), Seen(src, n, CrLf), Seen(src, n, Cr);
    if lf && !crlf && !cr then Lf
    else if crlf && !lf && !cr then CrLf
    else if cr && !lf && !crlf then Cr
    else NoEol
  }

  /** How a line of a hunk is written once `n` lines of the file have been read. */
  ghost function Written(src: seq<string>, n: nat, line: string): string {
    if Detected(src, n) == NoEol then line else Chomp(line) + EolText(Detected(src, n))
  }

  predicate Consumes(line: string) {
    line == "" || line[0] != '+'
  }

  predicate Skips(line: string) {
    line != "" && (line[0] == '-' || line[0] == '\\')
  }

  /** How many lines of the file a hunk body makes the generator read, from index `k` on. */
  function Consumed(text: seq<string>, k: nat): nat
    requires k <= |text|
    decreases |text| - k
  {
    if k == |text| then 0 else (if Consumes(text[k]) then 1 else 0) + Consumed(text, k + 1)
  }

  function Unsigned(line: string): string {
    if line == "" then "" else line[1..]
  }

  /** What the generator yields for a hunk body, from index `k` on, after `pos` lines read. */
  ghost function Body(src: seq<string>, pos: nat, text: seq<string>, k: nat): seq<string>
    requires k <= |text|
    decreases |text| - k
  {
    if k == |text| then [] else Shown(src, pos, text[k]) + Body(src, After(pos, text[k]), text, k + 1)
  }

  function After(pos: nat, line: string): nat {
    if Consumes(line) then pos + 1 else pos
  }

  ghost function Shown(src: seq<string>, pos: nat, line: string): seq<string> {
    if Skips(line) then [] else [Written(src, After(pos, line), Unsigned(line))]
  }

  function Copied(src: seq<string>, pos: nat, end: nat): seq<string>
    requires pos <= end
  {
    seq(end - pos, i requires 0 <= i => LineAt(src, pos + i))
  }

  function Start(pos: nat, h: Hunk): nat {
    if pos + 1 < h.startsrc then h.startsrc - 1 else pos
  }

  function End(pos: nat, h: Hunk): nat {
    Start(pos, h) + Consumed(h.text, 0)
  }

  /** Everything the generator yields from hunk `k` on, after it has read `pos` lines. */
  ghost function Stream(src: seq<string>, pos: nat, hunks: seq<Hunk>, k: nat): seq<string>
    requires k <= |hunks|
    decreases |hunks| - k
  {
    if k == |hunks| then (if pos <= |src| then src[pos..] else [])
    else
      Copied(src, pos, Start(pos, hunks[k])) + Body(src, Start(pos, hunks[k]), hunks[k].text, 0)
      + Stream(src, End(pos, hunks[k]), hunks, k + 1)
  }

  /** The dictionary of line ends seen so far. */
  datatype LineEnds = LineEnds(lf: nat, crlf: nat, cr: nat) {
    function Kinds(): nat {
      (if lf != 0 then 1 else 0) + (if crlf != 0 then 1 else 0) + (if cr != 0 then 1 else 0)
    }
  }

  ghost predicate Counts(src: seq<string>, n: nat, ends: LineEnds) {
    && (ends.lf != 0 <==> Seen(src, n, Lf))
    && (ends.crlf != 0 <==> Seen(src, n, CrLf))
    && (ends.cr != 0 <==> Seen(src, n, Cr))
  }

  /** Reads one line and counts its line end. */
  method GetLine(src: seq<string>, pos: nat, ends: LineEnds) returns (line: string, ends': LineEnds)
    requires Counts(src, pos, ends)
    ensures line == LineAt(src, pos) && Counts(src, pos + 1, ends')
  {
    line, ends' := if pos < |src| then src[pos] else "", ends;
    match EolOf(line) {
      case CrLf => ends' := ends.(crlf := ends.crlf + 1);
      case Lf => ends' := ends.(lf := ends.lf + 1);
      case Cr => ends' := ends.(cr := ends.cr + 1);
      case NoEol =>
    }
    assert forall e :: Seen(src, pos, e) ==> Seen(src, pos + 1, e);
    assert pos < |src| ==> Seen(src, pos + 1, EolOf(src[pos]));
  }

  /** Passes on the lines before a hunk. */
  method CopyUpTo(src: seq<string>, pos: nat, h: Hunk, ends: LineEnds)
    returns (out: seq<string>, ends': LineEnds)
    requires Counts(src, pos, ends)
    ensures out == Copied(src, pos, Start(pos, h)) && Counts(src, Start(pos, h), ends')
  {
    out, ends' := [], ends;
    var srclineno := pos + 1;
    while srclineno < h.startsrc
      invariant pos < srclineno <= Start(pos, h) + 1
      invariant Counts(src, srclineno - 1, ends')
      invariant out == Copied(src, pos, srclineno - 1)
    {
      var line;
      line, ends' := GetLine(src, srclineno - 1, ends');
      out := out + [line];
      srclineno := srclineno + 1;
    }
  }

  /** Writes the target side of one body while it reads past the source side. */
  method WriteBody(src: seq<string>, pos: nat, text: seq<string>, ends: LineEnds)
    returns (out: seq<string>, ends': LineEnds)
    requires Counts(src, pos, ends)
    ensures out == Body(src, pos, text, 0) && Counts(src, pos + Consumed(text, 0), ends')
  {
    out, ends' := [], ends;
    var read: nat := pos;
    for k := 0 to |text|
      invariant Counts(src, read, ends')
      invariant pos + Consumed(text, 0) == read + Consumed(text, k)
      invariant out + Body(src, read, text, k) == Body(src, pos, text, 0)
    {
      var hline := text[k];
      Assoc(out, Shown(src, read, hline), Body(src, After(read, hline), text, k + 1));
      var ignored;
      if Skips(hline) {
        assert out + Shown(src, read, hline) == out;
        ignored, ends' := GetLine(src, read, ends');
        read := read + 1;
        continue;
      }
      if Consumes(hline) {
        ignored, ends' := GetLine(src, read, ends');
        read := read + 1;
      }
      var line2write := Unsigned(hline);
      if ends'.Kinds() == 1 {
        var newline := if ends'.lf != 0 then "\n" else if ends'.crlf != 0 then "\r\n" else "\r";
        out := out + [Chomp(line2write) + newline];
      } else {
        out := out + [line2write];
      }
    }
  }

  /** The generator, run to its end: all it yields. */
  method PatchStream(src: seq<string>, hunks: seq<Hunk>) returns (out: seq<string>)
    ensures out == Stream(src, 0, hunks, 0)
  {
    out := [];
    var pos: nat, ends := 0, LineEnds(0, 0, 0);
    for hno := 0 to |hunks|
      invariant Counts(src, pos, ends)
      invariant out + Stream(src, pos, hunks, hno) == Stream(src, 0, hunks, 0)
    {
      var h := hunks[hno];
      ghost var later := Stream(src, End(pos, h), hunks, hno + 1);
      Assoc(out, Copied(src, pos, Start(pos, h)) + Body(src, Start(pos, h), h.text, 0), later);
      Assoc(out, Copied(src, pos, Start(pos, h)), Body(src, Start(pos, h), h.text, 0));
      var copied, body;
      copied, ends := CopyUpTo(src, pos, h, ends);
      body, ends := WriteBody(src, Start(pos, h), h.text, ends);
      pos := End(pos, h);
      out := out + copied + body;
    }
    out := out + (if pos <= |src| then src[pos..] else []);
  }
}
