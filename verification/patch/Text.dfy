/**
 Lines of text as `readline` hands them out, with the line ends `\n`, `\r\n` and `\r`.
 */
module Text {

  datatype Eol = NoEol | Lf | CrLf | Cr

  predicate IsEol(c: char) {
    c == '\n' || c == '\r'
  }

  /** The line without any trailing `\r` or `\n`. */
  function Chomp(s: string): (r: string)
    ensures r <= s
    ensures r == [] || !IsEol(r[|r| - 1])
    ensures forall i :: |r| <= i < |s| ==> IsEol(s[i])
  {
    if s != [] && IsEol(s[|s| - 1]) then Chomp(s[..|s| - 1]) else s
  }

  /** Which line end a line carries; `\r\n` is tested before its suffix `\n`. */
  function EolOf(s: string): Eol {
    if |s| >= 2 && s[|s| - 2] == '\r' && s[|s| - 1] == '\n' then CrLf
    else if s != [] && s[|s| - 1] == '\n' then Lf
    else if s != [] && s[|s| - 1] == '\r' then Cr
    else NoEol
  }

  function EolText(e: Eol): string {
    match e
    case NoEol => ""
    case Lf => "\n"
    case CrLf => "\r\n"
    case Cr => "\r"
  }

  function Chomped(lines: seq<string>): (r: seq<string>)
    ensures |r| == |lines|
  {
    seq(|lines|, i requires 0 <= i < |lines| => Chomp(lines[i]))
  }

  lemma ChompedConcat(a: seq<string>, b: seq<string>)
    ensures Chomped(a + b) == Chomped(a) + Chomped(b)
  {}

  lemma ChompedSlice(lines: seq<string>, lo: nat, hi: nat)
    requires lo <= hi <= |lines|
    ensures Chomped(lines[lo..hi]) == Chomped(lines)[lo..hi]
  {
    var a, b, c := lines[..lo], lines[lo..hi], lines[hi..];
    assert lines == a + b + c;
    ChompedConcat(a + b, c);
    ChompedConcat(a, b);
  }

  /** Only the part before the trailing line ends decides what is left after chomping. */
  lemma ChompUnique(s: string, r: string)
    requires r <= s
    requires r == [] || !IsEol(r[|r| - 1])
    requires forall i :: |r| <= i < |s| ==> IsEol(s[i])
    ensures Chomp(s) == r
  {
    var c := Chomp(s);
    assert r != [] ==> r[|r| - 1] == s[|r| - 1];
    assert c != [] ==> c[|c| - 1] == s[|c| - 1];
  }

  /** Replacing the line end keeps the text of the line and gives it exactly that line end. */
  lemma ReplaceEol(s: string, e: Eol)
    ensures Chomp(Chomp(s) + EolText(e)) == Chomp(s)
    ensures EolOf(Chomp(s) + EolText(e)) == e
  {
    ChompUnique(Chomp(s) + EolText(e), Chomp(s));
  }

  /** Drops trailing `\n` only, as the printer does. */
  function DropLf(s: string): (r: string)
    ensures r <= s
    ensures r == [] || r[|r| - 1] != '\n'
    ensures forall i :: |r| <= i < |s| ==> s[i] == '\n'
  {
    if s != [] && s[|s| - 1] == '\n' then DropLf(s[..|s| - 1]) else s
  }

  lemma DropLfUnique(s: string, r: string)
    requires r <= s
    requires r == [] || r[|r| - 1] != '\n'
    requires forall i :: |r| <= i < |s| ==> s[i] == '\n'
    ensures DropLf(s) == r
  {
    var c := DropLf(s);
    assert r != [] ==> r[|r| - 1] == s[|r| - 1];
    assert c != [] ==> c[|c| - 1] == s[|c| - 1];
  }

  /** A line as a byte stream can deliver it: a line feed can only stand at its end. */
  predicate StreamLine(s: string) {
    s != [] && forall i :: 0 <= i < |s| - 1 ==> s[i] != '\n'
  }

  lemma Assoc<T>(a: seq<T>, b: seq<T>, c: seq<T>)
    ensures a + (b + c) == (a + b) + c
  {}
}
