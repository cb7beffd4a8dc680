/**
 The regular expressions of the parser as predicates and decoders over positions of a
 line, and the decimal numbers and names they read.
 */
module Decoders {
  import opened Options
  import opened Text

  // ----- decimal numbers

  predicate IsDigit(c: char) {
    '0' <= c <= '9'
  }

  function DigitValue(c: char): nat
    requires IsDigit(c)
  {
    c as int - '0' as int
  }

  function DigitChar(d: nat): (c: char)
    requires d < 10
    ensures IsDigit(c) && DigitValue(c) == d
  {
    (d + '0' as int) as char
  }

  predicate AllDigits(s: string) {
    forall i :: 0 <= i < |s| ==> IsDigit(s[i])
  }

  function Decimal(n: nat): (s: string)
    ensures s != "" && AllDigits(s)
  {
    if n < 10 then [DigitChar(n)] else Decimal(n / 10) + [DigitChar(n % 10)]
  }

  /** The first position from `i` on that is not a digit. */
  function DigitsEnd(s: string, i: nat): (e: nat)
    requires i <= |s|
    ensures i <= e <= |s|
    decreases |s| - i
  {
    if i < |s| && IsDigit(s[i]) then DigitsEnd(s, i + 1) else i
  }

  /** The number the digits between two positions spell. */
  function Value(s: string, i: nat, e: nat): nat
    requires i <= e <= |s|
  {
    if i == e || !IsDigit(s[e - 1]) then 0 else Value(s, i, e - 1) * 10 + DigitValue(s[e - 1])
  }

  datatype Group = Group(value: nat, end: nat)

  /** `\d+` at a position. */
  function Number(s: string, i: nat): (r: Option<Group>)
    ensures r.Some? ==> r.value.end <= |s|
  {
    if i >= |s| || !IsDigit(s[i]) then None
    else Some(Group(Value(s, i, DigitsEnd(s, i)), DigitsEnd(s, i)))
  }

  predicate At(s: string, i: nat, c: char) {
    i < |s| && s[i] == c
  }

  /** `(,(\d+))?`, with the value 1 when the group is absent. */
  function Count(s: string, i: nat): Group {
    if At(s, i, ',') && Number(s, i + 1).Some? then Number(s, i + 1).value else Group(1, i)
  }

  predicate Spells(s: string, i: nat, word: string) {
    i + |word| <= |s| && s[i..i + |word|] == word
  }

  lemma {:induction false} ValueOfDecimal(s: string, i: nat, n: nat)
    requires Spells(s, i, Decimal(n))
    ensures Value(s, i, i + |Decimal(n)|) == n
  {
    var d := Decimal(n);
    var e := i + |d|;
    assert s[i..e] == d && s[e - 1] == s[i..e][|d| - 1] == d[|d| - 1];
    if n >= 10 {
      assert s[i..e - 1] == s[i..e][..|d| - 1] == Decimal(n / 10);
      ValueOfDecimal(s, i, n / 10);
    }
  }

  lemma {:induction false} DigitsRun(s: string, i: nat, e: nat)
    requires i <= e <= |s| && (forall k :: i <= k < e ==> IsDigit(s[k])) && (e < |s| ==> !IsDigit(s[e]))
    ensures DigitsEnd(s, i) == e
    decreases e - i
  {
    if i < e {
      DigitsRun(s, i + 1, e);
    }
  }

  lemma NumberReads(s: string, i: nat, n: nat)
    requires Spells(s, i, Decimal(n))
    requires i + |Decimal(n)| < |s| ==> !IsDigit(s[i + |Decimal(n)|])
    ensures Number(s, i) == Some(Group(n, i + |Decimal(n)|))
  {
    var d := Decimal(n);
    forall k | i <= k < i + |d| ensures IsDigit(s[k]) {
      assert s[k] == s[i..i + |d|][k - i];
    }
    DigitsRun(s, i, i + |d|);
    ValueOfDecimal(s, i, n);
  }

  // ----- the start line of a hunk

  datatype Head = Head(startsrc: nat, linessrc: nat, starttgt: nat, linestgt: nat, desc: string)

  function IndexOf(s: string, i: nat, c: char): (e: nat)
    requires i <= |s|
    ensures i <= e <= |s| && (e < |s| ==> s[e] == c)
    ensures forall k :: i <= k < e ==> s[k] != c
    decreases |s| - i
  {
    if i == |s| || s[i] == c then i else IndexOf(s, i + 1, c)
  }

  predicate IsSpace(c: char) {
    c == ' ' || c == '\t' || c == '\n' || c == '\r' || c as int == 11 || c as int == 12
  }

  /** The end of `s[i..e]` without trailing white space. */
  function TrimEnd(s: string, i: nat, e: nat): (r: nat)
    requires i <= e <= |s|
    ensures i <= r <= e && (r == i || !IsSpace(s[r - 1]))
    decreases e
  {
    if i < e && IsSpace(s[e - 1]) then TrimEnd(s, i, e - 1) else e
  }

  /** The start of `s[i..e]` without leading white space. */
  function TrimStart(s: string, i: nat, e: nat): (r: nat)
    requires i <= e <= |s|
    ensures i <= r <= e && (r == e || !IsSpace(s[r]))
    decreases e - i
  {
    if i < e && IsSpace(s[i]) then TrimStart(s, i + 1, e) else i
  }

  /** `(.*)` without its first character, stripped on the right. */
  function Desc(s: string, i: nat): string
    requires i <= |s|
  {
    var e := IndexOf(s, i, '\n');
    if i == e then "" else s[i + 1..TrimEnd(s, i + 1, e)]
  }

  /** One side of the start line: a start and a count, which is 1 when absent. */
  datatype Range = Range(start: nat, count: nat, end: nat)

  function RangeAt(s: string, i: nat): (r: Option<Range>) {
    match Number(s, i)
    case None => None
    case Some(start) => Some(Range(start.value, Count(s, start.end).value, Count(s, start.end).end))
  }

  /** `^@@ -(\d+)(,(\d+))? \+(\d+)(,(\d+))? @@(.*)` */
  function HunkHead(line: string): Option<Head> {
    if !(At(line, 0, '@') && At(line, 1, '@') && At(line, 2, ' ') && At(line, 3, '-')) then None
    else
      match RangeAt(line, 4)
      case None => None
      case Some(src) =>
        if !(At(line, src.end, ' ') && At(line, src.end + 1, '+')) then None
        else HeadBehind(line, src, RangeAt(line, src.end + 2))
  }

  /** The start line from its second range on. */
  function HeadBehind(line: string, src: Range, tgt: Option<Range>): Option<Head> {
    if tgt.None? then None
    else
      var end := tgt.value.end;
      if !(At(line, end, ' ') && At(line, end + 1, '@') && At(line, end + 2, '@')) then None
      else Some(Head(src.start, src.count, tgt.value.start, tgt.value.count, Desc(line, end + 3)))
  }

  lemma CountReads(s: string, i: nat, count: nat)
    requires At(s, i, ',') && Spells(s, i + 1, Decimal(count)) && At(s, i + 1 + |Decimal(count)|, ' ')
    ensures Count(s, i) == Group(count, i + 1 + |Decimal(count)|)
  {
    NumberReads(s, i + 1, count);
  }

  lemma RangeReads(s: string, i: nat, e: nat, start: nat, count: nat)
    requires Spells(s, i, Decimal(start)) && e == i + |Decimal(start)| && At(s, e, ',')
    requires Spells(s, e + 1, Decimal(count)) && At(s, e + 1 + |Decimal(count)|, ' ')
    ensures RangeAt(s, i) == Some(Range(start, count, e + 1 + |Decimal(count)|))
  {
    NumberReads(s, i, start);
    CountReads(s, e, count);
  }

  function RangeText(start: nat, count: nat): string {
    Decimal(start) + "," + Decimal(count)
  }

  /** The start line as the printer writes it. */
  function HeadLine(startsrc: nat, linessrc: nat, starttgt: nat, linestgt: nat): string {
    "@@ -" + RangeText(startsrc, linessrc) + " +" + RangeText(starttgt, linestgt) + " @@\n"
  }

  lemma SpelledIn(pre: string, a: string, b: string, post: string)
    requires post != "" && post[0] == ' '
    ensures var s := pre + (a + "," + b) + post;
            var e := |pre| + |a|;
            Spells(s, |pre|, a) && At(s, e, ',') && Spells(s, e + 1, b) && At(s, e + 1 + |b|, ' ')
  {
    var mid := a + "," + b;
    var s := pre + mid + post;
    assert forall k :: 0 <= k < |mid| ==> s[|pre| + k] == mid[k];
    assert s[|pre| + |mid|] == post[0];
  }

  lemma RangeIn(pre: string, a: string, b: string, post: string, start: nat, count: nat)
    requires a == Decimal(start) && b == Decimal(count) && post != "" && post[0] == ' '
    ensures RangeAt(pre + (a + "," + b) + post, |pre|) == Some(Range(start, count, |pre| + |a| + 1 + |b|))
  {
    var s := pre + (a + "," + b) + post;
    SpelledIn(pre, a, b, post);
    RangeSpelled(s, |pre|, a, b, start, count);
  }

  lemma RangeSpelled(s: string, i: nat, a: string, b: string, start: nat, count: nat)
    requires a == Decimal(start) && b == Decimal(count) && Spells(s, i, a) && At(s, i + |a|, ',')
    requires Spells(s, i + |a| + 1, b) && At(s, i + |a| + 1 + |b|, ' ')
    ensures RangeAt(s, i) == Some(Range(start, count, i + |a| + 1 + |b|))
  {
    RangeReads(s, i, i + |a|, start, count);
  }

  lemma RangeTextReads(pre: string, start: nat, count: nat, post: string)
    requires post != "" && post[0] == ' '
    ensures RangeAt(pre + RangeText(start, count) + post, |pre|)
            == Some(Range(start, count, |pre| + |RangeText(start, count)|))
  {
    RangeIn(pre, Decimal(start), Decimal(count), post, start, count);
  }

  lemma HeadAt(line: string, src: Range, tgt: Range)
    requires At(line, 0, '@') && At(line, 1, '@') && At(line, 2, ' ') && At(line, 3, '-')
    requires RangeAt(line, 4) == Some(src) && At(line, src.end, ' ') && At(line, src.end + 1, '+')
    requires RangeAt(line, src.end + 2) == Some(tgt)
    requires At(line, tgt.end, ' ') && At(line, tgt.end + 1, '@') && At(line, tgt.end + 2, '@')
             && At(line, tgt.end + 3, '\n')
    ensures HunkHead(line) == Some(Head(src.start, src.count, tgt.start, tgt.count, ""))
  {}

  lemma Framed(src: string, tgt: string)
    ensures var line := "@@ -" + src + " +" + tgt + " @@\n";
            var i, e := 4 + |src|, 6 + |src| + |tgt|;
            && line == "@@ -" + src + (" +" + tgt + " @@\n")
            && At(line, 0, '@') && At(line, 1, '@') && At(line, 2, ' ') && At(line, 3, '-')
            && At(line, i, ' ') && At(line, i + 1, '+')
            && At(line, e, ' ') && At(line, e + 1, '@') && At(line, e + 2, '@') && At(line, e + 3, '\n')
  {
    var line := "@@ -" + src + " +" + tgt + " @@\n";
    var front := "@@ -" + src + " +" + tgt;
    assert front[4 + |src|] == ' ' && front[5 + |src|] == '+';
    var tail := " @@\n";
    assert line == front + tail && tail[0] == ' ' && tail[1] == '@' && tail[2] == '@' && tail[3] == '\n';
    assert forall k :: 0 <= k < 4 ==> line[|front| + k] == tail[k];
  }

  /** Reading a printed start line gives the four numbers back. */
  lemma HeadReads(startsrc: nat, linessrc: nat, starttgt: nat, linestgt: nat)
    ensures HunkHead(HeadLine(startsrc, linessrc, starttgt, linestgt))
            == Some(Head(startsrc, linessrc, starttgt, linestgt, ""))
  {
    var src, tgt := RangeText(startsrc, linessrc), RangeText(starttgt, linestgt);
    Framed(src, tgt);
    RangeTextReads("@@ -", startsrc, linessrc, " +" + tgt + " @@\n");
    RangeTextReads("@@ -" + src + " +", starttgt, linestgt, " @@\n");
    HeadAt(HeadLine(startsrc, linessrc, starttgt, linestgt),
           Range(startsrc, linessrc, 4 + |src|), Range(starttgt, linestgt, 6 + |src| + |tgt|));
  }

  // ----- file names

  predicate IsSource(line: string) {
    At(line, 0, '-') && At(line, 1, '-') && At(line, 2, '-') && At(line, 3, ' ')
  }

  predicate IsTarget(line: string) {
    At(line, 0, '+') && At(line, 1, '+') && At(line, 2, '+') && At(line, 3, ' ')
  }

  /** `([^\t]+)` after the four characters of the marker, stripped. */
  function Name(line: string): Option<string>
    requires |line| >= 4
  {
    var e := IndexOf(line, 4, '\t');
    if e == 4 then None
    else
      var r := TrimEnd(line, 4, e);
      Some(line[TrimStart(line, 4, r)..r])
  }

  predicate IsTrimmed(name: string) {
    name == "" || (!IsSpace(name[0]) && !IsSpace(name[|name| - 1]))
  }

  /** Names read by the parser are trimmed and free of tabs, and of line feeds when the line is. */
  lemma NameIsTrimmed(line: string)
    requires |line| >= 4 && Name(line).Some?
    ensures IsTrimmed(Name(line).value) && '\t' !in Name(line).value
    ensures StreamLine(line) ==> '\n' !in Name(line).value
  {
    var e := IndexOf(line, 4, '\t');
    var r := TrimEnd(line, 4, e);
    var l := TrimStart(line, 4, r);
    var name := line[l..r];
    assert forall i :: 0 <= i < |name| ==> name[i] == line[l + i] && name[i] != '\t';
    if StreamLine(line) {
      forall i | 0 <= i < |name| ensures name[i] != '\n' {
        assert name[|name| - 1] == line[r - 1];
      }
    }
  }

  /** Reading a printed name line gives the name back. */
  lemma NameReads(marker: string, name: string)
    requires |marker| == 4 && IsTrimmed(name) && '\t' !in name
    ensures Name(marker + name + "\n") == Some(name)
  {
    var line, n := marker + name + "\n", |name|;
    assert line[4..4 + n] == name;
    assert forall i :: 4 <= i < 4 + n ==> line[i] == name[i - 4];
    assert line[4 + n] == '\n';
    assert IndexOf(line, 4, '\t') == 5 + n;
    assert TrimEnd(line, 4, 5 + n) == TrimEnd(line, 4, 4 + n) == 4 + n;
    assert TrimStart(line, 4, 4 + n) == 4;
  }

  /** The markers of the two name lines. */
  lemma MarkersExact(line: string)
    ensures IsSource(line) <==> |line| >= 4 && line[..4] == "--- "
    ensures IsTarget(line) <==> |line| >= 4 && line[..4] == "+++ "
  {
    if |line| >= 4 {
      assert line[..4] == [line[0], line[1], line[2], line[3]];
    }
  }

  lemma {:induction false} TrimsEnd(s: string, i: nat, e: nat)
    requires i <= e <= |s|
    ensures forall k :: TrimEnd(s, i, e) <= k < e ==> IsSpace(s[k])
    decreases e
  {
    if i < e && IsSpace(s[e - 1]) {
      TrimsEnd(s, i, e - 1);
    }
  }

  lemma {:induction false} TrimsStart(s: string, i: nat, e: nat)
    requires i <= e <= |s|
    ensures forall k :: i <= k < TrimStart(s, i, e) ==> IsSpace(s[k])
    decreases e - i
  {
    if i < e && IsSpace(s[i]) {
      TrimsStart(s, i + 1, e);
    }
  }

  /**
   Where the name stands: behind the marker, before the first tab or the end of the line, and
   with nothing but white space around it.
   */
  ghost predicate NameStands(line: string, tab: nat, l: nat, r: nat) {
    && 4 <= l <= r <= tab <= |line| && (tab < |line| ==> line[tab] == '\t')
    && (forall k :: 4 <= k < tab ==> line[k] != '\t')
    && (forall k :: 4 <= k < l || r <= k < tab ==> IsSpace(line[k]))
    && (l < r ==> !IsSpace(line[l]) && !IsSpace(line[r - 1]))
  }

  /** The name is what stands there, and there is none only when nothing does. */
  lemma NameExact(line: string) returns (tab: nat, l: nat, r: nat)
    requires |line| >= 4
    ensures NameStands(line, tab, l, r)
    ensures Name(line) == if tab == 4 then None else Some(line[l..r])
  {
    tab := IndexOf(line, 4, '\t');
    r := TrimEnd(line, 4, tab);
    l := TrimStart(line, 4, r);
    TrimsEnd(line, 4, tab);
    TrimsStart(line, 4, r);
  }
}
