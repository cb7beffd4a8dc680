/**
 The start lines of hunks in all their forms: which lines are start lines, and what they
 declare. A count may be left out, and is 1 then (POSIX.1-2008, utility `diff`, section
 "Diff -u or -U Output Format").
 */
module StartLines {
  import opened Options
  import opened Text
  import opened Hunks
  import opened Decoders
  import opened Parser
  import opened ParserSound
  import opened Dumper
  import opened RoundTrip

  // ----- digits

  predicate Digits(s: string) {
    s != "" && AllDigits(s)
  }

  /** The number the first `n` characters of a string of digits spell, leading zeros included. */
  function Prefix(s: string, n: nat): nat
    requires n <= |s| && AllDigits(s)
  {
    if n == 0 then 0 else Prefix(s, n - 1) * 10 + DigitValue(s[n - 1])
  }

  function NumberOf(s: string): nat
    requires AllDigits(s)
  {
    Prefix(s, |s|)
  }

  lemma {:induction false} PrefixSame(a: string, b: string, n: nat)
    requires n <= |a| && n <= |b| && AllDigits(a) && AllDigits(b) && forall k :: 0 <= k < n ==> a[k] == b[k]
    ensures Prefix(a, n) == Prefix(b, n)
  {
    if n > 0 {
      PrefixSame(a, b, n - 1);
    }
  }

  lemma {:induction false} NumberOfDecimal(n: nat)
    ensures Digits(Decimal(n)) && NumberOf(Decimal(n)) == n
  {
    var d := Decimal(n);
    assert Prefix(d, 0) == 0;
    if n >= 10 {
      NumberOfDecimal(n / 10);
      PrefixSame(d, Decimal(n / 10), |d| - 1);
    }
  }

  /** The word stands in the line at position `i`. */
  predicate Stands(s: string, i: nat, word: string) {
    i + |word| <= |s| && forall k {:trigger word[k]} :: 0 <= k < |word| ==> s[i + k] == word[k]
  }

  lemma StandsParts(s: string, i: nat, a: string, b: string)
    requires Stands(s, i, a + b)
    ensures Stands(s, i, a) && Stands(s, i + |a|, b)
  {
    forall k | 0 <= k < |a| ensures s[i + k] == a[k] {
      assert (a + b)[k] == a[k];
    }
    forall k | 0 <= k < |b| ensures s[i + |a| + k] == b[k] {
      assert (a + b)[|a| + k] == b[k];
    }
  }

  lemma {:induction false} ValueIs(s: string, i: nat, d: string, n: nat)
    requires Stands(s, i, d) && AllDigits(d) && n <= |d|
    ensures Value(s, i, i + n) == Prefix(d, n)
  {
    if n > 0 {
      assert s[i + (n - 1)] == d[n - 1];
      ValueIs(s, i, d, n - 1);
    }
  }

  lemma DigitsEndIs(s: string, i: nat, d: string)
    requires Stands(s, i, d) && AllDigits(d) && (i + |d| < |s| ==> !IsDigit(s[i + |d|]))
    ensures DigitsEnd(s, i) == i + |d|
  {
    forall k | i <= k < i + |d| ensures IsDigit(s[k]) {
      assert s[i + (k - i)] == d[k - i];
    }
    DigitsRun(s, i, i + |d|);
  }

  lemma NumberAt(s: string, i: nat, d: string)
    requires Stands(s, i, d) && Digits(d) && (i + |d| < |s| ==> !IsDigit(s[i + |d|]))
    ensures Number(s, i) == Some(Group(NumberOf(d), i + |d|))
  {
    DigitsEndIs(s, i, d);
    ValueIs(s, i, d, |d|);
    assert s[i + 0] == d[0];
  }

  lemma {:induction false} DigitsEndAll(s: string, i: nat)
    requires i <= |s|
    ensures forall k :: i <= k < DigitsEnd(s, i) ==> IsDigit(s[k])
    ensures DigitsEnd(s, i) < |s| ==> !IsDigit(s[DigitsEnd(s, i)])
    decreases |s| - i
  {
    if i < |s| && IsDigit(s[i]) {
      DigitsEndAll(s, i + 1);
    }
  }

  // ----- one side

  /** A start, and a count that may be left out. */
  datatype Extent = Extent(start: string, count: Option<string>)

  predicate Spelt(r: Extent) {
    Digits(r.start) && (r.count.Some? ==> Digits(r.count.value))
  }

  function ExtentText(r: Extent): string {
    match r.count
    case None => r.start
    case Some(count) => r.start + "," + count
  }

  function Declared(r: Extent): nat
    requires Spelt(r)
  {
    match r.count
    case None => 1
    case Some(count) => NumberOf(count)
  }

  lemma ExtentAt(s: string, i: nat, r: Extent)
    requires Spelt(r) && Stands(s, i, ExtentText(r)) && At(s, i + |ExtentText(r)|, ' ')
    ensures RangeAt(s, i) == Some(Range(NumberOf(r.start), Declared(r), i + |ExtentText(r)|))
  {
    match r.count
    case None => NumberAt(s, i, r.start);
    case Some(count) =>
      var e := i + |r.start|;
      StandsParts(s, i, r.start + ",", count);
      StandsParts(s, i, r.start, ",");
      assert s[e + 0] == ","[0];
      NumberAt(s, i, r.start);
      NumberAt(s, e + 1, count);
  }

  /** Whatever is read as one side is the text of a side. */
  lemma ExtentRead(s: string, i: nat) returns (r: Extent)
    requires i <= |s| && RangeAt(s, i).Some?
    ensures Spelt(r) && i <= RangeAt(s, i).value.end <= |s|
    ensures s[i..RangeAt(s, i).value.end] == ExtentText(r)
  {
    DigitsEndAll(s, i);
    var e := DigitsEnd(s, i);
    if At(s, e, ',') && Number(s, e + 1).Some? {
      DigitsEndAll(s, e + 1);
      var f := DigitsEnd(s, e + 1);
      r := Extent(s[i..e], Some(s[e + 1..f]));
      assert s[i..f] == s[i..e] + "," + s[e + 1..f];
    } else {
      r := Extent(s[i..e], None);
    }
  }

  // ----- the whole line

  function LineText(src: Extent, tgt: Extent, rest: string): string {
    "@@ -" + ExtentText(src) + " +" + ExtentText(tgt) + " @@" + rest
  }

  predicate Frames(line: string, i: nat, j: nat) {
    && At(line, 0, '@') && At(line, 1, '@') && At(line, 2, ' ') && At(line, 3, '-')
    && At(line, i, ' ') && At(line, i + 1, '+') && At(line, j, ' ') && At(line, j + 1, '@') && At(line, j + 2, '@')
  }

  /** Where the parts of a start line stand. */
  predicate Shaped(line: string, a: string, b: string, rest: string) {
    && Frames(line, 4 + |a|, 6 + |a| + |b|) && Stands(line, 4, a) && Stands(line, 6 + |a|, b)
    && |line| == 9 + |a| + |b| + |rest| && Stands(line, 9 + |a| + |b|, rest)
  }

  lemma TextIsShaped(a: string, b: string, rest: string)
    ensures Shaped("@@ -" + a + " +" + b + " @@" + rest, a, b, rest)
  {
    var front := "@@ -" + a + " +" + b + " @@";
    FrontIsShaped(front + rest, front, a, b, rest);
  }

  lemma FrontIsShaped(line: string, front: string, a: string, b: string, rest: string)
    requires line == front + rest && front == "@@ -" + a + " +" + b + " @@"
    ensures Shaped(line, a, b, rest)
  {
    BothStand(front, rest);
    PartsStand(line, a, b);
    FramesStand(line, 4 + |a|, 6 + |a| + |b|);
  }

  lemma BothStand(a: string, b: string)
    ensures Stands(a + b, 0, a) && Stands(a + b, |a|, b)
  {}

  lemma PartsStand(line: string, a: string, b: string)
    requires Stands(line, 0, "@@ -" + a + " +" + b + " @@")
    ensures Stands(line, 0, "@@ -") && Stands(line, 4, a) && Stands(line, 4 + |a|, " +")
    ensures Stands(line, 6 + |a|, b) && Stands(line, 6 + |a| + |b|, " @@")
  {
    StandsParts(line, 0, "@@ -" + a + " +" + b, " @@");
    StandsParts(line, 0, "@@ -" + a + " +", b);
    StandsParts(line, 0, "@@ -" + a, " +");
    StandsParts(line, 0, "@@ -", a);
  }

  lemma FramesStand(line: string, i: nat, j: nat)
    requires Stands(line, 0, "@@ -") && Stands(line, i, " +") && Stands(line, j, " @@")
    ensures Frames(line, i, j)
  {
    assert line[0 + 0] == "@@ -"[0] && line[0 + 1] == "@@ -"[1] && line[0 + 2] == "@@ -"[2] && line[0 + 3] == "@@ -"[3];
    assert line[i + 0] == " +"[0] && line[i + 1] == " +"[1];
    assert line[j + 0] == " @@"[0] && line[j + 1] == " @@"[1] && line[j + 2] == " @@"[2];
  }

  lemma BehindIs(line: string, src: Range, tgt: Range)
    requires At(line, tgt.end, ' ') && At(line, tgt.end + 1, '@') && At(line, tgt.end + 2, '@')
    ensures HeadBehind(line, src, Some(tgt))
            == Some(Head(src.start, src.count, tgt.start, tgt.count, Desc(line, tgt.end + 3)))
  {}

  lemma HeadIs(line: string, src: Range, tgt: Range)
    requires RangeAt(line, 4) == Some(src) && RangeAt(line, src.end + 2) == Some(tgt)
    requires Frames(line, src.end, tgt.end)
    ensures tgt.end + 3 <= |line|
    ensures HunkHead(line) == Some(Head(src.start, src.count, tgt.start, tgt.count, Desc(line, tgt.end + 3)))
  {
    BehindIs(line, src, tgt);
    assert HunkHead(line) == HeadBehind(line, src, RangeAt(line, src.end + 2));
  }

  lemma HeadHas(line: string)
    requires HunkHead(line).Some?
    ensures RangeAt(line, 4).Some? && RangeAt(line, RangeAt(line, 4).value.end + 2).Some?
    ensures var e := RangeAt(line, 4).value.end;
            Frames(line, e, RangeAt(line, e + 2).value.end)
  {}

  /** The line is read as a start line that declares the two sides. */
  predicate Declares(line: string, src: Extent, tgt: Extent, desc: string)
    requires Spelt(src) && Spelt(tgt)
  {
    HunkHead(line) == Some(Head(NumberOf(src.start), Declared(src), NumberOf(tgt.start), Declared(tgt), desc))
  }

  /** What is read where a side stands. */
  function RangeOf(r: Extent, i: nat): Range
    requires Spelt(r)
  {
    Range(NumberOf(r.start), Declared(r), i + |ExtentText(r)|)
  }

  lemma SourceRange(line: string, src: Extent, tgt: Extent, rest: string)
    requires Spelt(src) && Shaped(line, ExtentText(src), ExtentText(tgt), rest)
    ensures RangeAt(line, 4) == Some(RangeOf(src, 4))
  {
    ExtentAt(line, 4, src);
  }

  lemma TargetRange(line: string, src: Extent, tgt: Extent, rest: string)
    requires Spelt(tgt) && Shaped(line, ExtentText(src), ExtentText(tgt), rest)
    ensures RangeAt(line, 6 + |ExtentText(src)|) == Some(RangeOf(tgt, 6 + |ExtentText(src)|))
  {
    ExtentAt(line, 6 + |ExtentText(src)|, tgt);
  }

  /** Both sides are read where they stand. */
  predicate BothRead(line: string, src: Extent, tgt: Extent, i: nat)
    requires Spelt(src) && Spelt(tgt)
  {
    && RangeAt(line, 4) == Some(RangeOf(src, 4)) && RangeAt(line, i) == Some(RangeOf(tgt, i))
    && i == RangeOf(src, 4).end + 2 && Frames(line, i - 2, RangeOf(tgt, i).end)
  }

  lemma ShapedBothRead(line: string, src: Extent, tgt: Extent, rest: string)
    requires Spelt(src) && Spelt(tgt) && Shaped(line, ExtentText(src), ExtentText(tgt), rest)
    ensures BothRead(line, src, tgt, 6 + |ExtentText(src)|)
  {
    SourceRange(line, src, tgt, rest);
    TargetRange(line, src, tgt, rest);
  }

  lemma BothReadDeclares(line: string, src: Extent, tgt: Extent, i: nat)
    requires Spelt(src) && Spelt(tgt) && BothRead(line, src, tgt, i)
    ensures i + |ExtentText(tgt)| + 3 <= |line|
    ensures Declares(line, src, tgt, Desc(line, i + |ExtentText(tgt)| + 3))
  {
    RangesRead(line, src, tgt, RangeOf(src, 4), RangeOf(tgt, i));
  }

  lemma ShapedReads(line: string, src: Extent, tgt: Extent, rest: string)
    requires Spelt(src) && Spelt(tgt) && Shaped(line, ExtentText(src), ExtentText(tgt), rest)
    ensures Declares(line, src, tgt, Desc(line, 9 + |ExtentText(src)| + |ExtentText(tgt)|))
  {
    ShapedBothRead(line, src, tgt, rest);
    BothReadDeclares(line, src, tgt, 6 + |ExtentText(src)|);
  }

  lemma RangesRead(line: string, src: Extent, tgt: Extent, a: Range, b: Range)
    requires Spelt(src) && a.start == NumberOf(src.start) && a.count == Declared(src)
    requires Spelt(tgt) && b.start == NumberOf(tgt.start) && b.count == Declared(tgt)
    requires RangeAt(line, 4) == Some(a) && RangeAt(line, a.end + 2) == Some(b) && Frames(line, a.end, b.end)
    ensures b.end + 3 <= |line| && Declares(line, src, tgt, Desc(line, b.end + 3))
  {
    HeadIs(line, a, b);
  }

  /** All forms of a start line are read: with both counts, with one of them, or with none. */
  lemma StartLineReads(src: Extent, tgt: Extent, rest: string)
    requires Spelt(src) && Spelt(tgt)
    ensures HunkHead(LineText(src, tgt, rest)).Some?
    ensures var head := HunkHead(LineText(src, tgt, rest)).value;
            && head.startsrc == NumberOf(src.start) && head.linessrc == Declared(src)
            && head.starttgt == NumberOf(tgt.start) && head.linestgt == Declared(tgt)
  {
    TextIsShaped(ExtentText(src), ExtentText(tgt), rest);
    ShapedReads(LineText(src, tgt, rest), src, tgt, rest);
  }

  /** And nothing else is: every start line has the text of one of these forms. */
  lemma StartLineExact(line: string) returns (src: Extent, tgt: Extent, rest: string)
    requires HunkHead(line).Some?
    ensures Spelt(src) && Spelt(tgt) && line == LineText(src, tgt, rest)
  {
    HeadHas(line);
    src := ExtentRead(line, 4);
    var e := RangeAt(line, 4).value.end;
    tgt := ExtentRead(line, e + 2);
    var f := RangeAt(line, e + 2).value.end;
    rest := line[f + 3..];
    Pieces(line, e, f);
  }

  lemma Pieces(line: string, e: nat, f: nat)
    requires Frames(line, e, f) && 4 <= e && e + 2 <= f
    ensures |line| >= f + 3
    ensures line == "@@ -" + line[4..e] + " +" + line[e + 2..f] + " @@" + line[f + 3..]
  {
    assert line[..4] == "@@ -" && line[e..e + 2] == " +" && line[f..f + 3] == " @@";
    assert line == line[..4] + line[4..e] + line[e..e + 2] + line[e + 2..f] + line[f..f + 3] + line[f + 3..];
  }

  /** Numbers in decimal, with counts or without. */
  function Plain(start: nat, count: Option<nat>): Extent {
    Extent(Decimal(start), if count.None? then None else Some(Decimal(count.value)))
  }

  /** For all numbers, each side is read with the count given, or with 1. */
  lemma CountsRead(a: nat, m: Option<nat>, b: nat, n: Option<nat>, rest: string)
    ensures HunkHead(LineText(Plain(a, m), Plain(b, n), rest)).Some?
    ensures var head := HunkHead(LineText(Plain(a, m), Plain(b, n), rest)).value;
            && head.startsrc == a && head.linessrc == (if m.Some? then m.value else 1)
            && head.starttgt == b && head.linestgt == (if n.Some? then n.value else 1)
  {
    NumberOfDecimal(a);
    NumberOfDecimal(b);
    NumberOfDecimal(if m.Some? then m.value else 1);
    NumberOfDecimal(if n.Some? then n.value else 1);
    StartLineReads(Plain(a, m), Plain(b, n), rest);
  }

  // ----- the description

  predicate EndsWithSpace(s: string) {
    s != "" && IsSpace(s[|s| - 1])
  }

  predicate AllSpace(s: string) {
    forall i {:trigger s[i]} :: 0 <= i < |s| ==> IsSpace(s[i])
  }

  lemma {:induction false} TrimEndAt(s: string, i: nat, r: nat, e: nat)
    requires i <= r <= e <= |s| && (r > i ==> !IsSpace(s[r - 1])) && forall k :: r <= k < e ==> IsSpace(s[k])
    ensures TrimEnd(s, i, e) == r
    decreases e
  {
    if r < e {
      TrimEndAt(s, i, r, e - 1);
    }
  }

  /** Behind the second `@@`: one character, the description, white space, and the end of the line. */
  predicate DescStands(line: string, i: nat, desc: string, space: string) {
    && i < |line| && line[i] != '\n' && Stands(line, i + 1, desc) && Stands(line, i + 1 + |desc|, space)
    && At(line, i + 1 + |desc| + |space|, '\n')
    && '\n' !in desc && !EndsWithSpace(desc) && '\n' !in space && AllSpace(space)
  }

  lemma LineIsShaped(line: string, src: Extent, tgt: Extent, rest: string)
    requires line == LineText(src, tgt, rest)
    ensures Shaped(line, ExtentText(src), ExtentText(tgt), rest)
  {
    TextIsShaped(ExtentText(src), ExtentText(tgt), rest);
  }

  lemma ShapedDesc(line: string, src: Extent, tgt: Extent, rest: string, desc: string)
    requires Spelt(src) && Spelt(tgt) && Shaped(line, ExtentText(src), ExtentText(tgt), rest)
    requires Desc(line, 9 + |ExtentText(src)| + |ExtentText(tgt)|) == desc
    ensures Declares(line, src, tgt, desc)
  {
    ShapedReads(line, src, tgt, rest);
  }

  /** The description is read as it stands, without white space behind it. */
  lemma DescRead(line: string, src: Extent, tgt: Extent, rest: string, desc: string, space: string)
    requires Spelt(src) && Spelt(tgt) && Shaped(line, ExtentText(src), ExtentText(tgt), rest)
    requires DescStands(line, 9 + |ExtentText(src)| + |ExtentText(tgt)|, desc, space)
    ensures Declares(line, src, tgt, desc)
  {
    DescAt(line, 9 + |ExtentText(src)| + |ExtentText(tgt)|, desc, space);
    ShapedDesc(line, src, tgt, rest, desc);
  }

  lemma DescAt(line: string, i: nat, desc: string, space: string)
    requires i <= |line| && DescStands(line, i, desc, space)
    ensures Desc(line, i) == desc
  {
    var r := i + 1 + |desc|;
    var e := r + |space|;
    EndOfLine(line, i, desc, space);
    forall k | r <= k < e ensures IsSpace(line[k]) {
      assert line[r + (k - r)] == space[k - r];
    }
    assert desc != "" ==> line[i + 1 + (|desc| - 1)] == desc[|desc| - 1];
    TrimEndAt(line, i + 1, r, e);
  }

  lemma EndOfLine(line: string, i: nat, desc: string, space: string)
    requires i <= |line| && DescStands(line, i, desc, space)
    ensures IndexOf(line, i, '\n') == i + 1 + |desc| + |space|
  {
    forall k | i <= k < i + 1 + |desc| + |space| ensures line[k] != '\n' {
      if k > i + |desc| {
        assert line[i + 1 + |desc| + (k - i - 1 - |desc|)] == space[k - i - 1 - |desc|];
      } else if k > i {
        assert line[i + 1 + (k - i - 1)] == desc[k - i - 1];
      }
    }
  }

  // ----- parsing a hunk behind any start line

  lemma HeadStepAny(s: State, line: string, h: Hunk)
    requires AwaitsHunk(s) && HunkHead(line).Some?
    requires HunkHead(line).value == Head(h.startsrc, h.linessrc, h.starttgt, h.linestgt, h.desc)
    ensures var t := Step(s, line);
            && t.modes == BODY && SameFrame(s, t) && t.p == s.p && t.actualsrc == t.actualtgt == 0
            && t.hunk == Hunk(h.startsrc, h.linessrc, h.starttgt, h.linestgt, false, h.desc, [])
  {}

  lemma HunkRunAny(s: State, line: string, h: Hunk)
    requires AwaitsHunk(s) && Sealed(h) && HunkHead(line).Some?
    requires HunkHead(line).value == Head(h.startsrc, h.linessrc, h.starttgt, h.linestgt, h.desc)
    ensures var t := Run(s, [line] + h.text, 0);
            t.modes == PARSED && SameFrame(s, t) && Gained(t.p, s.p, [h])
  {
    var t := Step(s, line);
    HeadStepAny(s, line, h);
    assert h.text[..0] == [];
    RunConcat(s, [line], h.text, 0);
    assert Run(s, [line], 0) == Run(t, [line], 1) == t;
    BodyRun(t, h, 0);
  }

  /**
   A patch of one hunk, with a start line in any form that declares what the body has: the
   parse succeeds and stores this hunk, with the description of the line.
   */
  lemma HunkParses(source: string, target: string, line: string, h: Hunk, warnings: nat)
    requires NameOk(source) && NameOk(target) && Sealed(h) && HunkHead(line).Some?
    requires HunkHead(line).value == Head(h.startsrc, h.linessrc, h.starttgt, h.linestgt, h.desc)
    ensures var r := Parse([], warnings, NameLines(source, target) + ([line] + h.text));
            && r.ok && r.errors == 0 && |r.items| == 1
            && r.items[0].source == Some(source) && r.items[0].target == target
            && r.items[0].header == [] && r.items[0].hunks == [h]
  {
    var s, names, rest := Init([], warnings), NameLines(source, target), [line] + h.text;
    var t := Run(s, names, 0);
    NamesRun(s, source, target);
    HunkRunAny(t, line, h);
    RunConcat(s, names, rest, 0);
    assert [] + [h] == [h];
  }

  /** Without counts: one line replaced by another. */
  function Replacement(a: nat, b: nat, x: string, y: string): Hunk {
    Hunk(a, 1, b, 1, false, "", ["-" + x, "+" + y])
  }

  lemma ReplacementSealed(a: nat, b: nat, x: string, y: string)
    ensures Sealed(Replacement(a, b, x, y))
  {
    var h := Replacement(a, b, x, y);
    assert h.text[1..] == ["+" + y] && h.text[1..][1..] == [];
    assert Side([], '-') == [] && Side([], '+') == [];
    assert Side(h.text[1..], '-') == [] && Side(h.text[1..], '+') == [Chomp(y)] + [] by {
      assert h.text[1][1..] == y;
    }
    assert h.text[0][1..] == x;
    assert Side(h.text, '-') == [Chomp(x)] + [] && Side(h.text, '+') == [] + [Chomp(y)];
    SealedExact(h);
  }

  /** A start line without counts, and one line each way. */
  lemma ReplacementParses(source: string, target: string, a: nat, b: nat, x: string, y: string, warnings: nat)
    requires NameOk(source) && NameOk(target)
    ensures var line := "@@ -" + Decimal(a) + " +" + Decimal(b) + " @@\n";
            var r := Parse([], warnings, NameLines(source, target) + [line, "-" + x, "+" + y]);
            && r.ok && r.errors == 0 && |r.items| == 1
            && r.items[0].source == Some(source) && r.items[0].target == target
            && r.items[0].hunks == [Hunk(a, 1, b, 1, false, "", ["-" + x, "+" + y])]
  {
    var line, h := "@@ -" + Decimal(a) + " +" + Decimal(b) + " @@\n", Replacement(a, b, x, y);
    ShortHead(a, b);
    ReplacementSealed(a, b, x, y);
    HunkParses(source, target, line, h, warnings);
    assert [line] + h.text == [line, "-" + x, "+" + y];
  }

  lemma ShortHead(a: nat, b: nat)
    ensures HunkHead("@@ -" + Decimal(a) + " +" + Decimal(b) + " @@\n") == Some(Head(a, 1, b, 1, ""))
  {
    var line := "@@ -" + Decimal(a) + " +" + Decimal(b) + " @@\n";
    assert line == LineText(Plain(a, None), Plain(b, None), "\n");
    NumberOfDecimal(a);
    NumberOfDecimal(b);
    NoDesc(line, Plain(a, None), Plain(b, None));
  }

  lemma NoDesc(line: string, src: Extent, tgt: Extent)
    requires line == LineText(src, tgt, "\n") && Spelt(src) && Spelt(tgt)
    ensures Declares(line, src, tgt, "")
  {
    LineIsShaped(line, src, tgt, "\n");
    NothingBehind(line, 9 + |ExtentText(src)| + |ExtentText(tgt)|);
    ShapedDesc(line, src, tgt, "\n", "");
  }

  lemma NothingBehind(line: string, i: nat)
    requires Stands(line, i, "\n")
    ensures Desc(line, i) == ""
  {
    assert line[i + 0] == "\n"[0];
  }
}
