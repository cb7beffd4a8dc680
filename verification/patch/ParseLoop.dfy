/**
 The parse loop itself. Its local variables are one record, and the blocks of the loop
 body stand in the order in which a line passes them.
 */
module ParseLoop {
  import opened Options
  import opened Hunks
  import opened Decoders
  import opened Parser

  /** Deciding twice is deciding once. */
  lemma DecidedOnce(s: State, lines: seq<string>, i: nat)
    requires i < |lines|
    ensures Run(s, lines, i) == Run(Decide(s, lines[i]), lines, i)
  {
    var d := Decide(s, lines[i]);
    assert Decide(d, lines[i]) == d;
    assert Step(s, lines[i]) == Step(d, lines[i]);
  }

  /** Outside the header scan a line goes straight to the blocks. */
  lemma Handled(s: State, lines: seq<string>, i: nat)
    requires i < |lines| && !s.reading && !s.modes.headscan && !s.modes.hunkparsed
    ensures Run(s, lines, i) == Run(Handle(s, lines[i]), lines, i + 1)
  {
    assert Decided(s, lines[i]) == s;
  }

  method DecideMode(s: State, line: string) returns (d: State)
    ensures d == Decide(s, line) && !d.modes.hunkparsed && d.reading == s.reading
  {
    d := s;
    if d.modes.hunkparsed {
      d := d.(modes := d.modes.(hunkparsed := false));
      if HunkHead(line).Some? {
        d := d.(modes := d.modes.(hunkhead := true));
      } else if IsSource(line) {
        d := d.(modes := d.modes.(filenames := true));
      } else {
        d := d.(modes := d.modes.(headscan := true));
      }
    }
  }

  /** Keeps lines for the header up to the next source name or the end of the stream. */
  method ScanHeader(s: State, lines: seq<string>, start: nat) returns (t: State, i: nat)
    requires start < |lines| && !s.reading && s.modes.headscan && !s.modes.hunkparsed
    ensures start <= i <= |lines|
    ensures i == |lines| ==> Run(t, lines, i) == Run(s, lines, start)
    ensures i < |lines| ==> !t.reading && Run(Handle(t, lines[i]), lines, i + 1) == Run(s, lines, start)
  {
    t, i := s, start;
    while i < |lines| && !IsSource(lines[i])
      invariant start <= i <= |lines|
      invariant t == s.(header := t.header, reading := i > start)
      invariant Run(t, lines, i) == Run(s, lines, start)
    {
      assert Step(t, lines[i]) == t.(header := t.header + [lines[i]], reading := true);
      t := t.(header := t.header + [lines[i]], reading := true);
      i := i + 1;
    }
    if i < |lines| {
      ghost var d := Decided(t, lines[i]);
      assert Run(t, lines, i) == Run(Handle(d, lines[i]), lines, i + 1);
      t := t.(modes := t.modes.(headscan := false, filenames := true), reading := false);
      assert t == d;
    }
  }

  method StoreInvalid(s: State) returns (t: State)
    ensures t == Invalidate(s) && t.reading == s.reading
  {
    t := s.(hunk := s.hunk.(invalid := true), errors := s.errors + 1);
    t := t.(p := AddHunk(t.p, t.hunk), modes := t.modes.(hunkbody := false, hunkskip := true));
  }

  /** One line of a hunk body: the line ends, the counters, the text. */
  method TakeBlock(s: State, line: string) returns (t: State)
    ensures t == TakeLine(s, line) && t.reading == s.reading
  {
    if BodyLine(line) {
      t := s.(p := CountEnd(s.p, line));
      if line[0] == '-' {
        t := t.(actualsrc := t.actualsrc + 1);
      } else if line[0] == '+' {
        t := t.(actualtgt := t.actualtgt + 1);
      } else if line[0] != '\\' {
        t := t.(actualsrc := t.actualsrc + 1, actualtgt := t.actualtgt + 1);
      }
      t := t.(hunk := t.hunk.(text := t.hunk.text + [line]));
    } else {
      t := StoreInvalid(s);
    }
  }

  method BodyBlock(s: State, line: string) returns (t: State, text: string)
    requires s.modes.hunkbody
    ensures t == Body(s, line) && text == Expanded(s, line) && t.reading == s.reading
  {
    text, t := line, s;
    if Blank(line) {
      t := t.(warnings := t.warnings + 1);
      text := " " + line;
    }
    t := TakeBlock(t, text);
    if t.actualsrc > t.hunk.linessrc || t.actualtgt > t.hunk.linestgt {
      t := StoreInvalid(t);
    } else if t.hunk.linessrc == t.actualsrc && t.hunk.linestgt == t.actualtgt {
      t := t.(p := AddHunk(t.p, t.hunk), modes := t.modes.(hunkbody := false, hunkparsed := true));
      if t.p.Some? && t.p.value.ends.Mixed() {
        t := t.(warnings := t.warnings + 1);
      }
    }
  }

  method SkipBlock(s: State, line: string) returns (t: State)
    ensures t == Skip(s, line) && t.reading == s.reading
  {
    t := s;
    if t.modes.hunkskip {
      if HunkHead(line).Some? {
        t := t.(modes := t.modes.(hunkskip := false, hunkhead := true));
      } else if IsSource(line) {
        t := t.(modes := t.modes.(hunkskip := false, filenames := true));
      }
    }
  }

  /** One line in the file name mode; `begun` tells that it opened a new patch. */
  method NamesBlock(s: State, line: string) returns (t: State, begun: bool)
    ensures t == Names(s, line) && begun == OpensPatch(s, line) && t.reading == s.reading
  {
    t, begun := s, false;
    if IsSource(line) {
      t := t.(srcname := Name(line));
      if t.srcname.None? {
        t := BackToScan(t.(errors := t.errors + 1));
      }
    } else if !IsTarget(line) {
      if t.srcname.Some? {
        t := t.(errors := t.errors + 1, srcname := None);
      }
      t := BackToScan(t);
    } else if t.tgtname.Some? {
      t := BackToScan(t.(errors := t.errors + 1, srcname := None, tgtname := None));
    } else {
      var name := Name(line);
      if name.None? {
        t := BackToScan(t.(errors := t.errors + 1, srcname := None));
      } else {
        if t.p.Some? {
          t := t.(items := t.items + [t.p.value]);
        }
        t := t.(p := Some(Patch(t.srcname, name.value, t.header, [], Ends(0, 0, 0))));
        t := t.(srcname := None, header := [], modes := t.modes.(filenames := false, hunkhead := true));
        begun := true;
      }
    }
  }

  /** One line in the hunk head mode. */
  method HeadBlock(s: State, line: string) returns (t: State)
    ensures t == StartHunk(s, line) && t.reading == s.reading
  {
    t := s;
    var head := HunkHead(line);
    if head.None? {
      if t.p.Some? && t.p.value.hunks == [] {
        t := t.(errors := t.errors + 1);
      }
      t := t.(modes := t.modes.(hunkhead := false, headscan := true));
    } else {
      var h := head.value;
      t := t.(hunk := Hunk(h.startsrc, h.linessrc, h.starttgt, h.linestgt, false, h.desc, []));
      t := t.(actualsrc := 0, actualtgt := 0, modes := t.modes.(hunkhead := false, hunkbody := true));
    }
  }

  /** The blocks after the header scan, in order; a complete hunk or a new patch ends the turn. */
  method Turn(s: State, line: string) returns (t: State)
    ensures t == Handle(s, line) && t.reading == s.reading
  {
    t := s;
    var text, begun := line, false;
    if t.modes.hunkbody {
      t, text := BodyBlock(t, line);
      if t.modes.hunkparsed {
        return;
      }
    }
    t := SkipBlock(t, text);
    if t.modes.filenames {
      t, begun := NamesBlock(t, text);
    }
    if !begun && t.modes.hunkhead {
      t := HeadBlock(t, text);
    }
  }

  /** The end of the stream. */
  method Conclude(s: State) returns (ok: bool, items: seq<Patch>, errors: nat, warnings: nat)
    ensures Result(ok, items, errors, warnings) == Finish(s)
  {
    items, errors, warnings := s.items, s.errors, s.warnings;
    if s.reading {
      if s.p.None? {
        errors := errors + 1;
      } else {
        warnings := warnings + 1;
      }
    }
    if s.p.Some? {
      items := items + [s.p.value];
    }
    if !s.modes.hunkparsed && !s.modes.hunkskip {
      if s.modes.headscan {
        if items == [] {
          return false, items, errors, warnings;
        }
      } else {
        errors := errors + 1;
      }
    }
    ok := errors == 0;
  }

  method ParseLines(held: seq<Patch>, warned: nat, lines: seq<string>)
    returns (ok: bool, items: seq<Patch>, errors: nat, warnings: nat)
    ensures Result(ok, items, errors, warnings) == Parse(held, warned, lines)
  {
    var s := Init(held, warned);
    ghost var final := Run(s, lines, 0);
    var i: nat := 0;
    while i < |lines|
      invariant i <= |lines| && (s.reading ==> i == |lines|)
      invariant Run(s, lines, i) == final
    {
      DecidedOnce(s, lines, i);
      s := DecideMode(s, lines[i]);
      if s.modes.headscan {
        s, i := ScanHeader(s, lines, i);
        if i == |lines| {
          continue;
        }
      } else {
        Handled(s, lines, i);
      }
      s := Turn(s, lines[i]);
      i := i + 1;
    }
    ok, items, errors, warnings := Conclude(s);
  }
}
