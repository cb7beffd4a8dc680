/**
 A hunk that remarks on a missing line end, in the middle of a file and at its end.
 */
module Backslash {
  import opened Text
  import opened Hunks
  import opened Rewriter
  import opened RewriterProofs
  import opened Matcher

  /** One line replaced by another, and the remark that the patch has no line end there. */
  function Marked(old': string, new': string, remark: string): Hunk {
    Hunk(1, 1, 1, 1, false, "", ["-" + old', "+" + new', "\\" + remark])
  }

  lemma MarkedConsistent(old': string, new': string, remark: string)
    ensures var h := Marked(old', new', remark);
            Consistent(h) && Marks(h.text, 0) == 1 && TargetSide(h) == [Chomp(new')]
  {
    var text := Marked(old', new', remark).text;
    var tail := text[1..];
    assert tail == [text[1], text[2]] && tail[1..] == [text[2]] && tail[1..][1..] == [];
    assert text[0][1..] == old' && text[1][1..] == new';
    assert !OnSide(text[2], '-') && !OnSide(text[2], '+') && Side([], '-') == Side([], '+') == [];
    assert Side(tail[1..], '-') == [] + Side([], '-') == [];
    assert Side(tail[1..], '+') == [] + Side([], '+') == [];
    assert Side(tail, '-') == [] && Side(tail, '+') == [Chomp(new')];
    assert Side(text, '-') == [Chomp(old')] && Side(text, '+') == [Chomp(new')];
    assert Marks(text, 3) == 0 && Marks(text, 2) == 1 && Marks(text, 1) == 1;
  }

  /** Whatever the lines are: with a line after the replaced one, that line is lost. */
  lemma LineLost(old': string, new': string, remark: string, next: string)
    ensures var src, h := [old', next], Marked(old', new', remark);
            && Windows([h], 0, 0, 2) && !MarksAtEnd([h], 0, 0, 2)
            && Growth([h], 0) == 0 && |Stream(src, 0, [h], 0)| == 1
  {
    var src, h := [old', next], Marked(old', new', remark);
    MarkedConsistent(old', new', remark);
    assert AllConsistent([h]);
    assert Windows([h], 1, 1, 2) && Gap([h], 1, 1, 2) == 1;
    StreamLength(src, 0, [h], 0);
    Geometry([h], 0, 0, 0, 2);
    assert Stream(src, 2, [h], 1) == [];
  }

  /** And if the line after that one reads like the remark, the result passes for an already patched file. */
  lemma LossRecognised(old': string, new': string, remark: string, next: string)
    ensures var src, h := [old', next, remark], Marked(old', new', remark);
            && Windows([h], 0, 0, 3) && TargetsFollow([h], 0, 0) && !MarksAtEnd([h], 0, 0, 3)
            && Chomped(Stream(src, 0, [h], 0)) == [Chomp(new'), Chomp(remark)]
            && MatchFrom(Chomped(Stream(src, 0, [h], 0)), 0, [h], 0)
  {
    var src, h := [old', next, remark], Marked(old', new', remark);
    MarkedConsistent(old', new', remark);
    assert AllConsistent([h]);
    assert Windows([h], 1, 1, 3) && Gap([h], 1, 1, 3) == 2;
    TopStream(src, h);
    MarkedExpected(old', new', remark);
    var out := Chomped(Stream(src, 0, [h], 0));
    assert out[0..2] == out;
    assert StandsAt(out, From(0, h), Expected(h.text, 0));
  }

  lemma MarkedExpected(old': string, new': string, remark: string)
    ensures Expected(Marked(old', new', remark).text, 0) == [Chomp(new'), Chomp(remark)]
  {
    var text := Marked(old', new', remark).text;
    assert text[1][1..] == new' && text[2][1..] == remark;
    assert Expected(text, 3) == [] && Expected(text, 2) == [Chomp(remark)];
    assert Expected(text, 1) == [Chomp(new')] + [Chomp(remark)] == [Chomp(new'), Chomp(remark)];
  }

  /** At the end of a file, where the remark belongs, nothing is lost; but the result is not recognised as patched. */
  lemma RemarkAtEnd(old': string, new': string, remark: string)
    ensures var src, h := [old'], Marked(old', new', remark);
            && Windows([h], 0, 0, 1) && MarksAtEnd([h], 0, 0, 1)
            && Chomped(Stream(src, 0, [h], 0)) == [Chomp(new')]
            && !MatchFrom(Chomped(Stream(src, 0, [h], 0)), 0, [h], 0)
  {
    var src, h := [old'], Marked(old', new', remark);
    MarkedConsistent(old', new', remark);
    assert AllConsistent([h]);
    assert Windows([h], 1, 1, 1) && Gap([h], 1, 1, 1) == 0;
    StreamIsSplice(src, [h]);
    assert Splice(Chomped(src), 1, [h], 1) == [];
    assert Splice(Chomped(src), 0, [h], 0) == [] + [Chomp(new')] + [];
    assert !Unmarked([h][0]);
    PatchedIsRecognised(src, [h]);
  }
}
