/**
 The assembly of header fields from the callbacks of an HTTP parser, which hands out names
 and values in pieces. Field names are not empty (section 3.2 of RFC 7230).
 */
module HttpHeaders {

  function LowerChar(c: char): char {
    if 'A' <= c <= 'Z' || (0xC0 <= c as int <= 0xDE && c as int != 0xD7) then (c as int + 32) as char else c
  }

  /** Lower case over Latin-1. */
  function Lower(s: string): (r: string)
    ensures |r| == |s|
  {
    seq(|s|, i requires 0 <= i < |s| => LowerChar(s[i]))
  }

  datatype State = State(header: map<string, string>, field: string, value: string)

  const INIT := State(map[], "", "")

  /** The callbacks of the parser. */
  datatype Event = Field(part: string) | Value(part: string) | Complete

  /** Stores the current header when both its parts are there. */
  function Insert(s: State): State {
    if s.field != "" && s.value != "" then State(s.header[Lower(s.field) := s.value], "", "") else s
  }

  function Step(s: State, e: Event): State {
    match e
    case Field(part) => var t := Insert(s); t.(field := t.field + part)
    case Value(part) => s.(value := s.value + part)
    case Complete => Insert(s)
  }

  function Run(s: State, events: seq<Event>, i: nat): State
    requires i <= |events|
    decreases |events| - i
  {
    if i == |events| then s else Run(Step(s, events[i]), events, i + 1)
  }

  // ----- headers and the ways to hand them out

  datatype Header = Header(name: string, value: string)

  /** A header in pieces, as many and as long as the parser likes. */
  datatype Pieces = Pieces(names: seq<string>, values: seq<string>)

  function Join(parts: seq<string>, k: nat): string
    requires k <= |parts|
    decreases |parts| - k
  {
    if k == |parts| then "" else parts[k] + Join(parts, k + 1)
  }

  function Whole(p: Pieces): Header {
    Header(Join(p.names, 0), Join(p.values, 0))
  }

  function AllWhole(ps: seq<Pieces>): (hs: seq<Header>)
    ensures |hs| == |ps|
  {
    seq(|ps|, i requires 0 <= i < |ps| => Whole(ps[i]))
  }

  function Fields(parts: seq<string>): (events: seq<Event>)
    ensures |events| == |parts|
  {
    seq(|parts|, i requires 0 <= i < |parts| => Field(parts[i]))
  }

  function Values(parts: seq<string>): (events: seq<Event>)
    ensures |events| == |parts|
  {
    seq(|parts|, i requires 0 <= i < |parts| => Value(parts[i]))
  }

  /** The callbacks for a list of headers in pieces. */
  function Callbacks(ps: seq<Pieces>, k: nat): seq<Event>
    requires k <= |ps|
    decreases |ps| - k
  {
    if k == |ps| then [Complete] else (Fields(ps[k].names) + Values(ps[k].values)) + Callbacks(ps, k + 1)
  }

  predicate Named(ps: seq<Pieces>) {
    forall i {:trigger ps[i]} :: 0 <= i < |ps| ==> Join(ps[i].names, 0) != ""
  }

  // ----- the reference

  /** A list of headers as a map: names in lower case, the last value wins. */
  function Folded(hs: seq<Header>, n: nat): map<string, string>
    requires n <= |hs|
  {
    if n == 0 then map[] else Folded(hs, n - 1)[Lower(hs[n - 1].name) := hs[n - 1].value]
  }

  /** What the code makes of a list: a header without a value lends its name to the next one. */
  function Merged(hs: seq<Header>, n: nat): seq<Header>
    requires n <= |hs|
  {
    if n == 0 then []
    else if hs[n - 1].value == "" then Merged(hs, n - 1)
    else Merged(hs, n - 1) + [Header(Carry(hs, n - 1) + hs[n - 1].name, hs[n - 1].value)]
  }

  /** The names waiting for a value after `n` headers. */
  function Carry(hs: seq<Header>, n: nat): string
    requires n <= |hs|
  {
    if n == 0 || hs[n - 1].value != "" then "" else Carry(hs, n - 1) + hs[n - 1].name
  }

  // ----- proofs

  lemma {:induction false} RunConcat(s: State, a: seq<Event>, b: seq<Event>, i: nat)
    requires i <= |a|
    ensures Run(s, a + b, i) == Run(Run(s, a, i), b, 0)
    decreases |a| - i
  {
    if i == |a| {
      RunSuffix(s, a, b, 0);
    } else {
      RunConcat(Step(s, a[i]), a, b, i + 1);
    }
  }

  lemma {:induction false} RunSuffix(s: State, a: seq<Event>, b: seq<Event>, j: nat)
    requires j <= |b|
    ensures Run(s, a + b, |a| + j) == Run(s, b, j)
    decreases |b| - j
  {
    if j < |b| {
      RunSuffix(Step(s, b[j]), a, b, j + 1);
    }
  }

  /** Pieces of a name are put together, once what was complete before is stored. */
  lemma {:induction false} FieldsRun(s: State, parts: seq<string>, k: nat)
    requires k <= |parts| && s.value == ""
    ensures Run(s, Fields(parts), k) == s.(field := s.field + Join(parts, k))
    decreases |parts| - k
  {
    if k == |parts| {
      assert s.field + "" == s.field;
    } else {
      FieldsRun(s.(field := s.field + parts[k]), parts, k + 1);
      assert s.field + parts[k] + Join(parts, k + 1) == s.field + Join(parts, k);
    }
  }

  lemma {:induction false} ValuesRun(s: State, parts: seq<string>, k: nat)
    requires k <= |parts|
    ensures Run(s, Values(parts), k) == s.(value := s.value + Join(parts, k))
    decreases |parts| - k
  {
    if k == |parts| {
      assert s.value + "" == s.value;
    } else {
      ValuesRun(s.(value := s.value + parts[k]), parts, k + 1);
      assert s.value + parts[k] + Join(parts, k + 1) == s.value + Join(parts, k);
    }
  }

  lemma PiecesRun(s: State, p: Pieces)
    requires Insert(s).value == "" && Join(p.names, 0) != ""
    ensures Run(s, Fields(p.names) + Values(p.values), 0)
            == Insert(s).(field := Insert(s).field + Join(p.names, 0), value := Join(p.values, 0))
  {
    var t, fields := Insert(s), Fields(p.names);
    assert p.names != [];
    assert Insert(t) == t;
    assert Step(s, fields[0]) == Step(t, fields[0]);
    FieldsRun(t, p.names, 0);
    RunConcat(s, fields, Values(p.values), 0);
    var u := Run(s, fields, 0);
    assert u == Run(t, fields, 0);
    ValuesRun(u, p.values, 0);
    assert "" + Join(p.values, 0) == Join(p.values, 0);
  }

  /** The state once everything complete is stored, after `n` headers. */
  function Settled(hs: seq<Header>, n: nat): State
    requires n <= |hs|
  {
    State(Folded(Merged(hs, n), |Merged(hs, n)|), Carry(hs, n), "")
  }

  lemma {:induction false} FoldedPrefix(hs: seq<Header>, more: seq<Header>, n: nat)
    requires n <= |hs|
    ensures Folded(hs + more, n) == Folded(hs, n)
  {
    if n > 0 {
      FoldedPrefix(hs, more, n - 1);
      assert (hs + more)[n - 1] == hs[n - 1];
    }
  }

  /** One more header, whole, on a settled state. */
  lemma SettleNext(hs: seq<Header>, n: nat)
    requires n < |hs| && hs[n].name != ""
    ensures var t := Settled(hs, n);
            Insert(t.(field := t.field + hs[n].name, value := hs[n].value)) == Settled(hs, n + 1)
  {
    var t := Settled(hs, n);
    if hs[n].value != "" {
      var merged, next := Merged(hs, n), Header(Carry(hs, n) + hs[n].name, hs[n].value);
      assert Merged(hs, n + 1) == merged + [next];
      FoldedPrefix(merged, [next], |merged|);
      assert (merged + [next])[|merged|] == next;
    }
  }

  lemma {:induction false} CallbacksRun(s: State, ps: seq<Pieces>, k: nat)
    requires k <= |ps| && Named(ps) && Insert(s) == Settled(AllWhole(ps), k)
    ensures Run(s, Callbacks(ps, k), 0) == Settled(AllWhole(ps), |ps|)
    decreases |ps| - k
  {
    if k == |ps| {
      assert Run(s, [Complete], 0) == Run(Step(s, Complete), [Complete], 1);
    } else {
      var first := Fields(ps[k].names) + Values(ps[k].values);
      PiecesRun(s, ps[k]);
      SettleNext(AllWhole(ps), k);
      RunConcat(s, first, Callbacks(ps, k + 1), 0);
      CallbacksRun(Run(s, first, 0), ps, k + 1);
    }
  }

  /**
   However names and values are cut into pieces, the final map is that of the merged list:
   it depends on the headers alone.
   */
  lemma ChunkingIndependent(ps: seq<Pieces>)
    requires Named(ps)
    ensures var hs := AllWhole(ps);
            Run(INIT, Callbacks(ps, 0), 0).header == Folded(Merged(hs, |hs|), |Merged(hs, |hs|)|)
  {
    CallbacksRun(INIT, ps, 0);
  }

  /** Merging leaves a list alone exactly when every header has a value. */
  lemma {:induction false} MergedExact(hs: seq<Header>, n: nat)
    requires n <= |hs|
    ensures |Merged(hs, n)| <= n
    ensures Merged(hs, n) == hs[..n] <==> forall i :: 0 <= i < n ==> hs[i].value != ""
    ensures (forall i :: 0 <= i < n ==> hs[i].value != "") ==> Carry(hs, n) == ""
  {
    if n > 0 {
      MergedExact(hs, n - 1);
      assert hs[..n] == hs[..n - 1] + [hs[n - 1]];
      if hs[n - 1].value != "" {
        assert "" + hs[n - 1].name == hs[n - 1].name;
        if Merged(hs, n) == hs[..n] {
          assert Merged(hs, n)[..|Merged(hs, n)| - 1] == Merged(hs, n - 1);
          assert hs[..n][..n - 1] == hs[..n - 1];
        }
      }
    }
  }

  /** With a value in every header the map is the list itself, with the last value of every name. */
  lemma {:induction false} HeadersAreFolded(ps: seq<Pieces>)
    requires Named(ps) && forall i {:trigger ps[i]} :: 0 <= i < |ps| ==> Join(ps[i].values, 0) != ""
    ensures Run(INIT, Callbacks(ps, 0), 0).header == Folded(AllWhole(ps), |ps|)
  {
    var hs := AllWhole(ps);
    forall i | 0 <= i < |hs| ensures hs[i].value != "" {
      assert Join(ps[i].values, 0) != "";
    }
    ChunkingIndependent(ps);
    MergedExact(hs, |hs|);
    assert hs[..|hs|] == hs;
  }

  /** A header without a value is the last one of its name. */
  predicate EmptyIsLast(hs: seq<Header>) {
    forall i, j :: 0 <= i < j < |hs| && hs[i].value == "" ==> Lower(hs[j].name) != Lower(hs[i].name)
  }

  /** The map never stores an empty value. */
  lemma {:induction false} NothingEmpty(hs: seq<Header>, n: nat, name: string)
    requires n <= |hs| && forall i {:trigger hs[i]} :: 0 <= i < |hs| ==> hs[i].value != ""
    ensures name in Folded(hs, n) ==> Folded(hs, n)[name] != ""
  {
    if n > 0 {
      NothingEmpty(hs, n - 1, name);
    }
  }

  lemma {:induction false} MergedHasValues(hs: seq<Header>, n: nat)
    requires n <= |hs|
    ensures forall i {:trigger Merged(hs, n)[i]} :: 0 <= i < |Merged(hs, n)| ==> Merged(hs, n)[i].value != ""
  {
    if n > 0 {
      MergedHasValues(hs, n - 1);
    }
  }

  lemma {:induction false} LastIsFolded(hs: seq<Header>, i: nat, n: nat)
    requires i < n <= |hs| && forall j :: i < j < n ==> Lower(hs[j].name) != Lower(hs[i].name)
    ensures Lower(hs[i].name) in Folded(hs, n) && Folded(hs, n)[Lower(hs[i].name)] == hs[i].value
  {
    if i < n - 1 {
      LastIsFolded(hs, i, n - 1);
    }
  }

  /**
   When no header without a value is followed by another one of its name, for instance when
   all names differ, the map is the list itself if and only if every header has a value.
   */
  lemma {:induction false} FoldedExact(ps: seq<Pieces>)
    requires Named(ps) && EmptyIsLast(AllWhole(ps))
    ensures Run(INIT, Callbacks(ps, 0), 0).header == Folded(AllWhole(ps), |ps|) <==>
            forall i {:trigger ps[i]} :: 0 <= i < |ps| ==> Join(ps[i].values, 0) != ""
  {
    if forall i {:trigger ps[i]} :: 0 <= i < |ps| ==> Join(ps[i].values, 0) != "" {
      HeadersAreFolded(ps);
    } else {
      var i :| 0 <= i < |ps| && Join(ps[i].values, 0) == "";
      var hs := AllWhole(ps);
      var merged := Merged(hs, |hs|);
      ChunkingIndependent(ps);
      MergedHasValues(hs, |hs|);
      NothingEmpty(merged, |merged|, Lower(hs[i].name));
      LastIsFolded(hs, i, |hs|);
    }
  }

  /** A header without a value is lost, and its name stands before the name of the next one. */
  lemma EmptyValueMerges(a: string, b: string, v: string)
    requires a != "" && b != "" && v != ""
    ensures Run(INIT, Callbacks([Pieces([a], [""]), Pieces([b], [v])], 0), 0).header == map[Lower(a + b) := v]
  {
    var ps := [Pieces([a], [""]), Pieces([b], [v])];
    assert Join([a], 0) == a + Join([a], 1) == a && Join([b], 0) == b + Join([b], 1) == b;
    assert Join([""], 0) == "" + Join([""], 1) == "" && Join([v], 0) == v + Join([v], 1) == v;
    ChunkingIndependent(ps);
    var hs := AllWhole(ps);
    assert hs == [Header(a, ""), Header(b, v)];
    assert "" + a == a && Carry(hs, 0) == "";
    assert Carry(hs, 1) == a;
    assert Merged(hs, 1) == Merged(hs, 0) == [];
    assert Merged(hs, 2) == Merged(hs, 1) + [Header(Carry(hs, 1) + b, v)] == [Header(a + b, v)];
    assert Folded([Header(a + b, v)], 0) == map[];
  }

  // ----- upper and lower case

  /** The letters of Latin-1 that have a lower-case form. */
  predicate IsUpper(c: char) {
    'A' <= c <= 'Z' || ((0xC0 as char) <= c <= (0xDE as char) && c != 0xD7 as char)
  }

  /** The same letter, in the same case or not. */
  predicate SameLetter(a: char, b: char) {
    || a == b
    || (IsUpper(a) && b as int == a as int + 32)
    || (IsUpper(b) && a as int == b as int + 32)
  }

  lemma LowerCharExact(a: char, b: char)
    ensures !IsUpper(LowerChar(a)) && SameLetter(a, LowerChar(a))
    ensures LowerChar(a) == LowerChar(b) <==> SameLetter(a, b)
  {}

  /** Two names are one entry exactly when they differ in nothing but the case of letters. */
  lemma SameEntry(a: string, b: string)
    ensures Lower(a) == Lower(b) <==>
            |a| == |b| && forall i {:trigger a[i]} {:trigger b[i]} :: 0 <= i < |a| ==> SameLetter(a[i], b[i])
  {
    forall i | 0 <= i < |a| && i < |b| ensures Lower(a)[i] == Lower(b)[i] <==> SameLetter(a[i], b[i]) {
      LowerCharExact(a[i], b[i]);
    }
    if Lower(a) == Lower(b) {
      forall i | 0 <= i < |a| ensures SameLetter(a[i], b[i]) {
        assert Lower(a)[i] == Lower(b)[i];
      }
    }
  }

  predicate NoUpper(s: string) {
    forall i {:trigger s[i]} :: 0 <= i < |s| ==> !IsUpper(s[i])
  }

  ghost predicate LowerKeys(header: map<string, string>) {
    forall name {:trigger NoUpper(name)} :: name in header ==> NoUpper(name)
  }

  lemma InsertLower(s: State)
    requires LowerKeys(s.header)
    ensures LowerKeys(Insert(s).header)
  {
    forall i | 0 <= i < |s.field| ensures !IsUpper(Lower(s.field)[i]) {
      LowerCharExact(s.field[i], s.field[i]);
    }
  }

  /** Whatever the callbacks are, no stored name has an upper-case letter. */
  lemma {:induction false} StoredLower(s: State, events: seq<Event>, i: nat)
    requires i <= |events| && LowerKeys(s.header)
    ensures LowerKeys(Run(s, events, i).header)
    decreases |events| - i
  {
    if i < |events| {
      InsertLower(s);
      StoredLower(Step(s, events[i]), events, i + 1);
    }
  }

  // ----- the object

  class HttpRequest {
    var header: map<string, string>
    var currentHeaderField: string
    var currentHeaderValue: string

    ghost function S(): State
      reads this
    {
      State(header, currentHeaderField, currentHeaderValue)
    }

    constructor ()
      ensures S() == INIT
    {
      header, currentHeaderField, currentHeaderValue := map[], "", "";
    }

    method InsertHeader()
      modifies this
      ensures S() == Insert(old(S()))
    {
      if currentHeaderField != "" && currentHeaderValue != "" {
        header := header[Lower(currentHeaderField) := currentHeaderValue];
        currentHeaderField := "";
        currentHeaderValue := "";
      }
    }

    method OnHeaderField(part: string)
      modifies this
      ensures S() == Step(old(S()), Field(part))
    {
      InsertHeader();
      currentHeaderField := currentHeaderField + part;
    }

    method OnHeaderValue(part: string)
      modifies this
      ensures S() == Step(old(S()), Value(part))
    {
      currentHeaderValue := currentHeaderValue + part;
    }

    method OnHeadersComplete()
      modifies this
      ensures S() == Step(old(S()), Complete)
    {
      InsertHeader();
    }
  }
}
