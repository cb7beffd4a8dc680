/**
 Shared instances behind double-checked locking: any number of threads ask for the shared
 instance of a class, each step by step, under a read-write lock and over a map of weak
 references. An object lives as long as a strong reference to it does.
 */
module SharedInstances {
  import opened Options

  /** Where a thread stands inside `getShared`, with the local strong reference it holds. */
  datatype Pc = Outside
              | WantsRead(cls: string)
              | Probing(cls: string)
              | Probed(cls: string, shared: Option<nat>)
              | WantsWrite(cls: string)
              | Reprobing(cls: string)
              | Creating(cls: string)
              | Inserting(cls: string, obj: nat)
              | Written(cls: string, obj: nat)

  /** Objects are numbered in the order of their creation; `classes` tells the class of each. */
  datatype State = State(pcs: seq<Pc>, reading: set<nat>, writing: Option<nat>,
                         instances: map<string, nat>, classes: seq<string>, held: multiset<nat>)

  /** Calls and steps of threads, and strong references copied or dropped anywhere in the program. */
  datatype Event = Call(t: nat, cls: string) | Advance(t: nat) | Copy(obj: nat) | Drop(obj: nat)

  function Init(threads: nat): State {
    State(seq(threads, _ => Outside), {}, None, map[], [], multiset{})
  }

  predicate Carries(pc: Pc, obj: nat) {
    match pc
    case Probed(_, shared) => shared == Some(obj)
    case Inserting(_, o) => o == obj
    case Written(_, o) => o == obj
    case _ => false
  }

  /** Some strong reference to the object exists. */
  predicate Alive(s: State, obj: nat) {
    obj in s.held || exists t {:trigger s.pcs[t]} :: 0 <= t < |s.pcs| && Carries(s.pcs[t], obj)
  }

  /** A weak reference yields its object while that is alive. */
  function Promoted(s: State, cls: string): Option<nat> {
    if cls in s.instances && Alive(s, s.instances[cls]) then Some(s.instances[cls]) else None
  }

  function Goto(s: State, t: nat, pc: Pc): State
    requires t < |s.pcs|
  {
    s.(pcs := s.pcs[t := pc])
  }

  /** The next step of a thread; one that waits for the lock does not move. */
  function Move(s: State, t: nat): State
    requires t < |s.pcs|
  {
    match s.pcs[t]
    case Outside => s
    case WantsRead(cls) =>
      if s.writing.None? then Goto(s, t, Probing(cls)).(reading := s.reading + {t}) else s
    case Probing(cls) => Goto(s, t, Probed(cls, Promoted(s, cls)))
    case Probed(cls, shared) =>
      if shared.Some? then Goto(s, t, Outside).(reading := s.reading - {t}, held := s.held + multiset{shared.value})
      else Goto(s, t, WantsWrite(cls)).(reading := s.reading - {t})
    case WantsWrite(cls) =>
      if s.writing.None? && s.reading == {} then Goto(s, t, Reprobing(cls)).(writing := Some(t)) else s
    case Reprobing(cls) =>
      var shared := Promoted(s, cls);
      if shared.Some? then Goto(s, t, Written(cls, shared.value)) else Goto(s, t, Creating(cls))
    case Creating(cls) => Goto(s, t, Inserting(cls, |s.classes|)).(classes := s.classes + [cls])
    case Inserting(cls, obj) => Goto(s, t, Written(cls, obj)).(instances := s.instances[cls := obj])
    case Written(cls, obj) => Goto(s, t, Outside).(writing := None, held := s.held + multiset{obj})
  }

  function Step(s: State, e: Event): State {
    match e
    case Call(t, cls) => if t < |s.pcs| && s.pcs[t].Outside? then Goto(s, t, WantsRead(cls)) else s
    case Advance(t) => if t < |s.pcs| then Move(s, t) else s
    case Copy(obj) => if obj in s.held then s.(held := s.held + multiset{obj}) else s
    case Drop(obj) => s.(held := s.held - multiset{obj})
  }

  function At(threads: nat, events: seq<Event>, n: nat): State
    requires n <= |events|
  {
    if n == 0 then Init(threads) else Step(At(threads, events, n - 1), events[n - 1])
  }

  // ----- the lock

  predicate Reads(pc: Pc) {
    pc.Probing? || pc.Probed?
  }

  predicate Writes(pc: Pc) {
    pc.Reprobing? || pc.Creating? || pc.Inserting? || pc.Written?
  }

  /** The lock is held by whom the program counters say, and no reader beside a writer. */
  predicate Locked(s: State) {
    && (forall t {:trigger s.pcs[t]} :: 0 <= t < |s.pcs| ==>
          (Reads(s.pcs[t]) <==> t in s.reading) && (Writes(s.pcs[t]) <==> s.writing == Some(t)))
    && (s.writing.Some? ==> s.reading == {})
  }

  lemma MoveLocked(s: State, t: nat)
    requires Locked(s) && t < |s.pcs|
    ensures Locked(Move(s, t))
  {}

  // ----- the objects

  predicate Is(s: State, obj: nat, cls: string) {
    obj < |s.classes| && s.classes[obj] == cls
  }

  /** The map refers to the object under its class. */
  predicate Registered(s: State, obj: nat) {
    obj < |s.classes| && s.classes[obj] in s.instances && s.instances[s.classes[obj]] == obj
  }

  /** A thread has created the object and is about to register it. */
  predicate Arriving(s: State, obj: nat) {
    s.writing.Some? && s.writing.value < |s.pcs|
    && match s.pcs[s.writing.value]
       case Inserting(cls, o) => o == obj && Is(s, obj, cls)
       case _ => false
  }

  predicate Typed(s: State, pc: Pc) {
    match pc
    case Probed(cls, shared) => shared.Some? ==> Is(s, shared.value, cls)
    case Inserting(cls, obj) => Is(s, obj, cls)
    case Written(cls, obj) => Is(s, obj, cls)
    case _ => true
  }

  predicate AllTyped(s: State) {
    && (forall t {:trigger s.pcs[t]} :: 0 <= t < |s.pcs| ==> Typed(s, s.pcs[t]))
    && (forall cls {:trigger s.instances[cls]} :: cls in s.instances ==> Is(s, s.instances[cls], cls))
  }

  /** The thread between its second probe and the registration is the only one with an object of the class. */
  ghost predicate Alone(s: State, pc: Pc) {
    match pc
    case Creating(cls) => forall obj {:trigger Alive(s, obj)} :: Alive(s, obj) ==> !Is(s, obj, cls)
    case Inserting(cls, x) => forall obj {:trigger Alive(s, obj)} :: Alive(s, obj) && Is(s, obj, cls) ==> obj == x
    case _ => true
  }

  ghost predicate Inv(s: State) {
    && Locked(s) && AllTyped(s)
    && (forall obj {:trigger Alive(s, obj)} :: Alive(s, obj) ==> Registered(s, obj) || Arriving(s, obj))
    && (forall t {:trigger s.pcs[t]} :: 0 <= t < |s.pcs| ==> Alone(s, s.pcs[t]))
  }

  /** At most one thread is in the writing section. */
  lemma OneWriter(s: State, t: nat, u: nat)
    requires Locked(s) && t < |s.pcs| && u < |s.pcs| && Writes(s.pcs[t]) && Writes(s.pcs[u])
    ensures t == u
  {}

  /** A step that creates nothing brings no dead object back. */
  lemma NoRevival(s: State, t: nat, obj: nat)
    requires t < |s.pcs| && !s.pcs[t].Creating? && Alive(Move(s, t), obj)
    ensures Alive(s, obj)
  {
    var m := Move(s, t);
    if obj !in m.held {
      var u :| 0 <= u < |m.pcs| && Carries(m.pcs[u], obj);
      if u != t {
        assert Carries(s.pcs[u], obj);
      }
    } else if obj !in s.held {
      assert Carries(s.pcs[t], obj);
    }
  }

  lemma MoveStillIs(s: State, t: nat, obj: nat, cls: string)
    requires t < |s.pcs| && Is(s, obj, cls)
    ensures Is(Move(s, t), obj, cls)
  {}

  lemma MoveTypes(s: State, t: nat, u: nat)
    requires AllTyped(s) && t < |s.pcs| && u < |s.pcs|
    ensures Typed(Move(s, t), Move(s, t).pcs[u])
  {
    assert Typed(s, s.pcs[u]);
    if u != t {
      assert Move(s, t).pcs[u] == s.pcs[u];
      match s.pcs[u]
      case Probed(cls, shared) => if shared.Some? { MoveStillIs(s, t, shared.value, cls); }
      case Inserting(cls, obj) => MoveStillIs(s, t, obj, cls);
      case Written(cls, obj) => MoveStillIs(s, t, obj, cls);
      case _ =>
    }
  }

  lemma MoveTyped(s: State, t: nat)
    requires AllTyped(s) && t < |s.pcs|
    ensures AllTyped(Move(s, t))
  {
    var m := Move(s, t);
    forall u | 0 <= u < |m.pcs| ensures Typed(m, m.pcs[u]) {
      MoveTypes(s, t, u);
    }
    forall cls | cls in m.instances ensures Is(m, m.instances[cls], cls) {
      if cls in s.instances && s.instances[cls] == m.instances[cls] {
        MoveStillIs(s, t, s.instances[cls], cls);
      } else {
        assert Typed(s, s.pcs[t]);
      }
    }
  }

  /** While no registration is under way, a probe fails exactly when no object of the class is alive. */
  lemma ProbeExact(s: State, cls: string)
    requires Inv(s) && (forall t {:trigger s.pcs[t]} :: 0 <= t < |s.pcs| ==> !s.pcs[t].Inserting?)
    ensures Promoted(s, cls).None? <==> forall obj {:trigger Alive(s, obj)} :: Alive(s, obj) ==> !Is(s, obj, cls)
  {}

  /** Steps that neither create nor register an object, and do not leave the writing section with one. */
  lemma PlainKeeps(s: State, t: nat)
    requires Inv(s) && t < |s.pcs| && !s.pcs[t].Creating? && !s.pcs[t].Inserting? && !s.pcs[t].Reprobing?
    ensures Inv(Move(s, t))
  {
    var m := Move(s, t);
    MoveLocked(s, t);
    MoveTyped(s, t);
    forall obj | Alive(m, obj) ensures Registered(m, obj) || Arriving(m, obj) {
      NoRevival(s, t, obj);
      assert Registered(s, obj) || Arriving(s, obj);
    }
    forall u | 0 <= u < |m.pcs| ensures Alone(m, m.pcs[u]) {
      AloneStays(s, t, u);
    }
  }

  lemma AloneStays(s: State, t: nat, u: nat)
    requires Inv(s) && t < |s.pcs| && u < |s.pcs|
    requires !s.pcs[t].Creating? && !s.pcs[t].Inserting? && !s.pcs[t].Reprobing?
    ensures Alone(Move(s, t), Move(s, t).pcs[u])
  {
    var m := Move(s, t);
    if u != t {
      assert m.pcs[u] == s.pcs[u] && Alone(s, s.pcs[u]);
      forall obj | Alive(m, obj) ensures Alive(s, obj) {
        NoRevival(s, t, obj);
      }
    }
  }

  /** The second probe, under the write lock: without a result no object of the class is alive. */
  lemma ReprobeKeeps(s: State, t: nat)
    requires Inv(s) && t < |s.pcs| && s.pcs[t].Reprobing?
    ensures Inv(Move(s, t))
  {
    var m := Move(s, t);
    MoveLocked(s, t);
    MoveTyped(s, t);
    forall u | 0 <= u < |s.pcs| ensures !s.pcs[u].Inserting? {
      assert s.writing == Some(t);
    }
    ProbeExact(s, s.pcs[t].cls);
    forall obj | Alive(m, obj) ensures Alive(s, obj) && (Registered(m, obj) || Arriving(m, obj)) {
      NoRevival(s, t, obj);
      assert Registered(s, obj) || Arriving(s, obj);
    }
    forall u | 0 <= u < |m.pcs| ensures Alone(m, m.pcs[u]) {
      if u != t {
        assert m.pcs[u] == s.pcs[u] && Alone(s, s.pcs[u]);
      }
    }
  }

  lemma CreateBrings(s: State, t: nat, obj: nat)
    requires t < |s.pcs| && s.pcs[t].Creating? && Alive(Move(s, t), obj)
    ensures Alive(s, obj) || obj == |s.classes|
  {
    var m := Move(s, t);
    if obj !in m.held {
      var u :| 0 <= u < |m.pcs| && Carries(m.pcs[u], obj);
      if u != t {
        assert Carries(s.pcs[u], obj);
      }
    }
  }

  lemma CreateKeeps(s: State, t: nat)
    requires Inv(s) && t < |s.pcs| && s.pcs[t].Creating?
    ensures Inv(Move(s, t))
  {
    var m, cls := Move(s, t), s.pcs[t].cls;
    MoveLocked(s, t);
    MoveTyped(s, t);
    assert Alone(s, s.pcs[t]);
    forall obj | Alive(m, obj)
      ensures (Registered(m, obj) || Arriving(m, obj)) && (Is(m, obj, cls) ==> obj == |s.classes|)
    {
      CreateBrings(s, t, obj);
      assert Alive(s, obj) ==> (Registered(s, obj) || Arriving(s, obj)) && !Is(s, obj, cls);
    }
    forall u | 0 <= u < |m.pcs| ensures Alone(m, m.pcs[u]) {
      if u != t && Writes(s.pcs[u]) {
        OneWriter(s, t, u);
      }
    }
  }

  lemma InsertKeeps(s: State, t: nat)
    requires Inv(s) && t < |s.pcs| && s.pcs[t].Inserting?
    ensures Inv(Move(s, t))
  {
    var m, cls, x := Move(s, t), s.pcs[t].cls, s.pcs[t].obj;
    MoveLocked(s, t);
    MoveTyped(s, t);
    assert Alone(s, s.pcs[t]);
    forall obj | Alive(m, obj) ensures Registered(m, obj) {
      InsertSame(s, t, obj);
      assert Registered(s, obj) || Arriving(s, obj);
      assert Is(s, obj, cls) ==> obj == x;
    }
    forall u | 0 <= u < |m.pcs| ensures Alone(m, m.pcs[u]) {
      if u != t && Writes(s.pcs[u]) {
        OneWriter(s, t, u);
      }
    }
  }

  lemma InsertSame(s: State, t: nat, obj: nat)
    requires t < |s.pcs| && s.pcs[t].Inserting? && Alive(Move(s, t), obj)
    ensures Alive(s, obj)
  {
    NoRevival(s, t, obj);
  }

  lemma RefsKeep(s: State, held: multiset<nat>)
    requires Inv(s) && forall obj :: obj in held ==> obj in s.held
    ensures Inv(s.(held := held))
  {
    var m := s.(held := held);
    forall obj | Alive(m, obj) ensures Alive(s, obj) {}
    forall u | 0 <= u < |m.pcs| ensures Alone(m, m.pcs[u]) {
      assert Alone(s, s.pcs[u]);
    }
  }

  lemma CallKeeps(s: State, t: nat, cls: string)
    requires Inv(s) && t < |s.pcs| && s.pcs[t].Outside?
    ensures Inv(Goto(s, t, WantsRead(cls)))
  {
    var m := Goto(s, t, WantsRead(cls));
    forall obj | Alive(m, obj) ensures Alive(s, obj) {
      if obj !in m.held {
        var u :| 0 <= u < |m.pcs| && Carries(m.pcs[u], obj);
        assert Carries(s.pcs[u], obj);
      }
    }
    forall u | 0 <= u < |m.pcs| ensures Alone(m, m.pcs[u]) {
      assert Alone(s, s.pcs[u]);
    }
  }

  lemma StepKeeps(s: State, e: Event)
    requires Inv(s)
    ensures Inv(Step(s, e))
  {
    if e.Advance? && e.t < |s.pcs| {
      match s.pcs[e.t]
      case Creating(_) => CreateKeeps(s, e.t);
      case Inserting(_, _) => InsertKeeps(s, e.t);
      case Reprobing(_) => ReprobeKeeps(s, e.t);
      case _ => PlainKeeps(s, e.t);
    } else if e.Call? && e.t < |s.pcs| && s.pcs[e.t].Outside? {
      CallKeeps(s, e.t, e.cls);
    } else if e.Copy? || e.Drop? {
      RefsKeep(s, Step(s, e).held);
    }
  }

  // ----- runs

  ghost predicate InvAt(threads: nat, events: seq<Event>, n: nat)
    requires n <= |events|
  {
    Inv(At(threads, events, n))
  }

  lemma StepAt(threads: nat, events: seq<Event>, n: nat)
    requires n < |events| && InvAt(threads, events, n)
    ensures InvAt(threads, events, n + 1)
  {
    StepKeeps(At(threads, events, n), events[n]);
  }

  lemma InitInv(threads: nat, events: seq<Event>)
    ensures InvAt(threads, events, 0)
  {}

  lemma RunKeeps(threads: nat, events: seq<Event>, n: nat)
    requires n <= |events|
    ensures InvAt(threads, events, n)
  {
    InitInv(threads, events);
    for i := 0 to n
      invariant InvAt(threads, events, i)
    {
      StepAt(threads, events, i);
    }
  }

  /**
   For any number of threads, in every interleaving, all strong references that are alive
   for one class point to one object.
   */
  lemma {:induction false} SharedIsUnique(threads: nat, events: seq<Event>, n: nat, a: nat, b: nat, cls: string)
    requires n <= |events|
    requires var s := At(threads, events, n); Alive(s, a) && Alive(s, b) && Is(s, a, cls) && Is(s, b, cls)
    ensures a == b
  {
    RunKeeps(threads, events, n);
    var s := At(threads, events, n);
    if Arriving(s, a) || Arriving(s, b) {
      assert Alone(s, s.pcs[s.writing.value]);
    }
  }

  /** A new object is created only when none of its class is alive. */
  lemma {:induction false} CreatedOnlyWhenNone(threads: nat, events: seq<Event>, n: nat, obj: nat)
    requires n < |events|
    requires var s := At(threads, events, n); |At(threads, events, n + 1).classes| > |s.classes| && Alive(s, obj)
    ensures var s, next := At(threads, events, n), At(threads, events, n + 1);
            |next.classes| == |s.classes| + 1 && obj < |s.classes| && s.classes[obj] != next.classes[|s.classes|]
  {
    RunKeeps(threads, events, n);
    var s, e := At(threads, events, n), events[n];
    assert e.Advance? && e.t < |s.pcs| && s.pcs[e.t].Creating?;
    assert Alone(s, s.pcs[e.t]);
  }

  /** Nobody reads the map while another thread may change it, and at most one may. */
  lemma {:induction false} LockExcludes(threads: nat, events: seq<Event>, n: nat, t: nat, u: nat)
    requires n <= |events|
    requires var s := At(threads, events, n); t < |s.pcs| && u < |s.pcs| && Writes(s.pcs[t])
    ensures var s := At(threads, events, n); !Reads(s.pcs[u]) && (Writes(s.pcs[u]) ==> u == t)
  {
    RunKeeps(threads, events, n);
  }

  /** A call that returns hands out the object that is alive for its class, and of that class. */
  lemma {:induction false} ReturnsTheShared(
    threads: nat, events: seq<Event>, n: nat, t: nat, cls: string, got: nat, other: nat)
    requires n <= |events|
    requires var s := At(threads, events, n);
             t < |s.pcs| && (s.pcs[t] == Probed(cls, Some(got)) || s.pcs[t] == Written(cls, got))
    ensures var s := At(threads, events, n);
            Is(s, got, cls) && (Alive(s, other) && Is(s, other, cls) ==> got == other)
  {
    RunKeeps(threads, events, n);
    var s := At(threads, events, n);
    assert Typed(s, s.pcs[t]) && Carries(s.pcs[t], got) && Alive(s, got);
    if Alive(s, other) && Is(s, other, cls) {
      SharedIsUnique(threads, events, n, got, other, cls);
    }
  }

  // ----- references handed out

  /** The event ends a call that hands out a reference to the object. */
  predicate HandsOut(s: State, e: Event, obj: nat) {
    e.Advance? && e.t < |s.pcs|
    && match s.pcs[e.t]
       case Probed(_, shared) => shared == Some(obj)
       case Written(_, o) => o == obj
       case _ => false
  }

  /** Strong references in the program come from calls that return and from copies, one each, and go one by one. */
  lemma HeldExact(s: State, e: Event, obj: nat)
    ensures Step(s, e).held[obj] ==
            if HandsOut(s, e, obj) || (e == Copy(obj) && obj in s.held) then s.held[obj] + 1
            else if e == Drop(obj) && obj in s.held then s.held[obj] - 1
            else s.held[obj]
  {}

  /** An object dies with its last reference: one that is dropped, with no call on the way to hand it out. */
  lemma DiesWithLast(s: State, e: Event, obj: nat)
    requires Alive(s, obj) && !Alive(Step(s, e), obj)
    ensures e == Drop(obj) && s.held[obj] == 1
  {
    if e != Drop(obj) {
      NotDropped(s, e, obj);
    }
    HeldExact(s, e, obj);
  }

  lemma NotDropped(s: State, e: Event, obj: nat)
    requires Alive(s, obj) && e != Drop(obj)
    ensures Alive(Step(s, e), obj)
  {
    if e.Advance? && e.t < |s.pcs| {
      StillAlive(s, e.t, obj);
    } else if obj !in s.held {
      var u :| 0 <= u < |s.pcs| && Carries(s.pcs[u], obj);
      assert Carries(Step(s, e).pcs[u], obj);
    } else {
      HeldExact(s, e, obj);
    }
  }

  lemma StillAlive(s: State, t: nat, obj: nat)
    requires t < |s.pcs| && Alive(s, obj)
    ensures Alive(Move(s, t), obj)
  {
    var m := Move(s, t);
    if obj !in s.held {
      var u :| 0 <= u < |s.pcs| && Carries(s.pcs[u], obj);
      if u != t {
        assert Carries(m.pcs[u], obj);
      } else {
        assert obj in m.held || Carries(m.pcs[t], obj);
      }
    }
  }
}
