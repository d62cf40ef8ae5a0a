/** Who deletes a native object that has a Java proxy: the native side holds one reference to the
    proxy, weak while Java owns the object and strong while the native side does, and a flag of the
    proxy says who owns it. */
module DirectorOwnership {
  import opened Wrappers

  datatype Kind = Weak | Strong

  /** The proxy (`ptr`: its pointer is not null; `own`: `swigCMemOwn`), the native object (`jthis`,
      `weak`: the wrapper's reference and flag), and the references of the Java VM. `faults` counts
      deletes of a reference that is not live or of another kind, and uses of the native object
      after its destruction; `destroyed` counts destructor runs. */
  datatype State = State(ptr: bool, own: bool, alive: bool, jthis: Option<nat>, weak: bool,
                         live: map<nat, Kind>, issued: nat, faults: nat, destroyed: nat)

  // ---------- the wrapper ----------

  function WithNewRef(s: State, kind: Kind): State {
    s.(jthis := Some(s.issued), live := s.live[s.issued := kind], issued := s.issued + 1)
  }

  function WithoutRef(s: State, kind: Kind): State {
    if s.jthis.Some? && s.jthis.value in s.live && s.live[s.jthis.value] == kind
    then s.(live := s.live - {s.jthis.value})
    else s.(faults := s.faults + 1)
  }

  /** `JObjectWrapper.set`, on a proxy that is not null. */
  function AfterSet(s: State, memOwn: bool, weakGlobal: bool): State {
    if s.jthis.Some? then s
    else WithNewRef(s.(weak := weakGlobal), if weakGlobal || !memOwn then Weak else Strong)
  }

  function AfterRelease(s: State): State {
    var s' := if s.jthis.None? then s else WithoutRef(s, if s.weak then Weak else Strong);
    s'.(jthis := None, weak := true)
  }

  function AfterChange(s: State, take: bool): State {
    if take == s.weak then s
    else
      var s' := WithoutRef(s, if s.weak then Weak else Strong);
      WithNewRef(s'.(weak := take), if take then Weak else Strong)
  }

  // ---------- both sides ----------

  /** The destructor: the proxy forgets the object, then the reference is released. */
  function AfterDestroy(s: State): State {
    if !s.alive then s.(faults := s.faults + 1)
    else
      var s' := if s.jthis.Some? then s.(own := false, ptr := false) else s;
      AfterRelease(s').(alive := false, destroyed := s.destroyed + 1)
  }

  function AfterDelete(s: State): State {
    if !s.ptr then s
    else if s.own then AfterDestroy(s.(own := false)).(ptr := false)
    else s.(ptr := false)
  }

  /** Taking or giving up ownership. A null pointer reaches no native object. */
  function AfterOwnership(s: State, take: bool): State {
    var s' := s.(own := take);
    if !s.ptr then s' else if !s.alive then s'.(faults := s.faults + 1) else AfterChange(s', take)
  }

  /** The constructor: a new native object, connected with a weak reference. */
  const CONSTRUCTED: State := AfterSet(State(true, true, true, None, true, map[], 0, 0, 0), true, true)

  datatype Event = Take | GiveUp | Delete | NativeDestroy

  function Step(s: State, e: Event): State {
    match e
    case Take => AfterOwnership(s, true)
    case GiveUp => AfterOwnership(s, false)
    case Delete => AfterDelete(s)
    case NativeDestroy => AfterDestroy(s)
  }

  /** The native side destroys an object once. */
  predicate Possible(s: State, e: Event) {
    e.NativeDestroy? ==> s.alive
  }

  // ---------- the two objects ----------

  class Director {
    var ptr: bool
    var own: bool
    var alive: bool
    var jthis: Option<nat>
    var weak: bool
    var live: map<nat, Kind>
    var issued: nat
    var faults: nat
    var destroyed: nat

    ghost function Now(): State
      reads this
    {
      State(ptr, own, alive, jthis, weak, live, issued, faults, destroyed)
    }

    constructor ()
      ensures Now() == CONSTRUCTED
    {
      ptr, own, alive, jthis, weak := true, true, true, None, true;
      live, issued, faults, destroyed := map[], 0, 0, 0;
      new;
      Set(true, true);
    }

    method NewRef(kind: Kind) returns (r: Option<nat>)
      modifies this`live, this`issued
      ensures r == Some(old(issued)) && live == old(live)[old(issued) := kind] && issued == old(issued) + 1
    {
      r := Some(issued);
      live := live[issued := kind];
      issued := issued + 1;
    }

    method DeleteRef(kind: Kind)
      modifies this`live, this`faults
      ensures Now() == WithoutRef(old(Now()), kind)
    {
      if jthis.Some? && jthis.value in live && live[jthis.value] == kind {
        live := live - {jthis.value};
      } else {
        faults := faults + 1;
      }
    }

    method Set(memOwn: bool, weakGlobal: bool)
      modifies this
      ensures Now() == AfterSet(old(Now()), memOwn, weakGlobal)
    {
      if jthis.None? {
        weak := weakGlobal;
        jthis := NewRef(if weak || !memOwn then Weak else Strong);
      }
    }

    method Release()
      modifies this
      ensures Now() == AfterRelease(old(Now()))
    {
      if jthis.Some? {
        if weak {
          DeleteRef(Weak);
        } else {
          DeleteRef(Strong);
        }
      }
      jthis := None;
      weak := true;
    }

    method ChangeOwnership(take: bool)
      modifies this
      ensures Now() == AfterChange(old(Now()), take)
    {
      if take {
        if !weak {
          DeleteRef(Strong);
          jthis := NewRef(Weak);
          weak := true;
        }
      } else {
        if weak {
          DeleteRef(Weak);
          jthis := NewRef(Strong);
          weak := false;
        }
      }
    }

    /** The native destructor calls back into the proxy, which calls `DeleteProxy` again. */
    method Destroy()
      modifies this
      ensures Now() == AfterDestroy(old(Now()))
      decreases own, 3
    {
      if !alive {
        faults := faults + 1;
        return;
      }
      if jthis.Some? {
        Disconnect();
      }
      Release();
      alive := false;
      destroyed := destroyed + 1;
    }

    method Disconnect()
      modifies this
      ensures Now() == old(Now()).(own := false, ptr := false)
      decreases own, 2
    {
      own := false;
      DeleteProxy();
    }

    method DeleteProxy()
      modifies this
      ensures Now() == AfterDelete(old(Now()))
      decreases own, 1
    {
      if ptr {
        if own {
          own := false;
          Destroy();
        }
        ptr := false;
      }
    }

    method SetOwnership(take: bool)
      modifies this
      ensures Now() == AfterOwnership(old(Now()), take)
    {
      own := take;
      if ptr {
        if alive {
          ChangeOwnership(take);
        } else {
          faults := faults + 1;
        }
      }
    }
  }

  // ---------- every run ----------

  /** One reference while the object lives, of the kind its flag says, none after; a proxy with a
      pointer owns the object exactly when the reference is weak; nothing has gone wrong. */
  ghost predicate Inv(s: State) {
    && s.faults == 0
    && (s.alive ==> s.destroyed == 0 && s.jthis.Some? && s.jthis.value < s.issued
                    && s.live == map[s.jthis.value := if s.weak then Weak else Strong])
    && (!s.alive ==> s.destroyed == 1 && s.jthis.None? && s.live == map[] && !s.ptr)
    && (s.ptr ==> (s.own <==> s.weak))
    && (s.alive && !s.ptr ==> !s.weak)
  }

  lemma ChangeKeepsInv(s: State, take: bool)
    requires Inv(s) && s.alive && s.ptr
    ensures Inv(AfterOwnership(s, take)) && AfterOwnership(s, take).alive
  {
    var s' := AfterOwnership(s, take);
    if take != s.weak {
      assert s.live - {s.jthis.value} == map[];
      assert s'.live == map[s.issued := if take then Weak else Strong];
    }
  }

  lemma DestroyKeepsInv(s: State)
    requires Inv(s) && s.alive
    ensures Inv(AfterDestroy(s)) && AfterDestroy(s).destroyed == 1 && !AfterDestroy(s).alive
  {
    assert s.live - {s.jthis.value} == map[];
  }

  lemma StepKeepsInv(s: State, e: Event)
    requires Inv(s) && Possible(s, e)
    ensures Inv(Step(s, e))
    ensures s.destroyed <= Step(s, e).destroyed
  {
    match e {
      case Take => if s.ptr { ChangeKeepsInv(s, true); }
      case GiveUp => if s.ptr { ChangeKeepsInv(s, false); }
      case Delete =>
        if s.ptr && s.own {
          assert s.live - {s.jthis.value} == map[];
        }
      case NativeDestroy => DestroyKeepsInv(s);
    }
  }

  function Run(s: State, events: seq<Event>): State
    decreases |events|
  {
    if events == [] then s else Run(Step(s, events[0]), events[1..])
  }

  predicate PossibleRun(s: State, events: seq<Event>)
    decreases |events|
  {
    events == [] || (Possible(s, events[0]) && PossibleRun(Step(s, events[0]), events[1..]))
  }

  lemma {:induction false} RunKeepsInv(s: State, events: seq<Event>)
    requires Inv(s) && PossibleRun(s, events)
    ensures Inv(Run(s, events))
    decreases |events|
  {
    if events != [] {
      StepKeepsInv(s, events[0]);
      RunKeepsInv(Step(s, events[0]), events[1..]);
    }
  }

  /** Over every run from the constructor: at most one live reference, of the kind the flag says; no
      wrong delete; the object is destroyed once if at all, and leaves no reference behind. */
  lemma OwnershipIsSafe(events: seq<Event>)
    requires PossibleRun(CONSTRUCTED, events)
    ensures (var s := Run(CONSTRUCTED, events);
             && s.faults == 0 && |s.live| <= 1 && s.destroyed == (if s.alive then 0 else 1)
             && (s.alive ==> s.jthis.Some? && s.jthis.value in s.live
                             && s.live[s.jthis.value] == if s.weak then Weak else Strong)
             && (!s.alive ==> s.live == map[] && !s.ptr)
             && (s.ptr ==> (s.own <==> s.weak)))
  {
    RunKeepsInv(CONSTRUCTED, events);
  }

  /** A proxy that no strong reference holds can be collected, and its finalizer deletes it first.
      That destroys the object while the proxy still exists, so no weak reference is ever left to a
      proxy that is gone. */
  lemma NoStaleReference(events: seq<Event>)
    requires PossibleRun(CONSTRUCTED, events)
    requires var s := Run(CONSTRUCTED, events); Strong !in s.live.Values
    ensures (var s := AfterDelete(Run(CONSTRUCTED, events));
             !s.alive && s.live == map[] && s.faults == 0 && s.destroyed == 1)
  {
    RunKeepsInv(CONSTRUCTED, events);
    var s := Run(CONSTRUCTED, events);
    StepKeepsInv(s, Delete);
    if s.alive {
      assert s.live[s.jthis.value] in s.live.Values;
    }
  }

  /** What `set` leaves agrees with its flag exactly when the flag is weak or Java owns the object. A
      strong flag without ownership gets a weak reference, and its release goes wrong. */
  lemma SetAgreesExactly(s: State, memOwn: bool, weakGlobal: bool)
    requires s.jthis.None? && s.faults == 0
    ensures (var s' := AfterSet(s, memOwn, weakGlobal);
             && s'.jthis.Some? && s'.jthis.value in s'.live
             && (s'.live[s'.jthis.value] == (if s'.weak then Weak else Strong) <==> weakGlobal || memOwn))
    ensures AfterRelease(AfterSet(s, memOwn, weakGlobal)).faults == 0 <==> weakGlobal || memOwn
  {
  }

  // ---------- who owns the object ----------

  /** Taking and giving up: Java owns the object and the reference is weak, or neither. */
  lemma OwnershipMoves(s: State)
    requires Inv(s) && s.ptr
    ensures (var s' := Step(s, Take);
             s'.own && s'.weak && s'.ptr && s'.alive && s'.live.Values == {Weak} && s'.destroyed == s.destroyed)
    ensures (var s' := Step(s, GiveUp);
             !s'.own && !s'.weak && s'.ptr && s'.alive && s'.live.Values == {Strong} && s'.destroyed == s.destroyed)
  {
    ChangeKeepsInv(s, true);
    ChangeKeepsInv(s, false);
    OnlyReference(Step(s, Take));
    OnlyReference(Step(s, GiveUp));
  }

  lemma OnlyReference(s: State)
    requires Inv(s) && s.alive
    ensures s.live.Values == {if s.weak then Weak else Strong}
  {
    var kind := if s.weak then Weak else Strong;
    assert s.live[s.jthis.value] == kind;
  }

  /** A delete by Java destroys the object exactly when Java owns it through the pointer; otherwise
      the native side keeps object and reference. Either way the pointer is gone. */
  lemma DeleteExactly(s: State)
    requires Inv(s)
    ensures (var s' := Step(s, Delete);
             && !s'.ptr
             && (s'.alive <==> s.alive && !(s.ptr && s.own))
             && s'.destroyed == s.destroyed + (if s.ptr && s.own then 1 else 0)
             && (!(s.ptr && s.own) ==> s'.live == s.live && s'.jthis == s.jthis))
  {
  }

  /** Destruction by the native side takes pointer and ownership from Java first. */
  lemma NativeDestroyExactly(s: State)
    requires Inv(s) && s.alive
    ensures (var s' := Step(s, NativeDestroy);
             !s'.ptr && !s'.own && !s'.alive && s'.live == map[] && s'.destroyed == s.destroyed + 1 && s'.faults == 0)
  {
    DestroyKeepsInv(s);
  }

  /** Who was said to own the object last; Java does at first. */
  function LastSaid(events: seq<Event>): bool {
    if events == [] then true
    else
      match events[|events| - 1]
      case Take => true
      case GiveUp => false
      case _ => LastSaid(events[..|events| - 1])
  }

  lemma {:induction false} RunLast(s: State, events: seq<Event>, e: Event)
    requires PossibleRun(s, events + [e])
    ensures PossibleRun(s, events) && Possible(Run(s, events), e)
    ensures Run(s, events + [e]) == Step(Run(s, events), e)
    decreases |events|
  {
    if events == [] {
      assert events + [e] == [e];
      assert Run(Step(s, e), []) == Step(s, e) && [e][1..] == [];
    } else {
      assert (events + [e])[1..] == events[1..] + [e];
      RunLast(Step(s, events[0]), events[1..], e);
    }
  }

  /** Over every run, as long as the proxy has its pointer, the owner is who was said last; and the
      proxy has it as long as nobody deletes. */
  lemma {:induction false} OwnerIsLastSaid(events: seq<Event>)
    requires PossibleRun(CONSTRUCTED, events)
    ensures (var s := Run(CONSTRUCTED, events); s.ptr ==> s.own == LastSaid(events) == s.weak)
    ensures Delete !in events && NativeDestroy !in events ==>
              Run(CONSTRUCTED, events).ptr && Run(CONSTRUCTED, events).destroyed == 0
    decreases |events|
  {
    if events != [] {
      var before, e := events[..|events| - 1], events[|events| - 1];
      assert events == before + [e];
      RunLast(CONSTRUCTED, before, e);
      RunKeepsInv(CONSTRUCTED, before);
      OwnerIsLastSaid(before);
      var s := Run(CONSTRUCTED, before);
      hide Run, Inv, PossibleRun;
      StepKeepsInv(s, e);
      LastStep(s, e, LastSaid(before));
    }
  }

  lemma LastStep(s: State, e: Event, said: bool)
    requires Inv(s) && Possible(s, e) && (s.ptr ==> s.own == said == s.weak)
    ensures (var s' := Step(s, e);
             && (s'.ptr ==> s.ptr && s'.own == (if e.Take? then true else if e.GiveUp? then false else said) == s'.weak)
             && (e.Take? || e.GiveUp? ==> s'.ptr == s.ptr && s'.destroyed == s.destroyed))
  {
    if s.ptr {
      OwnershipMoves(s);
    }
    DeleteExactly(s);
    if s.alive {
      NativeDestroyExactly(s);
    }
  }
}
