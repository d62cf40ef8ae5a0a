/** A session id on its way through a scenario: a command stores it in a parameter, a later command
    names the parameter in its `--sid` option and gets the same session back. */
module SessionIds {
  import opened Wrappers
  import opened Text
  import opened DsslParams
  import opened Sessions

  function Reference(name: string): string {
    "$$(" + name + ")"
  }

  lemma ReferenceIsWhole(name: string)
    requires name != "" && ')' !in name
    ensures FirstReference(Reference(name)) == Some(Cut(0, |name| + 4, name))
  {
    var s := Reference(name);
    ReferenceHead(name);
    assert s[0..] == s && MarkAt(s, 0);
    hide Head, Reference;
  }

  lemma ReferenceHead(name: string)
    requires ')' !in name
    ensures (var s := Reference(name); |s| >= 2 && s[0] == s[1] == '$' && Head(s) == (name, |name| + 4))
  {
    var s := Reference(name);
    ReferenceParts(name);
    FindAfter("$$", "(" + name + ")", '(');
    FindAfter("(" + name, ")", ')');
    hide Reference;
  }

  lemma ReferenceParts(name: string)
    ensures (var s := Reference(name);
             && s == "$$" + ("(" + name + ")") && |s| == |name| + 4
             && s[2..] == "(" + name + ")" && s[3..3 + |name|] == name)
  {
  }

  lemma DigitsNeedNoStep(s: string, params: seq<Param>)
    requires AllDigits(s)
    ensures Replaced(s, params) == None
  {
  }

  /** The loop replaces the reference once and is done. */
  lemma ReferenceIsReplaced(name: string, value: string, params: seq<Param>)
    requires name != "" && ')' !in name && ValueOf(params, name) == Some(value) && value != "" && AllDigits(value)
    ensures Replaced(Reference(name), params) == Some(value) && Replaced(value, params) == None
  {
    var s, cut := Reference(name), Cut(0, |name| + 4, name);
    ReferenceIsWhole(name);
    DigitsNeedNoStep(value, params);
    hide FirstReference, ValueOf;
    assert Before(s, cut) == "" && After(s, cut) == "";
    assert "" + value + "" == value;
  }

  /** With the id of a live session stored in an existing parameter, `--sid $$(name)` finds that
      session, as long as ids stay below 2^31. */
  lemma StoredSidFindsSession(w: World, id: nat, params: seq<Param>, name: string)
    requires Inv(w) && id in Ids(w.sessions) && w.issued < 0x8000_0000
    requires name != "" && ')' !in name && ValueOf(params, name) == Some(Decimal(id))
    ensures (var value := Replaced(Reference(name), params);
             && value.Some? && Replaced(value.value, params) == None
             && Sid(value.value) == id
             && Lookup(w.sessions, Sid(value.value)).Some?
             && w.sessions[Lookup(w.sessions, Sid(value.value)).value].id == id)
  {
    ReferenceIsReplaced(name, Decimal(id), params);
    SidOfDecimal(w, id);
    hide *;
    LookupIsExact(w, id);
  }

  lemma SidOfDecimal(w: World, id: nat)
    requires Inv(w) && id in Ids(w.sessions) && w.issued < 0x8000_0000
    ensures Sid(Decimal(id)) == id < ID_MODULUS && w.issued < ID_MODULUS
  {
    AtoiOfDecimal(id);
    hide Decimal, Atoi;
  }

  /** A later command with that option works on the session and leaves the table alone. */
  lemma StoredSidReachesSession(w: World, cmd: Command, id: nat, params: seq<Param>, name: string)
    requires Inv(w) && id in Ids(w.sessions) && w.issued < 0x8000_0000
    requires name != "" && ')' !in name && ValueOf(params, name) == Some(Decimal(id))
    ensures Replaced(Reference(name), params).Some?
    ensures OnCommand(w, cmd, Replaced(Reference(name), params)) == (w, id)
  {
    StoredSidFindsSession(w, id, params, name);
  }

  /** Whatever happens between storing and using, as long as no termination event matches the
      session and ids stay below 2^31. */
  lemma StoredSidSurvives(w: World, events: seq<Event>, cmd: Command, id: nat, params: seq<Param>, name: string)
    requires Inv(w) && PossibleRun(w, events) && id in Ids(w.sessions)
    requires Run(w, events).issued < 0x8000_0000 && forall e :: e in events ==> !Terminates(e, id)
    requires name != "" && ')' !in name && ValueOf(params, name) == Some(Decimal(id))
    ensures Replaced(Reference(name), params).Some?
    ensures OnCommand(Run(w, events), cmd, Replaced(Reference(name), params)) == (Run(w, events), id)
  {
    hide *;
    RunKeepsInv(w, events);
    LiveStays(w, events, id);
    StoredSidReachesSession(Run(w, events), cmd, id, params, name);
  }

  /** The rewriting loop ends on the reference, with the value and nothing else. */
  lemma RewrittenReference(params: seq<Param>, name: string, value: string)
    requires name != "" && ')' !in name && ValueOf(params, name) == Some(value) && value != "" && AllDigits(value)
    ensures Ends(Reference(name), params)
    ensures forall r :: Reaches(Reference(name), params, r) && Replaced(r, params) == None ==> r == value
  {
    var s := Reference(name);
    ReferenceIsReplaced(name, value, params);
    hide Replaced, ValueOf, Reference;
    assert Turned(value, params, 0) == Some(value) && Turned(value, params, 1) == None;
    assert Turned(s, params, 1) == Some(value) && Turned(s, params, 2) == None;
    forall r | Reaches(s, params, r) && Replaced(r, params) == None
      ensures r == value
    {
      var k: nat :| Turned(s, params, k) == Some(r);
      EndIsUnique(s, params, k, r, 1, value);
    }
  }

  method UseSid(context: Context, cmd: Command, params: seq<Param>, name: string, ghost id: nat) returns (id': nat)
    requires Inv(context.State()) && id in Ids(context.sessions) && context.issued < 0x8000_0000
    requires name != "" && ')' !in name && ValueOf(params, name) == Some(Decimal(id))
    modifies context
    ensures id' == id && context.State() == old(context.State())
  {
    StoredSidReachesSession(context.State(), cmd, id, params, name);
    ReferenceIsReplaced(name, Decimal(id), params);
    RewrittenReference(params, name, Decimal(id));
    hide *;
    var sid := ReplaceParams(Reference(name), params);
    id' := context.HandleCommand(cmd, Some(sid));
  }

  /** The whole way: the first command gets a session, its id is stored, and the reference in the
      second command is replaced and leads back to the same session. */
  method StoreAndUse(context: Context, first: Command, second: Command, params: seq<Param>, name: string)
    returns (id: nat, id': nat, params': seq<Param>)
    requires Inv(context.State()) && context.issued + 1 < 0x8000_0000
    requires name != "" && ')' !in name && ValueOf(params, name).Some? && !first.InDialog?
    modifies context
    ensures id == id' != 0 && ValueOf(params', name) == Some(Decimal(id))
    ensures context.State() == OnCommand(old(context.State()), first, None).0
  {
    ghost var w0 := context.State();
    CommandHasSession(w0, first, None);
    StepChanges(w0, Commanded(first, None));
    FirstIssues(w0, first);
    hide *;
    id := context.HandleCommand(first, None);
    var ret;
    params', ret := UpdateParam(params, name, Decimal(id));
    id' := UseSid(context, second, params', name, id);
  }

  lemma FirstIssues(w: World, cmd: Command)
    ensures OnCommand(w, cmd, None).0.issued <= w.issued + 1
    ensures Sessions.Step(w, Commanded(cmd, None)) == OnCommand(w, cmd, None).0
  {
  }
}
