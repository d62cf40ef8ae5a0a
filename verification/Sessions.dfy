/** The session table of the demo application: commands and incoming calls and messages add
    sessions, dialog events remove them, and a lookup compares ids modulo 2^32. */
module Sessions {
  import opened Wrappers
  import opened Text

  const ID_MODULUS: nat := 0x1_0000_0000
  const SID_MODULUS: nat := 0x1_0000_0000_0000_0000

  datatype Kind = InviteSession | MessageSession | OptionsSession | PublishSession
                | RegisterSession | SubscribeSession

  datatype Session = Session(id: nat, kind: Kind, connected: bool)

  /** The commands that can create a session, and all the others. */
  datatype Command = Audio | Video | AudioVideo | File | LargeMessage | Message | Sms
                   | Options | Publish | Register | Subscribe | InDialog

  function KindOf(cmd: Command): Option<Kind> {
    match cmd
    case Audio | Video | AudioVideo | File | LargeMessage => Some(InviteSession)
    case Message | Sms => Some(MessageSession)
    case Options => Some(OptionsSession)
    case Publish => Some(PublishSession)
    case Register => Some(RegisterSession)
    case Subscribe => Some(SubscribeSession)
    case InDialog => None
  }

  datatype Dialog = Terminated | Connected | OtherDialog

  /** A command carries the text of its `--sid` option; an event of the stack carries the id of its
      session. The stack creates a session of its own for every call or message that comes in. */
  datatype Event = Commanded(cmd: Command, sid: Option<string>)
                 | StackCreates
                 | InviteEvent(id: nat, newCall: bool)
                 | MessageEvent(id: nat)
                 | DialogEvent(id: nat, dialog: Dialog)

  /** The table, the last id the stack gave out, and the ids whose session the application owns. */
  datatype World = World(sessions: seq<Session>, issued: nat, owned: set<nat>)

  const START: World := World([], 0, {})

  // ---------- the table ----------

  /** `pred_find_session_by_id`: the difference, cut down to an `int`, is zero. */
  predicate Matches(s: Session, sid: nat) {
    (s.id - sid) % ID_MODULUS == 0
  }

  /** The first session that matches. */
  function Lookup(sessions: seq<Session>, sid: nat): (r: Option<nat>)
    ensures r.Some? ==> r.value < |sessions| && Matches(sessions[r.value], sid)
    ensures forall j :: 0 <= j < (if r.Some? then r.value else |sessions|) ==> !Matches(sessions[j], sid)
  {
    if sessions == [] then None
    else if Matches(sessions[0], sid) then Some(0)
    else
      match Lookup(sessions[1..], sid)
      case None => None
      case Some(i) => Some(i + 1)
  }

  /** `atoi` of an option value, as an unsigned 64-bit id. */
  function Sid(value: string): nat {
    Atoi(value) % SID_MODULUS
  }

  // ---------- one step ----------

  /** The session a command works on, 0 when there is none. */
  function OnCommand(w: World, cmd: Command, sid: Option<string>): (World, nat) {
    var found := if sid.None? then None else Lookup(w.sessions, Sid(sid.value));
    if found.Some? then (w, w.sessions[found.value].id)
    else if KindOf(cmd).None? then (w, 0)
    else
      var id := w.issued + 1;
      (World(w.sessions + [Session(id, KindOf(cmd).value, false)], id, w.owned + {id}), id)
  }

  function Adopted(w: World, id: nat, kind: Kind): World {
    World(w.sessions + [Session(id, kind, false)], w.issued, w.owned + {id})
  }

  function OnInvite(w: World, id: nat, newCall: bool): (World, int) {
    if Lookup(w.sessions, id).Some? then (w, 0)
    else if !newCall then (w, -2)
    else if id in w.owned then (w, 0)
    else (Adopted(w, id, InviteSession), 0)
  }

  function OnMessage(w: World, id: nat): (World, int) {
    if Lookup(w.sessions, id).Some? then (w, 0)
    else if id in w.owned then (w, -2)
    else (Adopted(w, id, MessageSession), 0)
  }

  function OnDialog(w: World, id: nat, dialog: Dialog): World {
    match Lookup(w.sessions, id)
    case None => w
    case Some(i) =>
      match dialog
      case Terminated => w.(sessions := w.sessions[..i] + w.sessions[i + 1..])
      case Connected => w.(sessions := w.sessions[i := w.sessions[i].(connected := true)])
      case OtherDialog => w
  }

  function Step(w: World, e: Event): World {
    match e
    case Commanded(cmd, sid) => OnCommand(w, cmd, sid).0
    case StackCreates => w.(issued := w.issued + 1)
    case InviteEvent(id, newCall) => OnInvite(w, id, newCall).0
    case MessageEvent(id) => OnMessage(w, id).0
    case DialogEvent(id, dialog) => OnDialog(w, id, dialog)
  }

  // ---------- the context ----------

  class Context {
    var sessions: seq<Session>
    var issued: nat
    var owned: set<nat>

    constructor ()
      ensures State() == START
    {
      sessions, issued, owned := [], 0, {};
    }

    ghost function State(): World
      reads this
    {
      World(sessions, issued, owned)
    }

    method GetBySid(sid: nat) returns (r: Option<nat>)
      ensures r == Lookup(sessions, sid)
    {
      var i: nat := 0;
      assert sessions[0..] == sessions;
      while i < |sessions|
        invariant i <= |sessions|
        invariant forall j :: 0 <= j < i ==> !Matches(sessions[j], sid)
      {
        if Matches(sessions[i], sid) {
          LookupIs(sessions, sid, Some(i));
          return Some(i);
        }
        i := i + 1;
      }
      LookupIs(sessions, sid, None);
      r := None;
    }

    /** The session a command works on; the caller then applies its options to it. */
    method HandleCommand(cmd: Command, sid: Option<string>) returns (id: nat)
      modifies this
      ensures (State(), id) == OnCommand(old(State()), cmd, sid)
    {
      var found: Option<nat> := None;
      if sid.Some? {
        found := GetBySid(Sid(sid.value));
      }
      if found.Some? {
        return sessions[found.value].id;
      }
      match KindOf(cmd) {
        case None =>
          id := 0;
        case Some(kind) =>
          issued := issued + 1;
          id := issued;
          owned := owned + {id};
          sessions := sessions + [Session(id, kind, false)];
      }
    }

    method HandleInvite(id: nat, newCall: bool) returns (ret: int)
      modifies this
      ensures (State(), ret) == OnInvite(old(State()), id, newCall)
    {
      ret := 0;
      var found := GetBySid(id);
      if found.None? {
        if newCall {
          if id !in owned {
            owned := owned + {id};
            sessions := sessions + [Session(id, InviteSession, false)];
          }
        } else {
          ret := -2;
        }
      }
    }

    method HandleMessage(id: nat) returns (ret: int)
      modifies this
      ensures (State(), ret) == OnMessage(old(State()), id)
    {
      ret := 0;
      var found := GetBySid(id);
      if found.None? {
        if id in owned {
          ret := -2;
        } else {
          owned := owned + {id};
          sessions := sessions + [Session(id, MessageSession, false)];
        }
      }
    }

    method HandleDialog(id: nat, dialog: Dialog)
      modifies this
      ensures State() == OnDialog(old(State()), id, dialog)
    {
      var found := GetBySid(id);
      if found.None? {
        return;
      }
      var i := found.value;
      match dialog {
        case Terminated =>
          sessions := sessions[..i] + sessions[i + 1..];
        case Connected =>
          sessions := sessions[i := sessions[i].(connected := true)];
        case OtherDialog =>
      }
    }
  }

  lemma {:induction false} LookupIs(sessions: seq<Session>, sid: nat, r: Option<nat>)
    requires r.Some? ==> r.value < |sessions| && Matches(sessions[r.value], sid)
    requires forall j :: 0 <= j < (if r.Some? then r.value else |sessions|) ==> !Matches(sessions[j], sid)
    ensures Lookup(sessions, sid) == r
  {
    var l := Lookup(sessions, sid);
    hide Lookup, Matches;
    if l.Some? && r.Some? {
      assert l.value <= r.value && r.value <= l.value;
    }
  }

  // ---------- every run ----------

  predicate Distinct(sessions: seq<Session>) {
    forall i, j :: 0 <= i < j < |sessions| ==> sessions[i].id != sessions[j].id
  }

  function Ids(sessions: seq<Session>): set<nat> {
    set s | s in sessions :: s.id
  }

  /** Ids in the table are distinct and owned; owned ids have been given out. */
  ghost predicate Inv(w: World) {
    && Distinct(w.sessions)
    && Ids(w.sessions) <= w.owned
    && (forall id :: id in w.owned ==> 1 <= id <= w.issued)
  }

  /** An event of the stack is about a session the stack created. */
  predicate Possible(w: World, e: Event) {
    e.InviteEvent? || e.MessageEvent? || e.DialogEvent? ==> 1 <= e.id <= w.issued
  }

  function Run(w: World, events: seq<Event>): World
    decreases |events|
  {
    if events == [] then w else Run(Step(w, events[0]), events[1..])
  }

  predicate PossibleRun(w: World, events: seq<Event>)
    decreases |events|
  {
    events == [] || (Possible(w, events[0]) && PossibleRun(Step(w, events[0]), events[1..]))
  }

  /** What a step can do to the ids in the table. */
  lemma StepChanges(w: World, e: Event)
    requires Inv(w) && Possible(w, e)
    ensures Inv(Step(w, e))
    ensures w.issued <= Step(w, e).issued && w.owned <= Step(w, e).owned
    ensures forall id :: id in Ids(Step(w, e).sessions) ==> id in Ids(w.sessions) || id !in w.owned
  {
    hide Lookup, Matches, Inv, Ids;
    match e {
      case Commanded(cmd, sid) =>
        MoreIssued(w);
        if OnCommand(w, cmd, sid).0 != w {
          AddedKeepsInv(w, w.issued + 1, w.issued + 1, KindOf(cmd).value);
        }
      case StackCreates =>
        MoreIssued(w);
      case InviteEvent(id, newCall) =>
        if OnInvite(w, id, newCall).0 != w {
          AddedKeepsInv(w, id, w.issued, InviteSession);
        }
      case MessageEvent(id) =>
        if OnMessage(w, id).0 != w {
          AddedKeepsInv(w, id, w.issued, MessageSession);
        }
      case DialogEvent(id, dialog) =>
        DialogKeepsInv(w, id, dialog);
    }
  }

  lemma MoreIssued(w: World)
    requires Inv(w)
    ensures Inv(w.(issued := w.issued + 1)) && w.issued + 1 !in w.owned
  {
  }

  lemma DialogKeepsInv(w: World, id: nat, dialog: Dialog)
    requires Inv(w)
    ensures (var w' := OnDialog(w, id, dialog);
             Inv(w') && w'.issued == w.issued && w'.owned == w.owned && Ids(w'.sessions) <= Ids(w.sessions))
  {
    var i := Lookup(w.sessions, id);
    hide Lookup, Matches, Ids, Distinct;
    if i.Some? {
      RemovedKeepsIds(w.sessions, i.value);
      ConnectedKeepsIds(w.sessions, i.value);
    }
  }

  lemma AddedKeepsInv(w: World, id: nat, issued: nat, kind: Kind)
    requires Inv(w) && id !in w.owned && 1 <= id <= issued && w.issued <= issued
    ensures (var w' := World(w.sessions + [Session(id, kind, false)], issued, w.owned + {id});
             Inv(w') && Ids(w'.sessions) == Ids(w.sessions) + {id})
  {
    var added := w.sessions + [Session(id, kind, false)];
    assert Session(id, kind, false) in added;
    forall s | s in w.sessions
      ensures s.id != id && s in added
    {
      assert s.id in Ids(w.sessions);
    }
  }

  lemma RemovedKeepsIds(sessions: seq<Session>, i: nat)
    requires i < |sessions| && Distinct(sessions)
    ensures Distinct(sessions[..i] + sessions[i + 1..])
    ensures Ids(sessions[..i] + sessions[i + 1..]) == Ids(sessions) - {sessions[i].id}
  {
    var rest := sessions[..i] + sessions[i + 1..];
    forall s | s in sessions && s.id != sessions[i].id
      ensures s in rest
    {
      var j :| 0 <= j < |sessions| && sessions[j] == s;
      assert s == if j < i then rest[j] else rest[j - 1];
    }
    forall s | s in rest
      ensures s in sessions && s.id != sessions[i].id
    {
    }
  }

  lemma ConnectedKeepsIds(sessions: seq<Session>, i: nat)
    requires i < |sessions| && Distinct(sessions)
    ensures (var changed := sessions[i := sessions[i].(connected := true)];
             Distinct(changed) && Ids(changed) == Ids(sessions))
  {
    var changed := sessions[i := sessions[i].(connected := true)];
    assert changed[i] in changed;
    forall s | s in sessions
      ensures s.id in Ids(changed)
    {
      var j :| 0 <= j < |sessions| && sessions[j] == s;
      assert changed[j] in changed;
    }
    forall s | s in changed
      ensures s.id in Ids(sessions)
    {
      var j :| 0 <= j < |changed| && changed[j] == s;
      assert sessions[j] in sessions;
    }
  }

  /** Over every run the ids in the table stay distinct, owned and given out, and no id comes back
      once its session is gone. */
  lemma {:induction false} RunKeepsInv(w: World, events: seq<Event>)
    requires Inv(w) && PossibleRun(w, events)
    ensures Inv(Run(w, events)) && w.issued <= Run(w, events).issued && w.owned <= Run(w, events).owned
    ensures forall id :: id in Ids(Run(w, events).sessions) ==> id in Ids(w.sessions) || id !in w.owned
    decreases |events|
  {
    if events != [] {
      StepChanges(w, events[0]);
      hide Step, Inv, Ids, Possible;
      RunKeepsInv(Step(w, events[0]), events[1..]);
    }
  }

  /** The same, from the start: an id seen in the table and later not in it is gone for good. */
  lemma TerminatedStaysAway(before: seq<Event>, after: seq<Event>, id: nat)
    requires PossibleRun(START, before) && PossibleRun(Run(START, before), after)
    requires id in Run(START, before).owned && id !in Ids(Run(START, before).sessions)
    ensures id !in Ids(Run(Run(START, before), after).sessions)
  {
    RunKeepsInv(START, before);
    hide Run, Ids, Inv;
    RunKeepsInv(Run(START, before), after);
  }

  /** A termination event that a lookup can take for one of the session with that id. */
  predicate Terminates(e: Event, id: nat) {
    e.DialogEvent? && e.dialog.Terminated? && (id - e.id) % ID_MODULUS == 0
  }

  lemma LiveStep(w: World, e: Event, id: nat)
    requires Inv(w) && Possible(w, e) && id in Ids(w.sessions) && !Terminates(e, id)
    ensures id in Ids(Step(w, e).sessions)
  {
    hide Lookup, Matches, Ids, Inv;
    if e.DialogEvent? {
      LiveDialog(w, e.id, e.dialog, id);
    } else {
      AddedKeepsId(w.sessions, Step(w, e).sessions, id);
    }
  }

  lemma LiveDialog(w: World, other: nat, dialog: Dialog, id: nat)
    requires Inv(w) && id in Ids(w.sessions)
    requires dialog.Terminated? ==> (id - other) % ID_MODULUS != 0
    ensures id in Ids(OnDialog(w, other, dialog).sessions)
  {
    var i := Lookup(w.sessions, other);
    if i.Some? {
      assert Matches(w.sessions[i.value], other);
      hide Lookup, Ids;
      RemovedKeepsIds(w.sessions, i.value);
      ConnectedKeepsIds(w.sessions, i.value);
    }
  }

  lemma AddedKeepsId(sessions: seq<Session>, more: seq<Session>, id: nat)
    requires sessions <= more && id in Ids(sessions)
    ensures id in Ids(more)
  {
    var s :| s in sessions && s.id == id;
    assert s in more;
  }

  /** A session stays in the table until a termination event matches it. */
  lemma {:induction false} LiveStays(w: World, events: seq<Event>, id: nat)
    requires Inv(w) && PossibleRun(w, events) && id in Ids(w.sessions)
    requires forall e :: e in events ==> !Terminates(e, id)
    ensures id in Ids(Run(w, events).sessions)
    decreases |events|
  {
    if events != [] {
      assert events[0] in events;
      StepChanges(w, events[0]);
      LiveStep(w, events[0], id);
      hide Step, Inv, Ids, Possible, Terminates;
      LiveStays(Step(w, events[0]), events[1..], id);
    }
  }

  // ---------- lookups ----------

  lemma SmallMatches(s: Session, sid: nat)
    requires s.id < ID_MODULUS && sid < ID_MODULUS
    ensures Matches(s, sid) <==> s.id == sid
  {
    var d: int := s.id - sid;
    assert d % ID_MODULUS == 0 ==> d == (d / ID_MODULUS) * ID_MODULUS;
    assert -1 < d / ID_MODULUS + 1 && d / ID_MODULUS < 1;
  }

  /** As long as fewer than 2^32 ids have been given out, a lookup finds the session with that id,
      and nothing when there is none. */
  lemma LookupIsExact(w: World, sid: nat)
    requires Inv(w) && w.issued < ID_MODULUS && sid < ID_MODULUS
    ensures Lookup(w.sessions, sid).Some? <==> sid in Ids(w.sessions)
    ensures Lookup(w.sessions, sid).Some? ==> w.sessions[Lookup(w.sessions, sid).value].id == sid
  {
    forall s | s in w.sessions
      ensures Matches(s, sid) <==> s.id == sid
    {
      assert s.id in Ids(w.sessions);
      SmallMatches(s, sid);
    }
    hide Matches;
    var r := Lookup(w.sessions, sid);
    if r.Some? {
      assert w.sessions[r.value] in w.sessions;
    }
  }

  /** All sessions but the one with that id, in order. */
  function Without(sessions: seq<Session>, id: nat): seq<Session> {
    if sessions == [] then []
    else if sessions[0].id == id then Without(sessions[1..], id)
    else [sessions[0]] + Without(sessions[1..], id)
  }

  lemma {:induction false} WithoutAbsent(sessions: seq<Session>, id: nat)
    requires forall s :: s in sessions ==> s.id != id
    ensures Without(sessions, id) == sessions
  {
    if sessions != [] {
      WithoutAbsent(sessions[1..], id);
    }
  }

  lemma {:induction false} WithoutAt(sessions: seq<Session>, i: nat)
    requires i < |sessions| && Distinct(sessions)
    ensures Without(sessions, sessions[i].id) == sessions[..i] + sessions[i + 1..]
  {
    if i == 0 {
      WithoutAbsent(sessions[1..], sessions[0].id);
    } else {
      WithoutAt(sessions[1..], i - 1);
      hide Distinct;
      FirstStays(sessions, i);
    }
  }

  lemma FirstStays(sessions: seq<Session>, i: nat)
    requires 0 < i < |sessions|
    ensures sessions[..i] + sessions[i + 1..] == [sessions[0]] + (sessions[1..][..i - 1] + sessions[1..][i..])
  {
  }

  lemma {:induction false} IdNotInWithout(sessions: seq<Session>, id: nat)
    ensures id !in Ids(Without(sessions, id))
  {
    if sessions != [] {
      IdNotInWithout(sessions[1..], id);
      forall s | s in Without(sessions, id)
        ensures s.id != id
      {
        if s in Without(sessions[1..], id) {
          assert s.id in Ids(Without(sessions[1..], id));
        }
      }
    }
  }

  /** A termination event takes away just the session it is about, exactly when the first session
      that matches is that one, or none matches. */
  lemma TerminationIsExact(w: World, id: nat)
    requires Inv(w)
    ensures OnDialog(w, id, Terminated).sessions == Without(w.sessions, id)
       <==> (var r := Lookup(w.sessions, id); r.None? || w.sessions[r.value].id == id)
    ensures id !in Ids(Without(w.sessions, id))
  {
    IdNotInWithout(w.sessions, id);
    hide Matches;
    var r := Lookup(w.sessions, id);
    if r.None? {
      forall s | s in w.sessions
        ensures s.id != id
      {
        NoneMatches(w.sessions, id, s);
      }
      WithoutAbsent(w.sessions, id);
    } else if w.sessions[r.value].id == id {
      WithoutAt(w.sessions, r.value);
    } else {
      var other := w.sessions[r.value];
      OthersStay(w.sessions, id, other);
      RemovedKeepsIds(w.sessions, r.value);
      assert other.id in Ids(Without(w.sessions, id));
    }
  }

  lemma NoneMatches(sessions: seq<Session>, id: nat, s: Session)
    requires Lookup(sessions, id).None? && s in sessions
    ensures s.id != id
  {
    if s.id == id {
      assert Matches(s, id);
    }
  }

  lemma {:induction false} OthersStay(sessions: seq<Session>, id: nat, s: Session)
    requires s in sessions && s.id != id
    ensures s in Without(sessions, id)
  {
    if sessions[0] != s {
      OthersStay(sessions[1..], id, s);
    }
  }

  /** With fewer than 2^32 ids given out, every termination event is exact. */
  lemma TerminationRemovesItsSession(w: World, id: nat)
    requires Inv(w) && 1 <= id <= w.issued < ID_MODULUS
    ensures OnDialog(w, id, Terminated).sessions == Without(w.sessions, id)
    ensures id !in Ids(OnDialog(w, id, Terminated).sessions)
  {
    LookupIsExact(w, id);
    TerminationIsExact(w, id);
  }

  lemma {:induction false} ManyCreations(w: World, n: nat)
    ensures Run(w, seq(n, _ => StackCreates)) == w.(issued := w.issued + n)
    ensures PossibleRun(w, seq(n, _ => StackCreates))
    decreases n
  {
    var events := seq(n, _ => StackCreates);
    if n > 0 {
      assert events[1..] == seq(n - 1, _ => StackCreates);
      ManyCreations(w.(issued := w.issued + 1), n - 1);
    }
  }

  lemma {:induction false} RunAppend(w: World, first: seq<Event>, second: seq<Event>)
    requires PossibleRun(w, first) && PossibleRun(Run(w, first), second)
    ensures Run(w, first + second) == Run(Run(w, first), second) && PossibleRun(w, first + second)
    decreases |first|
  {
    if first == [] {
      assert first + second == second;
    } else {
      assert (first + second)[1..] == first[1..] + second;
      RunAppend(Step(w, first[0]), first[1..], second);
    }
  }

  /** Beyond that it can go wrong: two calls with ids 1 and 2^32 + 1, and the end of the second one
      takes the first one from the table. */
  lemma WrongSessionTerminated() returns (events: seq<Event>)
    ensures PossibleRun(START, events)
    ensures Ids(Run(START, events).sessions) == {1, ID_MODULUS + 1}
    ensures Ids(OnDialog(Run(START, events), ID_MODULUS + 1, Terminated).sessions) == {ID_MODULUS + 1}
  {
    var call := Commanded(Audio, None);
    var many := seq(ID_MODULUS - 1, _ => StackCreates);
    events := [call] + (many + [call]);
    TwoCalls(call);
    ManyCreations(World([CallWith(1)], 1, {1}), ID_MODULUS - 1);
    hide Step, Ids, OnDialog;
    var w1, w2 := Step(START, call), Run(Step(START, call), many);
    assert Run(w2, [call]) == Step(w2, call) && PossibleRun(w2, [call]);
    RunAppend(w1, many, [call]);
    assert events[1..] == many + [call];
    TwoIds();
  }

  function CallWith(id: nat): Session {
    Session(id, InviteSession, false)
  }

  lemma TwoCalls(call: Event)
    requires call == Commanded(Audio, None)
    ensures Step(START, call) == World([CallWith(1)], 1, {1})
    ensures Step(World([CallWith(1)], ID_MODULUS, {1}), call)
         == World([CallWith(1), CallWith(ID_MODULUS + 1)], ID_MODULUS + 1, {1, ID_MODULUS + 1})
  {
    hide Lookup;
  }

  lemma TwoIds()
    ensures (var sessions := [CallWith(1), CallWith(ID_MODULUS + 1)];
             var w := World(sessions, ID_MODULUS + 1, {1, ID_MODULUS + 1});
             && Ids(sessions) == {1, ID_MODULUS + 1}
             && Ids(OnDialog(w, ID_MODULUS + 1, Terminated).sessions) == {ID_MODULUS + 1})
  {
    var a, b := CallWith(1), CallWith(ID_MODULUS + 1);
    assert Matches(a, ID_MODULUS + 1) && Lookup([a, b], ID_MODULUS + 1) == Some(0);
    hide Lookup, Matches;
    assert [a, b][..0] + [a, b][1..] == [b];
    assert Ids([b]) == {ID_MODULUS + 1};
    assert a in [a, b] && b in [a, b];
  }

  // ---------- commands and calls ----------

  /** A command that may create gets a session of the table, an old one only if the lookup found
      it; a new one has the kind of the command and a new id. */
  lemma CommandHasSession(w: World, cmd: Command, sid: Option<string>)
    requires Inv(w)
    ensures (var (w', id) := OnCommand(w, cmd, sid);
             && (id == 0 <==> cmd.InDialog? && (sid.None? || Lookup(w.sessions, Sid(sid.value)).None?))
             && (id != 0 ==> id in Ids(w'.sessions))
             && (id in Ids(w.sessions) ==> w' == w)
             && (id != 0 && id !in Ids(w.sessions) ==>
                   w'.sessions == w.sessions + [Session(id, KindOf(cmd).value, false)] && id !in w.owned))
  {
    hide Lookup, Matches, Sid;
    var (w', id) := OnCommand(w, cmd, sid);
    var found := if sid.None? then None else Lookup(w.sessions, Sid(sid.value));
    if found.Some? {
      assert w.sessions[found.value] in w.sessions;
      assert id in Ids(w.sessions);
    } else if KindOf(cmd).Some? {
      assert w'.sessions[|w.sessions|] in w'.sessions;
    }
  }

  /** A new call the application does not own yet is in the table after its event, once, however
      often the event comes. */
  lemma NewCallIsAddedOnce(w: World, id: nat)
    requires Inv(w) && 1 <= id <= w.issued < ID_MODULUS && id !in w.owned
    ensures (var w' := OnInvite(w, id, true).0;
             && w'.sessions == w.sessions + [Session(id, InviteSession, false)]
             && Inv(w') && OnInvite(w', id, true) == (w', 0) && OnMessage(w', id) == (w', 0))
  {
    LookupIsExact(w, id);
    AddedKeepsInv(w, id, w.issued, InviteSession);
    LookupIsExact(OnInvite(w, id, true).0, id);
  }

  // ---------- what each event does, below 2^32 ----------

  /** A message event: known sessions need nothing, an owned one that is not in the table is refused,
      and any other is added as a message session. */
  lemma MessageExactly(w: World, id: nat)
    requires Inv(w) && 1 <= id <= w.issued < ID_MODULUS
    ensures OnMessage(w, id)
         == if id in Ids(w.sessions) then (w, 0)
            else if id in w.owned then (w, -2)
            else (World(w.sessions + [Session(id, MessageSession, false)], w.issued, w.owned + {id}), 0)
    ensures OnMessage(w, id).1 == -2 <==> id in w.owned && id !in Ids(w.sessions)
  {
    LookupIsExact(w, id);
    hide Lookup, Ids, Inv;
  }

  /** An incoming message the application does not own yet is in the table after its event, once,
      however often events for it come. */
  lemma NewMessageIsAddedOnce(w: World, id: nat)
    requires Inv(w) && 1 <= id <= w.issued < ID_MODULUS && id !in w.owned
    ensures (var w' := OnMessage(w, id).0;
             && w'.sessions == w.sessions + [Session(id, MessageSession, false)] && OnMessage(w, id).1 == 0
             && Inv(w') && OnMessage(w', id) == (w', 0)
             && OnInvite(w', id, true) == (w', 0) && OnInvite(w', id, false) == (w', 0))
  {
    MessageExactly(w, id);
    AddedKeepsInv(w, id, w.issued, MessageSession);
    var w' := OnMessage(w, id).0;
    assert id !in Ids(w.sessions);
    hide Lookup, Ids, Inv, OnMessage;
    MessageExactly(w', id);
    InviteExactly(w', id, true);
    InviteExactly(w', id, false);
  }

  /** A call event: known sessions need nothing, an event that is no new call is refused, a new call
      of an owned session is ignored, and any other is added as an invite session. */
  lemma InviteExactly(w: World, id: nat, newCall: bool)
    requires Inv(w) && 1 <= id <= w.issued < ID_MODULUS
    ensures OnInvite(w, id, newCall)
         == if id in Ids(w.sessions) then (w, 0)
            else if !newCall then (w, -2)
            else if id in w.owned then (w, 0)
            else (World(w.sessions + [Session(id, InviteSession, false)], w.issued, w.owned + {id}), 0)
  {
    LookupIsExact(w, id);
    hide Lookup, Ids, Inv;
  }

  /** The position of a session in the table. */
  lemma PositionOf(w: World, id: nat) returns (i: nat)
    requires Inv(w) && w.issued < ID_MODULUS && id in Ids(w.sessions)
    ensures i < |w.sessions| && w.sessions[i].id == id && Lookup(w.sessions, id) == Some(i) && id < ID_MODULUS
  {
    LookupIsExact(w, id);
    i := Lookup(w.sessions, id).value;
  }

  /** A dialog event: the session that connects is marked and nothing else changes; the session that
      terminates is taken out; no other event and no event without a session changes the table. */
  lemma DialogExactly(w: World, id: nat, dialog: Dialog, i: nat)
    requires Inv(w) && 1 <= id <= w.issued < ID_MODULUS
    requires i < |w.sessions| && w.sessions[i].id == id
    ensures (var sessions := OnDialog(w, id, dialog).sessions; var s := w.sessions[i];
             && OnDialog(w, id, dialog) == World(sessions, w.issued, w.owned)
             && (dialog == Terminated ==> sessions == w.sessions[..i] + w.sessions[i + 1..])
             && (dialog == Connected ==> sessions == w.sessions[i := Session(s.id, s.kind, true)])
             && (dialog == OtherDialog ==> sessions == w.sessions))
  {
    assert w.sessions[i] in w.sessions;
    var j := PositionOf(w, id);
    assert i == j;
    hide Lookup, Matches, Ids;
  }

  lemma DialogWithoutSession(w: World, id: nat, dialog: Dialog)
    requires Inv(w) && 1 <= id <= w.issued < ID_MODULUS && id !in Ids(w.sessions)
    ensures OnDialog(w, id, dialog) == w
  {
    LookupIsExact(w, id);
    hide Lookup, Ids, Inv;
  }

  /** A command without a session of its own: which kind of session each one creates, and that the
      others create none. */
  lemma CommandKinds(w: World, cmd: Command)
    ensures (var (w', id) := OnCommand(w, cmd, None); var next := w.issued + 1;
             && (cmd in {Audio, Video, AudioVideo, File, LargeMessage} ==>
                   w'.sessions == w.sessions + [Session(next, InviteSession, false)])
             && (cmd in {Message, Sms} ==> w'.sessions == w.sessions + [Session(next, MessageSession, false)])
             && (cmd == Options ==> w'.sessions == w.sessions + [Session(next, OptionsSession, false)])
             && (cmd == Publish ==> w'.sessions == w.sessions + [Session(next, PublishSession, false)])
             && (cmd == Register ==> w'.sessions == w.sessions + [Session(next, RegisterSession, false)])
             && (cmd == Subscribe ==> w'.sessions == w.sessions + [Session(next, SubscribeSession, false)])
             && (cmd == InDialog ==> w' == w && id == 0)
             && (cmd != InDialog ==> id == next == w'.issued && w'.owned == w.owned + {next}))
  {
  }

  /** A command that names a session of the table by its number works on it and changes nothing. */
  lemma CommandFindsSession(w: World, cmd: Command, blanks: string, digits: string, rest: string)
    requires Inv(w) && w.issued < ID_MODULUS && AllDigits(digits) && digits != "" && (rest == "" || !IsDigit(rest[0]))
    requires forall i :: 0 <= i < |blanks| ==> IsSpace(blanks[i])
    requires Value(digits) in Ids(w.sessions)
    ensures OnCommand(w, cmd, Some(blanks + ("" + (digits + rest)))) == (w, Value(digits))
  {
    AtoiReads(blanks, "", digits, rest);
    var id := Value(digits);
    var i := PositionOf(w, id);
    assert Sid(blanks + ("" + (digits + rest))) == id;
    hide Lookup, Ids, Inv, Sid, Value, AllDigits;
  }

  /** The session of a call or message that comes in belongs to the stack at first. */
  lemma StackSessionIsNew(w: World)
    requires Inv(w)
    ensures (var w' := Step(w, StackCreates);
             w' == World(w.sessions, w.issued + 1, w.owned) && w'.issued !in w'.owned && Inv(w'))
  {
    MoreIssued(w);
  }

  /** Two ids match when they differ by a multiple of 2^32, and no other way. */
  lemma MatchesExactly(s: Session, sid: nat)
    ensures Matches(s, sid) <==> exists k: int :: s.id as int == sid + k * 4294967296
  {
    var d: int := s.id - sid;
    if Matches(s, sid) {
      assert s.id as int == sid + (d / 4294967296) * 4294967296;
    }
    if k: int :| s.id as int == sid + k * 4294967296 {
      MultipleHasNoRest(k, d);
    }
  }

  lemma MultipleHasNoRest(k: int, d: int)
    requires d == k * 4294967296
    ensures d % 4294967296 == 0
  {
  }

  /** The id a `--sid` value names: its number, a negative one counted down from 2^64. */
  lemma SidReads(blanks: string, sign: string, digits: string, rest: string)
    requires (forall i :: 0 <= i < |blanks| ==> IsSpace(blanks[i])) && Signed(sign, digits, rest)
    ensures Sid(blanks + (sign + (digits + rest)))
         == (if sign == "-" then -(Value(digits) as int) else Value(digits)) % 18446744073709551616
  {
    AtoiReads(blanks, sign, digits, rest);
    hide Atoi, Value, AllDigits;
  }
}
