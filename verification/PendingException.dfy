/** The pending-exception store of the C# bindings (`SWIGPendingException` and the fourteen
    `SetPending*Exception` callbacks).

    Every thread owns one exception slot; all threads share one counter, which is read without
    the lock and updated under it. The module gives three views of the same code:

    - `Apply`, what one call means for a thread that looks at its own slot only;
    - `SWIGPendingException`, the class whose methods run one call without interruption;
    - `Step`, the interleaved machine: one atomic read, write or lock operation of one thread.

    The lemmas show that the machine, under every schedule of any number of threads, is
    indistinguishable from `Apply` for each of its threads. Memory is sequentially consistent. */
module PendingException {
  import opened Wrappers

  datatype Kind =
    | Application | Arithmetic | DivideByZero | IndexOutOfRange | InvalidCast | InvalidOperation
    | IO | NullReference | OutOfMemory | Overflow | System
    | Argument | ArgumentNull | ArgumentOutOfRange

  datatype Exception = Exception(kind: Kind, message: string, param: string, inner: Option<Exception>)

  datatype Call =
    | GetPending
    | Set(e: Exception)
    | Retrieve
    | SetPending(kind: Kind, message: string, param: string)

  datatype Result =
    | Flag(pending: bool)
    | Done
    | Got(e: Option<Exception>)
    | Fatal(earlier: Exception, missed: Exception)

  // ---------- what one call means ----------

  /** The two callbacks that fold the earlier exception into the message instead of nesting it. */
  predicate Folds(kind: Kind) {
    kind.ArgumentNull? || kind.ArgumentOutOfRange?
  }

  /** The exception a `SetPending*` callback builds on top of the retrieved one. */
  function Build(kind: Kind, message: string, param: string, prior: Option<Exception>): Exception {
    if !Folds(kind) then
      Exception(kind, message, param, prior)
    else if prior.Some? then
      Exception(kind, message + " Inner Exception: " + prior.value.message, param, None)
    else
      Exception(kind, message, param, None)
  }

  /** Meaning of a call for a thread whose slot is `slot`: the new slot and the answer. */
  function Apply(slot: Option<Exception>, call: Call): (Option<Exception>, Result) {
    match call
    case GetPending => (slot, Flag(slot.Some?))
    case Set(e) => if slot.Some? then (slot, Fatal(slot.value, e)) else (Some(e), Done)
    case Retrieve => (None, Got(slot))
    case SetPending(kind, message, param) => (Some(Build(kind, message, param, slot)), Done)
  }

  // ---------- the class, one uninterrupted call at a time ----------

  /** `pendingException` is the slot of the calling thread. `others` is the number of exceptions
      that the other threads have pending; no method of this class changes it. */
  class SWIGPendingException {
    var pendingException: Option<Exception>
    var numExceptionsPending: int
    ghost var others: nat

    ghost predicate Valid()
      reads this
    {
      numExceptionsPending == others + (if pendingException.Some? then 1 else 0)
    }

    constructor (ghost others: nat, count: int)
      requires count == others
      ensures Valid() && pendingException == None && this.others == others
    {
      pendingException := None;
      numExceptionsPending := count;
      this.others := others;
    }

    method Pending() returns (pending: bool)
      requires Valid()
      ensures Flag(pending) == Apply(pendingException, GetPending).1
    {
      pending := false;
      if numExceptionsPending > 0 {
        if pendingException != None {
          pending := true;
        }
      }
    }

    method Set(e: Exception) returns (r: Result)
      requires Valid()
      modifies this
      ensures Valid() && others == old(others)
      ensures (pendingException, r) == Apply(old(pendingException), Call.Set(e))
    {
      if pendingException != None {
        return Fatal(pendingException.value, e);
      }
      pendingException := Some(e);
      numExceptionsPending := numExceptionsPending + 1;
      r := Done;
    }

    method Retrieve() returns (e: Option<Exception>)
      requires Valid()
      modifies this
      ensures Valid() && others == old(others)
      ensures (pendingException, Got(e)) == Apply(old(pendingException), Call.Retrieve)
    {
      e := None;
      if numExceptionsPending > 0 {
        if pendingException != None {
          e := pendingException;
          pendingException := None;
          numExceptionsPending := numExceptionsPending - 1;
        }
      }
    }

    /** The body shared by the `SetPending*Exception` callbacks. */
    method SetPending(kind: Kind, message: string, param: string) returns (r: Result)
      requires Valid()
      modifies this
      ensures Valid() && others == old(others)
      ensures (pendingException, r) == Apply(old(pendingException), Call.SetPending(kind, message, param))
    {
      var prior := Retrieve();
      r := Set(Build(kind, message, param, prior));
    }
  }

  // ---------- the interleaved machine ----------

  type ThreadId = nat

  /** Where a thread stands inside its current call; `e` is the local exception variable and `v`
      the counter value loaded inside the critical section. */
  datatype Pc =
    | Idle
    | PendingCount
    | PendingSlot
    | RetrieveCount
    | RetrieveSlot
    | RetrieveClear(e: Exception)
    | RetrieveLock(e: Exception)
    | RetrieveLoad(e: Exception)
    | RetrieveStore(e: Exception, v: int)
    | RetrieveUnlock(e: Exception)
    | SetCheck(e: Exception)
    | SetSlot(e: Exception)
    | SetLock
    | SetLoad
    | SetStore(v: int)
    | SetUnlock

  /** A finished call and its answer. */
  datatype Entry = Entry(call: Call, result: Result)

  /** `call` is the call in progress (meaningless when idle), `log` the calls finished so far. */
  datatype Thread = Thread(slot: Option<Exception>, pc: Pc, call: Call, log: seq<Entry>)

  /** The memory all threads share: the counter and the lock. */
  datatype Shared = Shared(count: int, owner: Option<ThreadId>)

  datatype State = State(shared: Shared, threads: map<ThreadId, Thread>)

  const INITIAL := State(Shared(0, None), map[])
  const NEW_THREAD := Thread(None, Idle, GetPending, [])

  function Enter(call: Call): Pc {
    match call
    case GetPending => PendingCount
    case Set(e) => SetCheck(e)
    case Retrieve => RetrieveCount
    case SetPending(_, _, _) => RetrieveCount
  }

  function Return(th: Thread, r: Result): Thread {
    th.(pc := Idle, log := th.log + [Entry(th.call, r)])
  }

  /** `Retrieve` has answered `e`; a `SetPending*` callback goes on to `Set`. */
  function Retrieved(th: Thread, e: Option<Exception>): Thread {
    match th.call
    case SetPending(kind, message, param) => th.(pc := SetCheck(Build(kind, message, param, e)))
    case _ => Return(th, Got(e))
  }

  /** One atomic action of thread `t`, whose own state is `th`. An idle thread starts `call`; a
      thread that wants the lock while somebody holds it does not move. */
  function Act(m: Shared, t: ThreadId, th: Thread, call: Call): (Shared, Thread) {
    match th.pc
    case Idle => (m, th.(pc := Enter(call), call := call))
    case PendingCount => (m, if m.count > 0 then th.(pc := PendingSlot) else Return(th, Flag(false)))
    case PendingSlot => (m, Return(th, Flag(th.slot.Some?)))
    case RetrieveCount => (m, if m.count > 0 then th.(pc := RetrieveSlot) else Retrieved(th, None))
    case RetrieveSlot =>
      (m, if th.slot.Some? then th.(pc := RetrieveClear(th.slot.value)) else Retrieved(th, None))
    case RetrieveClear(e) => (m, th.(slot := None, pc := RetrieveLock(e)))
    case RetrieveLock(e) =>
      if m.owner.Some? then (m, th) else (m.(owner := Some(t)), th.(pc := RetrieveLoad(e)))
    case RetrieveLoad(e) => (m, th.(pc := RetrieveStore(e, m.count)))
    case RetrieveStore(e, v) => (m.(count := v - 1), th.(pc := RetrieveUnlock(e)))
    case RetrieveUnlock(e) => (m.(owner := None), Retrieved(th, Some(e)))
    case SetCheck(e) =>
      (m, if th.slot.Some? then Return(th, Fatal(th.slot.value, e)) else th.(pc := SetSlot(e)))
    case SetSlot(e) => (m, th.(slot := Some(e), pc := SetLock))
    case SetLock => if m.owner.Some? then (m, th) else (m.(owner := Some(t)), th.(pc := SetLoad))
    case SetLoad => (m, th.(pc := SetStore(m.count)))
    case SetStore(v) => (m.(count := v + 1), th.(pc := SetUnlock))
    case SetUnlock => (m.(owner := None), Return(th, Done))
  }

  /** One atomic action of one thread; a thread seen for the first time starts with an empty slot. */
  function Step(s: State, t: ThreadId, call: Call): State {
    if t !in s.threads then
      s.(threads := s.threads[t := NEW_THREAD])
    else
      var (m, th) := Act(s.shared, t, s.threads[t], call);
      State(m, s.threads[t := th])
  }

  /** A schedule names, at each instant, the thread that moves and the call it would start. */
  type Schedule = seq<(ThreadId, Call)>

  function Run(schedule: Schedule): State {
    if schedule == [] then INITIAL
    else
      var last := schedule[|schedule| - 1];
      Step(Run(schedule[..|schedule| - 1]), last.0, last.1)
  }

  // ---------- the invariant ----------

  /** The thread's exception is counted: stored and already added, or cleared and not yet subtracted. */
  predicate Counted(th: Thread) {
    match th.pc
    case SetLock => false
    case SetLoad => false
    case SetStore(_) => false
    case RetrieveLock(_) => true
    case RetrieveLoad(_) => true
    case RetrieveStore(_, _) => true
    case RetrieveUnlock(_) => false
    case _ => th.slot.Some?
  }

  function CountedThreads(threads: map<ThreadId, Thread>): set<ThreadId> {
    set t | t in threads && Counted(threads[t])
  }

  predicate InCriticalSection(pc: Pc) {
    pc.RetrieveLoad? || pc.RetrieveStore? || pc.RetrieveUnlock? || pc.SetLoad? || pc.SetStore? || pc.SetUnlock?
  }

  /** The slot after a log, each call applied to the slot the earlier ones left. */
  function SlotAfter(log: seq<Entry>): Option<Exception> {
    if log == [] then None else Apply(SlotAfter(log[..|log| - 1]), log[|log| - 1].call).0
  }

  /** Every answer in the log is the one `Apply` gives. */
  predicate Explained(log: seq<Entry>) {
    forall i :: 0 <= i < |log| ==> log[i].result == Apply(SlotAfter(log[..i]), log[i].call).1
  }

  /** How far the call in progress has got, in terms of what its outcome must be. */
  predicate OnTrack(th: Thread) {
    var before := SlotAfter(th.log);
    match th.pc
    case Idle => th.slot == before
    case PendingCount => th.slot == before && th.call == GetPending
    case PendingSlot => th.slot == before && th.call == GetPending
    case RetrieveCount => th.slot == before && Retrieves(th.call)
    case RetrieveSlot => th.slot == before && Retrieves(th.call)
    case RetrieveClear(e) => th.slot == before == Some(e) && Retrieves(th.call)
    case RetrieveLock(e) => th.slot == None && before == Some(e) && Retrieves(th.call)
    case RetrieveLoad(e) => th.slot == None && before == Some(e) && Retrieves(th.call)
    case RetrieveStore(e, _) => th.slot == None && before == Some(e) && Retrieves(th.call)
    case RetrieveUnlock(e) => th.slot == None && before == Some(e) && Retrieves(th.call)
    case SetCheck(e) => if th.call.SetPending? then th.slot == None && Builds(th.call, e, before)
                        else th.slot == before && th.call == Set(e)
    case SetSlot(e) => th.slot == None && Apply(before, th.call) == (Some(e), Done)
    case SetLock => th.slot.Some? && Apply(before, th.call) == (th.slot, Done)
    case SetLoad => th.slot.Some? && Apply(before, th.call) == (th.slot, Done)
    case SetStore(_) => th.slot.Some? && Apply(before, th.call) == (th.slot, Done)
    case SetUnlock => th.slot.Some? && Apply(before, th.call) == (th.slot, Done)
  }

  predicate Retrieves(call: Call) {
    call.Retrieve? || call.SetPending?
  }

  predicate Builds(call: Call, e: Exception, prior: Option<Exception>) {
    call.SetPending? && e == Build(call.kind, call.message, call.param, prior)
  }

  predicate ThreadInv(m: Shared, t: ThreadId, th: Thread) {
    && Explained(th.log)
    && OnTrack(th)
    && (InCriticalSection(th.pc) <==> m.owner == Some(t))
    && (th.pc.SetStore? || th.pc.RetrieveStore? ==> th.pc.v == m.count)
  }

  predicate Inv(s: State) {
    && s.shared.count == |CountedThreads(s.threads)|
    && (s.shared.owner.Some? ==> s.shared.owner.value in s.threads)
    && forall t :: t in s.threads ==> ThreadInv(s.shared, t, s.threads[t])
  }

  /** Replacing one thread moves the number of counted threads by at most that thread. */
  lemma CountedAfterPut(threads: map<ThreadId, Thread>, t: ThreadId, th: Thread)
    ensures var was := t in threads && Counted(threads[t]);
            |CountedThreads(threads[t := th])|
            == |CountedThreads(threads)| - (if was then 1 else 0) + (if Counted(th) then 1 else 0)
  {
    var was, now := CountedThreads(threads), CountedThreads(threads[t := th]);
    OthersStayCounted(threads, t, th);
    hide CountedThreads, Counted;
    SizeWithout(now, t);
    SizeWithout(was, t);
  }

  lemma OthersStayCounted(threads: map<ThreadId, Thread>, t: ThreadId, th: Thread)
    ensures CountedThreads(threads[t := th]) - {t} == CountedThreads(threads) - {t}
    ensures t in CountedThreads(threads[t := th]) <==> Counted(th)
    ensures t in CountedThreads(threads) <==> t in threads && Counted(threads[t])
  {
    hide Counted;
  }

  lemma SizeWithout(s: set<ThreadId>, t: ThreadId)
    ensures |s| == |s - {t}| + (if t in s then 1 else 0)
  {
    if t in s {
      assert s == (s - {t}) + {t};
    } else {
      assert s == s - {t};
    }
  }

  lemma ExplainedSnoc(log: seq<Entry>, call: Call)
    requires Explained(log)
    ensures var (slot, r) := Apply(SlotAfter(log), call);
            Explained(log + [Entry(call, r)]) && SlotAfter(log + [Entry(call, r)]) == slot
  {
    var (_, r) := Apply(SlotAfter(log), call);
    var longer := log + [Entry(call, r)];
    assert longer[..|log|] == log;
    forall i | 0 <= i < |longer|
      ensures longer[i].result == Apply(SlotAfter(longer[..i]), longer[i].call).1
    {
      if i < |log| {
        assert longer[..i] == log[..i];
      }
    }
  }

  /** A counted thread makes the counter positive, whatever the other threads do. */
  lemma OwnExceptionIsVisible(s: State, t: ThreadId)
    requires Inv(s) && t in s.threads && Counted(s.threads[t])
    ensures s.shared.count > 0
  {
    assert t in CountedThreads(s.threads);
  }

  /** A call may end as soon as its slot and its answer are the ones `Apply` gives. */
  lemma ReturnStaysOnTrack(th: Thread, r: Result)
    requires Explained(th.log) && Apply(SlotAfter(th.log), th.call) == (th.slot, r)
    ensures Explained(Return(th, r).log) && OnTrack(Return(th, r))
  {
    ExplainedSnoc(th.log, th.call);
  }

  lemma RetrievedStaysOnTrack(th: Thread, e: Option<Exception>)
    requires Explained(th.log) && Retrieves(th.call) && th.slot == None && e == SlotAfter(th.log)
    ensures Explained(Retrieved(th, e).log) && OnTrack(Retrieved(th, e))
  {
    if th.call.Retrieve? {
      ReturnStaysOnTrack(th, Got(e));
    }
  }

  lemma ActStaysOnTrack(m: Shared, t: ThreadId, th: Thread, call: Call)
    requires Explained(th.log) && OnTrack(th)
    requires Counted(th) ==> m.count > 0
    ensures var th' := Act(m, t, th, call).1; Explained(th'.log) && OnTrack(th')
  {
    hide Explained, SlotAfter;
    match th.pc
    case PendingCount => if m.count <= 0 { ReturnStaysOnTrack(th, Flag(false)); }
    case PendingSlot => ReturnStaysOnTrack(th, Flag(th.slot.Some?));
    case RetrieveCount => if m.count <= 0 { RetrievedStaysOnTrack(th, None); }
    case RetrieveSlot => if th.slot.None? { RetrievedStaysOnTrack(th, None); }
    case RetrieveUnlock(e) => RetrievedStaysOnTrack(th, Some(e));
    case SetCheck(e) => if th.slot.Some? { ReturnStaysOnTrack(th, Fatal(th.slot.value, e)); }
    case SetUnlock => ReturnStaysOnTrack(th, Done);
    case _ =>
  }

  /** The lock and the loaded value stay in step with where the thread stands. */
  lemma ActKeepsLock(m: Shared, t: ThreadId, th: Thread, call: Call)
    requires InCriticalSection(th.pc) <==> m.owner == Some(t)
    requires th.pc.SetStore? || th.pc.RetrieveStore? ==> th.pc.v == m.count
    ensures var (m', th') := Act(m, t, th, call);
            && (InCriticalSection(th'.pc) <==> m'.owner == Some(t))
            && (th'.pc.SetStore? || th'.pc.RetrieveStore? ==> th'.pc.v == m'.count)
  {
  }

  /** The counter moves exactly when the acting thread becomes counted or stops being counted. */
  lemma ActKeepsCount(m: Shared, t: ThreadId, th: Thread, call: Call)
    requires ThreadInv(m, t, th)
    ensures var (m', th') := Act(m, t, th, call);
            m'.count - m.count == (if Counted(th') then 1 else 0) - (if Counted(th) then 1 else 0)
  {
  }

  /** What the other threads rely on: only the holder of the lock changes the counter, and nobody
      takes the lock away from its holder. */
  lemma ActSparesOtherThreads(m: Shared, t: ThreadId, th: Thread, call: Call, u: ThreadId)
    requires ThreadInv(m, t, th) && u != t
    ensures var m' := Act(m, t, th, call).0;
            && (m'.owner == Some(u) <==> m.owner == Some(u))
            && (m.owner == Some(u) ==> m'.count == m.count)
  {
  }

  /** Every atomic action of every thread keeps the invariant. */
  lemma StepKeepsInv(s: State, t: ThreadId, call: Call)
    requires Inv(s)
    ensures Inv(Step(s, t, call))
  {
    var s' := Step(s, t, call);
    CountedAfterPut(s.threads, t, s'.threads[t]);
    if t in s.threads {
      var th := s.threads[t];
      if Counted(th) {
        OwnExceptionIsVisible(s, t);
      }
      ActStaysOnTrack(s.shared, t, th, call);
      ActKeepsLock(s.shared, t, th, call);
      ActKeepsCount(s.shared, t, th, call);
      forall u | u in s'.threads
        ensures ThreadInv(s'.shared, u, s'.threads[u])
      {
        if u != t {
          ActSparesOtherThreads(s.shared, t, th, call, u);
        }
      }
    }
  }

  lemma {:induction false} RunKeepsInv(schedule: Schedule)
    ensures Inv(Run(schedule))
  {
    if schedule != [] {
      var last := schedule[|schedule| - 1];
      RunKeepsInv(schedule[..|schedule| - 1]);
      StepKeepsInv(Run(schedule[..|schedule| - 1]), last.0, last.1);
    }
  }

  // ---------- the theorems ----------

  /** Under every schedule, what a thread has been answered is what it would have been answered
      alone, and between calls its slot is the slot it would have alone. */
  lemma ThreadsCannotTell(schedule: Schedule, t: ThreadId)
    requires t in Run(schedule).threads
    ensures var th := Run(schedule).threads[t];
            Explained(th.log) && (th.pc.Idle? ==> th.slot == SlotAfter(th.log))
  {
    RunKeepsInv(schedule);
  }

  /** The counter is never negative, and once every thread is between calls it is exactly the
      number of threads that have an exception pending. */
  lemma CounterCounts(schedule: Schedule)
    ensures var s := Run(schedule);
            && 0 <= s.shared.count == |CountedThreads(s.threads)| <= |s.threads|
            && ((forall t :: t in s.threads ==> s.threads[t].pc.Idle?) ==>
                  s.shared.count == |set t | t in s.threads && s.threads[t].slot.Some?|)
  {
    RunKeepsInv(schedule);
    var s := Run(schedule);
    CountedWithin(s.threads);
    if forall t :: t in s.threads ==> s.threads[t].pc.Idle? {
      assert CountedThreads(s.threads) == set t | t in s.threads && s.threads[t].slot.Some?;
    }
  }

  lemma CountedWithin(threads: map<ThreadId, Thread>)
    ensures |CountedThreads(threads)| <= |threads|
  {
    var rest := threads.Keys - CountedThreads(threads);
    assert CountedThreads(threads) + rest == threads.Keys;
  }

  /** The unlocked read is harmless: whatever the other threads did meanwhile, every finished
      `Pending` was answered true exactly when its own thread had an exception stored; and a
      thread between calls never sees its own exception hidden behind a zero counter. */
  lemma PendingIsExact(schedule: Schedule, t: ThreadId)
    requires t in Run(schedule).threads
    ensures var s := Run(schedule);
            var th := s.threads[t];
            && (th.pc.Idle? && th.slot.Some? ==> s.shared.count > 0)
            && forall i :: 0 <= i < |th.log| && th.log[i].call.GetPending? ==>
                 th.log[i].result == Flag(SlotAfter(th.log[..i]).Some?)
  {
    RunKeepsInv(schedule);
    var s := Run(schedule);
    if s.threads[t].pc.Idle? && s.threads[t].slot.Some? {
      OwnExceptionIsVisible(s, t);
    }
  }

  /** The FATAL branch of `Set` is reached exactly by a direct `Set` on a thread that already has
      an exception pending; no `SetPending*` callback ever reaches it. */
  lemma FatalExactlyOnDoubleSet(schedule: Schedule, t: ThreadId, i: nat)
    requires t in Run(schedule).threads && i < |Run(schedule).threads[t].log|
    ensures var log := Run(schedule).threads[t].log;
            log[i].result.Fatal? <==> log[i].call.Set? && SlotAfter(log[..i]).Some?
  {
    ThreadsCannotTell(schedule, t);
  }

  /** At most one thread is inside the critical section. */
  lemma MutualExclusion(schedule: Schedule, t: ThreadId, u: ThreadId)
    requires var threads := Run(schedule).threads;
             t in threads && u in threads && InCriticalSection(threads[t].pc) && InCriticalSection(threads[u].pc)
    ensures t == u
  {
    RunKeepsInv(schedule);
  }

  /** No deadlock: a thread that cannot move waits for a lock whose holder can move. */
  lemma SomebodyMoves(schedule: Schedule, t: ThreadId, call: Call)
    requires t in Run(schedule).threads
    requires var s := Run(schedule); Act(s.shared, t, s.threads[t], call) == (s.shared, s.threads[t])
    ensures var s := Run(schedule);
            && s.shared.owner.Some? && s.shared.owner.value in s.threads && s.shared.owner.value != t
            && var holder := s.shared.owner.value;
               Act(s.shared, holder, s.threads[holder], call).1 != s.threads[holder]
  {
    RunKeepsInv(schedule);
    var s := Run(schedule);
    Moves(s.shared, t, s.threads[t], call);
    Moves(s.shared, s.shared.owner.value, s.threads[s.shared.owner.value], call);
  }

  /** Only the two lock acquisitions can leave a thread where it is. */
  lemma Moves(m: Shared, t: ThreadId, th: Thread, call: Call)
    ensures Act(m, t, th, call).1 == th ==> m.owner.Some? && (th.pc.RetrieveLock? || th.pc.SetLock?)
  {
  }

  // ---------- chains of inner exceptions ----------

  /** An exception followed by its inner exceptions, outermost first. */
  function Chain(e: Option<Exception>): seq<Exception> {
    if e.None? then [] else [e.value] + Chain(e.value.inner)
  }

  /** A thread that only ever calls `SetPending*`. */
  predicate OnlySetPending(log: seq<Entry>) {
    forall i :: 0 <= i < |log| ==> log[i].call.SetPending?
  }

  /** `chain` is the exceptions of the calls from `from` on, newest first, each with its own message;
      only that of the oldest may carry more. */
  predicate NewestFirst(chain: seq<Exception>, log: seq<Entry>, from: nat)
    requires OnlySetPending(log) && from < |log|
  {
    && |chain| == |log| - from
    && (forall i :: 0 <= i < |chain| ==> chain[i].kind == log[|log| - 1 - i].call.kind)
    && (forall i :: 0 <= i < |chain| && (i < |chain| - 1 || from == 0) ==>
          chain[i].message == log[|log| - 1 - i].call.message)
  }

  /** After any sequence of `SetPending*` calls of which the ones from `from` on nest, and the one
      at `from` is the first of all or folds, the pending exception's chain is exactly those
      exceptions, newest first, each with its own message (a folding oldest one carries more). */
  lemma {:induction false} ChainIsNewestFirst(log: seq<Entry>, from: nat)
    requires OnlySetPending(log) && from < |log|
    requires forall i :: from < i < |log| ==> !Folds(log[i].call.kind)
    requires from == 0 || Folds(log[from].call.kind)
    ensures NewestFirst(Chain(SlotAfter(log)), log, from)
  {
    var n := |log| - 1;
    var shorter := log[..n];
    if from < n {
      ChainIsNewestFirst(shorter, from);
      NestingGrowsChain(log);
      hide Chain, SlotAfter;
      var call := log[n].call;
      OneMoreInChain(Chain(SlotAfter(shorter)), log, from,
                     Exception(call.kind, call.message, call.param, SlotAfter(shorter)));
    } else if from == 0 {
      assert SlotAfter(shorter) == None;
    }
  }

  lemma OneMoreInChain(rest: seq<Exception>, log: seq<Entry>, from: nat, e: Exception)
    requires OnlySetPending(log) && from < |log| - 1
    requires e.kind == log[|log| - 1].call.kind && e.message == log[|log| - 1].call.message
    requires OnlySetPending(log[..|log| - 1]) && NewestFirst(rest, log[..|log| - 1], from)
    ensures NewestFirst([e] + rest, log, from)
  {
    var chain, n := [e] + rest, |log| - 1;
    forall i | 0 <= i < |chain|
      ensures chain[i].kind == log[n - i].call.kind
      ensures i < |chain| - 1 || from == 0 ==> chain[i].message == log[n - i].call.message
    {
      if i > 0 {
        assert chain[i] == rest[i - 1] && log[..n][n - 1 - (i - 1)] == log[n - i];
      }
    }
  }

  /** A `SetPending*` call that nests puts its exception in front of the chain. */
  lemma {:induction false} NestingGrowsChain(log: seq<Entry>)
    requires log != []
    requires (var call := log[|log| - 1].call; call.SetPending? && !Folds(call.kind))
    ensures (var call := log[|log| - 1].call; var prior := SlotAfter(log[..|log| - 1]);
             Chain(SlotAfter(log)) == [Exception(call.kind, call.message, call.param, prior)] + Chain(prior))
  {
  }

  // ---------- what the exceptions say ----------

  /** What a `SetPending*` call leaves in the slot after a log: an exception of its own kind, message
      and parameter with the earlier exception inside; for the two kinds that take no inner exception
      the message of the earlier one follows the call's own. */
  lemma PendingAfterCall(log: seq<Entry>, kind: Kind, message: string, param: string, r: Result)
    ensures (var prior := SlotAfter(log);
             SlotAfter(log + [Entry(SetPending(kind, message, param), r)])
             == if kind == ArgumentNull || kind == ArgumentOutOfRange then
                  Some(Exception(kind,
                                 if prior.None? then message else message + " Inner Exception: " + prior.value.message,
                                 param, None))
                else Some(Exception(kind, message, param, prior)))
  {
    var longer := log + [Entry(SetPending(kind, message, param), r)];
    assert longer[..|log|] == log;
  }

  /** And the other calls: `Set` fills an empty slot and leaves a filled one, `Retrieve` empties it,
      `Pending` leaves it. */
  lemma SlotAfterOther(log: seq<Entry>, e: Exception, r: Result)
    ensures SlotAfter(log + [Entry(Set(e), r)]) == if SlotAfter(log).None? then Some(e) else SlotAfter(log)
    ensures SlotAfter(log + [Entry(Retrieve, r)]) == None
    ensures SlotAfter(log + [Entry(GetPending, r)]) == SlotAfter(log)
  {
    forall call: Call
      ensures SlotAfter(log + [Entry(call, r)]) == Apply(SlotAfter(log), call).0
    {
      assert (log + [Entry(call, r)])[..|log|] == log;
    }
  }

  /** The answer of every finished `Retrieve` is the exception that was pending before it. */
  lemma RetrieveIsExact(schedule: Schedule, t: ThreadId, i: nat)
    requires t in Run(schedule).threads && i < |Run(schedule).threads[t].log|
    requires Run(schedule).threads[t].log[i].call.Retrieve?
    ensures (var log := Run(schedule).threads[t].log; log[i].result == Got(SlotAfter(log[..i])))
  {
    ThreadsCannotTell(schedule, t);
  }

  /** The answer of every finished `Set` is that it is done, or names the exception that was pending
      and the one it could not store; that of a `SetPending*` callback is always that it is done. */
  lemma SetIsExact(schedule: Schedule, t: ThreadId, i: nat)
    requires t in Run(schedule).threads && i < |Run(schedule).threads[t].log|
    ensures (var log := Run(schedule).threads[t].log; var before := SlotAfter(log[..i]);
             && (log[i].call.Set? ==>
                   log[i].result == if before.None? then Done else Fatal(before.value, log[i].call.e))
             && (log[i].call.SetPending? ==> log[i].result == Done))
  {
    ThreadsCannotTell(schedule, t);
  }

  /** Messages, newest first, with the separator between them. */
  function Told(messages: seq<string>): string
    requires messages != []
  {
    if |messages| == 1 then messages[0]
    else messages[|messages| - 1] + " Inner Exception: " + Told(messages[..|messages| - 1])
  }

  lemma ToldLast(messages: seq<string>, last: string)
    requires messages != []
    ensures Told(messages + [last]) == last + " Inner Exception: " + Told(messages)
  {
    assert (messages + [last])[..|messages|] == messages;
  }

  predicate OnlyFolding(calls: seq<Entry>) {
    forall i :: 0 <= i < |calls| ==>
      calls[i].call.SetPending? && calls[i].call.kind in {ArgumentNull, ArgumentOutOfRange}
  }

  /** The message of the exception pending before, if any, and those of the calls, oldest first. */
  function Messages(prior: Option<Exception>, calls: seq<Entry>): seq<string>
    requires OnlyFolding(calls)
  {
    (if prior.None? then [] else [prior.value.message])
    + seq(|calls|, i requires 0 <= i < |calls| => calls[i].call.message)
  }

  lemma MessagesLast(prior: Option<Exception>, calls: seq<Entry>)
    requires calls != [] && OnlyFolding(calls)
    ensures (var n := |calls| - 1;
             && OnlyFolding(calls[..n])
             && Messages(prior, calls) == Messages(prior, calls[..n]) + [calls[n].call.message])
  {
  }

  /** After a run of folding calls the message is all their messages, newest first, then that of the
      exception that was pending before them. */
  lemma {:induction false} FoldedMessages(log: seq<Entry>, calls: seq<Entry>)
    requires calls != [] && OnlyFolding(calls)
    ensures (var last := calls[|calls| - 1].call;
             && Messages(SlotAfter(log), calls) != []
             && SlotAfter(log + calls)
                == Some(Exception(last.kind, Told(Messages(SlotAfter(log), calls)), last.param, None)))
  {
    var n := |calls| - 1;
    var last, fewer := calls[n].call, calls[..n];
    assert log + calls == (log + fewer) + [calls[n]];
    assert calls[n] == Entry(SetPending(last.kind, last.message, last.param), calls[n].result);
    PendingAfterCall(log + fewer, last.kind, last.message, last.param, calls[n].result);
    MessagesLast(SlotAfter(log), calls);
    if n == 0 {
      assert log + fewer == log;
      FirstMessage(SlotAfter(log), fewer, last.message);
    } else {
      hide SlotAfter, Told, Messages;
      FoldedMessages(log, fewer);
      ToldLast(Messages(SlotAfter(log), fewer), last.message);
    }
  }

  lemma FirstMessage(prior: Option<Exception>, none: seq<Entry>, message: string)
    requires none == []
    ensures Told(Messages(prior, none) + [message])
         == if prior.None? then message else message + " Inner Exception: " + prior.value.message
  {
    if prior.Some? {
      assert Messages(prior, none) == [prior.value.message];
      ToldLast([prior.value.message], message);
    } else {
      assert Messages(prior, none) + [message] == [message];
    }
  }
}
