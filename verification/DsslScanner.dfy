/** The interpreter loop of `dssl_parse`, run on one command line.

    The loop reads the tables of `DsslTables`, keeps `p`, `ts` and `te`, and steps the cursor back
    when a match was lost. For every set of tables that meets `WellFormed`, a condition on single
    transitions, and for every input, it computes maximal munch. */
module DsslScanner {
  import opened DsslTables
  import opened TokenMachine

  /** A null `ts` or `te`. */
  const NULL: int := -1

  /** Semantic action `code` (a command, an option, a value...) performed with the cursor at `at`. */
  datatype Deed = Deed(code: nat, at: int)

  // ---------- actions ----------

  const CLEAR_START: nat := 74
  const MARK_START: nat := 75
  const MARK_END: nat := 76

  predicate Semantic(code: nat) { code < CLEAR_START }

  /** How a closing action ends the token. */
  function ExitOf(code: nat): Exit {
    if code == 77 || code == 78 then Here
    else if 79 <= code <= 83 then Before
    else if code == 84 || code == 85 then AtMark
    else Missing
  }

  /** What the actions read and write (`p`, `ts`, `te`) and what they leave behind. */
  datatype Registers = Registers(p: int, ts: int, te: int, tokens: seq<Token>, deeds: seq<Deed>)

  function Perform(code: nat, r: Registers): Registers {
    if Semantic(code) then r.(deeds := r.deeds + [Deed(code, r.p)])
    else if code == CLEAR_START then r.(ts := NULL)
    else if code == MARK_START then r.(ts := r.p)
    else if code == MARK_END then r.(te := r.p + 1)
    else
      match ExitOf(code)
      case Here => r.(te := r.p + 1, tokens := r.tokens + [Token(r.ts, r.p + 1)])
      case Before => r.(te := r.p, tokens := r.tokens + [Token(r.ts, r.p)], p := r.p - 1)
      case AtMark => r.(tokens := r.tokens + [Token(r.ts, r.te)], p := r.te - 1)
      case Missing => r
  }

  function PerformAll(codes: seq<nat>, r: Registers): Registers {
    if codes == [] then r
    else Perform(codes[|codes| - 1], PerformAll(codes[..|codes| - 1], r))
  }

  /** What each action code does to `p`, `ts` and `te`, code by code. */
  lemma ActionCodes(code: nat, r: Registers)
    ensures (var r' := Perform(code, r);
             && (code < 74 ==> r' == r.(deeds := r.deeds + [Deed(code, r.p)]))
             && (code == 74 ==> r' == r.(ts := -1))
             && (code == 75 ==> r' == r.(ts := r.p))
             && (code == 76 ==> r' == r.(te := r.p + 1))
             && (code in {77, 78} ==> r' == r.(te := r.p + 1, tokens := r.tokens + [Token(r.ts, r.p + 1)]))
             && (79 <= code <= 83 ==> r' == r.(te := r.p, tokens := r.tokens + [Token(r.ts, r.p)], p := r.p - 1))
             && (code in {84, 85} ==> r' == r.(tokens := r.tokens + [Token(r.ts, r.te)], p := r.te - 1))
             && (code > 85 ==> r' == r))
  {
  }

  /** The semantic actions of a list, all performed at `at`. */
  function Deeds(codes: seq<nat>, at: int): seq<Deed> {
    if codes == [] then []
    else
      var last := codes[|codes| - 1];
      Deeds(codes[..|codes| - 1], at) + (if Semantic(last) then [Deed(last, at)] else [])
  }

  /** Lists one after the other perform one after the other. */
  lemma {:induction false} DeedsAppend(a: seq<nat>, b: seq<nat>, at: int)
    ensures Deeds(a + b, at) == Deeds(a, at) + Deeds(b, at)
  {
    if b == [] {
      assert a + b == a;
    } else {
      var shorter := b[..|b| - 1];
      assert (a + b)[..|a + b| - 1] == a + shorter;
      DeedsAppend(a, shorter, at);
    }
  }

  /** All codes below 74 are performed, in order and where the cursor stands, and no others. */
  lemma {:induction false} DeedsInOrder(codes: seq<nat>, at: int)
    ensures (forall i :: 0 <= i < |codes| ==> codes[i] < 74) ==>
              Deeds(codes, at) == seq(|codes|, i requires 0 <= i < |codes| => Deed(codes[i], at))
    ensures (forall i :: 0 <= i < |codes| ==> codes[i] >= 74) ==> Deeds(codes, at) == []
  {
    if codes != [] {
      DeedsInOrder(codes[..|codes| - 1], at);
    }
  }

  /** The inner loop over an action list. */
  method RunActions(codes: seq<nat>, r0: Registers) returns (r: Registers)
    ensures r == PerformAll(codes, r0)
  {
    r := r0;
    var i := 0;
    while i < |codes|
      invariant 0 <= i <= |codes| && r == PerformAll(codes[..i], r0)
    {
      r := Perform(codes[i], r);
      i := i + 1;
      assert codes[..i][..i - 1] == codes[..i - 1];
    }
    assert codes[..i] == codes;
  }

  predicate Internal(codes: seq<nat>) {
    forall i :: 0 <= i < |codes| ==> Semantic(codes[i]) || codes[i] == MARK_END
  }

  predicate Closing(codes: seq<nat>) {
    && codes != [] && ExitOf(codes[|codes| - 1]) != Missing
    && forall i :: 0 <= i < |codes| - 1 ==> Semantic(codes[i])
  }

  lemma {:induction false} InternalCodes(codes: seq<nat>, r: Registers)
    requires Internal(codes)
    ensures PerformAll(codes, r)
         == r.(te := if MARK_END in codes then r.p + 1 else r.te, deeds := r.deeds + Deeds(codes, r.p))
  {
    if codes != [] {
      var shorter := codes[..|codes| - 1];
      InternalCodes(shorter, r);
      assert codes == shorter + [codes[|codes| - 1]];
    }
  }

  lemma {:induction false} SemanticCodes(codes: seq<nat>, r: Registers)
    requires forall i :: 0 <= i < |codes| ==> Semantic(codes[i])
    ensures PerformAll(codes, r) == r.(deeds := r.deeds + Deeds(codes, r.p))
  {
    if codes != [] {
      SemanticCodes(codes[..|codes| - 1], r);
    }
  }

  lemma ClosingCodes(codes: seq<nat>, r: Registers)
    requires Closing(codes)
    ensures var r', e := PerformAll(codes, r), End(ExitOf(codes[|codes| - 1]), r.p, r.te);
            && r'.p == e - 1 && r'.tokens == r.tokens + [Token(r.ts, e)]
            && r'.deeds == r.deeds + Deeds(codes, r.p)
  {
    SemanticCodes(codes[..|codes| - 1], r);
  }

  // ---------- tables fit for scanning ----------

  function Target(t: Tables, trans: nat): nat {
    if IsTransition(t, trans) then t.transTargs[trans] else 0
  }

  function Codes(t: Tables, trans: nat): seq<nat> {
    if trans < |t.transActions| && t.transActions[trans] != 0 && IsActionList(t, t.transActions[trans])
    then ActionList(t, t.transActions[trans]) else []
  }

  /** The list a transition names: its length, then its codes. Offset 0 is no list. */
  lemma CodesOfTransition(t: Tables, trans: nat)
    requires trans < |t.transActions| && IsActionList(t, t.transActions[trans])
    ensures (var k := t.transActions[trans];
             Codes(t, trans) == if k == 0 then [] else t.actions[k + 1..k + 1 + t.actions[k]])
  {
  }

  /** What following `trans` means for the token being read. State 0 is the error state. */
  function MoveOf(t: Tables, trans: nat): Move {
    var next, codes := Target(t, trans), Codes(t, trans);
    if next == t.start then Close(if codes == [] then Missing else ExitOf(codes[|codes| - 1]))
    else if next == 0 then Fail
    else On(next, MARK_END in codes)
  }

  /** The transition that state `cs` takes at the end of input, plus one; zero when there is none. */
  function EofTrans(t: Tables, cs: nat): nat {
    if cs < |t.eofTrans| then t.eofTrans[cs] else 0
  }

  function EofExit(t: Tables, cs: nat): Exit {
    if EofTrans(t, cs) == 0 then Missing
    else
      var move := MoveOf(t, EofTrans(t, cs) - 1);
      if move.Close? then move.exit else Missing
  }

  /** `trans` leads out of `cs` on some character. */
  predicate Leaves(t: Tables, cs: nat, trans: nat) {
    && HasSlices(t, cs)
    && var from := t.indexOffsets[cs];
       trans in t.indicies[from..from + t.singleLengths[cs] + t.rangeLengths[cs] + 1]
  }

  /** The action list of `trans` has the form its target calls for. */
  predicate ListFits(t: Tables, trans: nat) {
    if Target(t, trans) == t.start then Closing(Codes(t, trans)) else Internal(Codes(t, trans))
  }

  predicate LagsAfter(t: Tables, trans: nat) {
    var move := MoveOf(t, trans);
    move.On? && EofExit(t, move.cs) == AtMark
  }

  /** Some character read in `cs` loses the match for the time being. */
  ghost predicate CanLoseMatch(t: Tables, cs: nat) {
    exists trans :: Leaves(t, cs, trans) && LagsAfter(t, trans)
  }

  /** What a scanner needs of the transition `trans` out of state `cs`; see `SoundMove`. */
  ghost predicate TransitionScans(t: Tables, cs: nat, trans: nat) {
    match MoveOf(t, trans)
    case On(d, mark) =>
      && (mark ==> EofExit(t, d) == Before)
      && (EofExit(t, d) == Before && CanLoseMatch(t, d) ==> mark)
      && (EofExit(t, d) != Before ==> (EofExit(t, d) == AtMark <==> EofExit(t, cs) != Missing))
    case Close(exit) => exit == Here || (exit != Missing && exit == EofExit(t, cs))
    case Fail => EofExit(t, cs) == Missing
  }

  /** What a scanner needs of state `cs`: sound transitions out of it; at the end of input either
      no transition, and then (but for the start) the state is not final, or a closing one; and
      `ts` is set when the start state is left and cleared when it is entered, nowhere else. */
  ghost predicate StateScans(t: Tables, cs: nat)
    requires Shape(t) && IsState(t, cs) && StateFits(t, cs)
  {
    && (forall trans :: Leaves(t, cs, trans) ==> ListFits(t, trans) && TransitionScans(t, cs, trans))
    && (if EofTrans(t, cs) == 0 then cs != t.start ==> cs < t.firstFinal
        else
          && Target(t, EofTrans(t, cs) - 1) == t.start && ListFits(t, EofTrans(t, cs) - 1)
          && EofExit(t, cs) != Here)
    && ActionList(t, t.fromStateActions[cs]) == (if cs == t.start then [MARK_START] else [])
    && ActionList(t, t.toStateActions[cs]) == (if cs == t.start then [CLEAR_START] else [])
  }

  ghost predicate WellFormed(t: Tables) {
    && Layout(t)
    && (forall cs :: IsState(t, cs) ==> StateFits(t, cs) && StateScans(t, cs))
    && t.start != 0 && t.firstFinal <= t.start && EofTrans(t, t.start) == 0
    && IsState(t, 0) && EofTrans(t, 0) == 0
  }

  // ---------- the tables as a token machine ----------

  /** The transition state `cs` takes on the character at `p`. */
  function Read(t: Tables, input: seq<Char>, cs: nat, p: nat): nat
    requires p < |input|
  {
    Transition(t, cs, Widen(t, cs, input, p))
  }

  function MoveAt(t: Tables, input: seq<Char>, cs: nat, p: nat): Move {
    if IsState(t, cs) && p < |input| then MoveOf(t, Read(t, input, cs, p)) else Fail
  }

  function MachineOf(t: Tables, input: seq<Char>): Machine {
    Machine(|input|, t.start, (cs: nat, p: nat) => MoveAt(t, input, cs, p), (cs: nat) => EofExit(t, cs))
  }

  lemma ReadLeaves(t: Tables, input: seq<Char>, cs: nat, p: nat)
    requires HasSlices(t, cs) && p < |input|
    ensures Leaves(t, cs, Read(t, input, cs, p))
  {
    var from := t.indexOffsets[cs];
    var i := Slot(t, cs, Widen(t, cs, input, p));
    assert t.indicies[from..from + t.singleLengths[cs] + t.rangeLengths[cs] + 1][i] == t.indicies[from + i];
  }

  lemma ReadScans(t: Tables, input: seq<Char>, cs: nat, p: nat)
    requires WellFormed(t) && IsState(t, cs) && p < |input|
    ensures StateFits(t, cs) && IsTransition(t, Read(t, input, cs, p)) && ListFits(t, Read(t, input, cs, p))
    ensures TransitionScans(t, cs, Read(t, input, cs, p))
  {
    assert StateFits(t, cs) && StateScans(t, cs);
    ReadLeaves(t, input, cs, p);
  }

  lemma LosingIsPossible(t: Tables, input: seq<Char>, cs: nat)
    requires HasSlices(t, cs) && MayLag(MachineOf(t, input), cs)
    ensures CanLoseMatch(t, cs)
  {
    var m := MachineOf(t, input);
    var p: nat :| p < m.size && m.next(cs, p).On? && TokenMachine.Lagging(m, m.next(cs, p).cs);
    ReadLeaves(t, input, cs, p);
    assert LagsAfter(t, Read(t, input, cs, p));
  }

  lemma MoveIsSound(t: Tables, input: seq<Char>, cs: nat, p: nat)
    requires IsState(t, cs) && p < |input| && TransitionScans(t, cs, Read(t, input, cs, p))
    requires var move := MoveAt(t, input, cs, p); move.On? ==> HasSlices(t, move.cs)
    requires forall d :: EofExit(t, d) != Here
    ensures SoundMove(MachineOf(t, input), cs, p)
  {
    var move := MoveAt(t, input, cs, p);
    if move.On? && MayLag(MachineOf(t, input), move.cs) {
      LosingIsPossible(t, input, move.cs);
    }
  }

  lemma NoEofExitHere(t: Tables, cs: nat)
    requires WellFormed(t)
    ensures EofExit(t, cs) != Here
  {
    if IsState(t, cs) {
      assert StateFits(t, cs) && StateScans(t, cs);
    }
  }

  /** Tables whose every transition scans make a sound token machine, on every input. */
  lemma TablesAreSound(t: Tables, input: seq<Char>)
    requires WellFormed(t)
    ensures Sound(MachineOf(t, input))
  {
    forall cs: nat
      ensures EofExit(t, cs) != Here
    {
      NoEofExitHere(t, cs);
    }
    forall cs: nat, p: nat | p < |input|
      ensures SoundMove(MachineOf(t, input), cs, p)
    {
      if IsState(t, cs) {
        ReadScans(t, input, cs, p);
        var d := Target(t, Read(t, input, cs, p));
        assert TransitionFits(t, Read(t, input, cs, p)) && StateFits(t, d);
        MoveIsSound(t, input, cs, p);
      }
    }
  }

  // ---------- what the tokens make the scanner do ----------

  /** A token machine together with the action list of each of its moves. */
  datatype Scanner = Scanner(m: Machine, codes: (nat, nat) -> seq<nat>, eofCodes: nat -> seq<nat>)

  predicate ListMatches(codes: seq<nat>, move: Move) {
    match move
    case On(_, mark) => Internal(codes) && mark == (MARK_END in codes)
    case Close(exit) => Closing(codes) && exit == ExitOf(codes[|codes| - 1])
    case Fail => Internal(codes)
  }

  ghost predicate ListsMatch(s: Scanner) {
    && (forall cs: nat, p: nat :: p < s.m.size ==> ListMatches(s.codes(cs, p), s.m.next(cs, p)))
    && (forall cs: nat :: s.m.eof(cs) != Missing ==> ListMatches(s.eofCodes(cs), Close(s.m.eof(cs))))
  }

  /** The semantic actions performed from state `cs` at `p` until the token is left. */
  function DeedsFrom(s: Scanner, cs: nat, p: nat): seq<Deed>
    decreases s.m.size - p
  {
    if p < s.m.size then
      var move := s.m.next(cs, p);
      Deeds(s.codes(cs, p), p) + (if move.On? then DeedsFrom(s, move.cs, p + 1) else [])
    else if s.m.eof(cs) != Missing then Deeds(s.eofCodes(cs), p)
    else []
  }

  /** The semantic actions performed while recognising `tokens`, characters read ahead included. */
  function DeedsOf(s: Scanner, tokens: seq<Token>): seq<Deed> {
    if tokens == [] then []
    else
      var last := tokens[|tokens| - 1];
      DeedsOf(s, tokens[..|tokens| - 1]) + (if 0 <= last.start then DeedsFrom(s, s.m.start, last.start) else [])
  }

  lemma DeedsOneMore(s: Scanner, tokens: seq<Token>, b: nat, e: nat)
    ensures DeedsOf(s, tokens + [Token(b, e)]) == DeedsOf(s, tokens) + DeedsFrom(s, s.m.start, b)
  {
    assert (tokens + [Token(b, e)])[..|tokens|] == tokens;
  }

  // ---------- one turn of the loop ----------

  /** The characters from `b` to the cursor are being read as a token, and `todo` is what is missing
      from `all`, the semantic actions due up to the end of that token. */
  ghost predicate Scanning(m: Machine, b: nat, cs: nat, r: Registers, todo: seq<Deed>, all: seq<Deed>) {
    && 0 <= r.p <= m.size && Reading(m, b, r.p, cs, r.te)
    && r.ts == (if cs == m.start then NULL else b)
    && r.deeds + todo == all
  }

  /** An internal transition keeps the invariant; `own` are its semantic actions. */
  lemma ScanOn(m: Machine, b: nat, cs: nat, r: Registers, r': Registers, own: seq<Deed>, rest: seq<Deed>, all: seq<Deed>)
    requires Sound(m) && Scanning(m, b, cs, r, own + rest, all) && r.p < m.size && m.next(cs, r.p).On?
    requires r' == r.(p := r.p + 1, ts := b, te := if m.next(cs, r.p).mark then r.p + 1 else r.te,
                      deeds := r.deeds + own)
    ensures Scanning(m, b, m.next(cs, r.p).cs, r', rest, all)
  {
    ReadOn(m, b, r.p, cs, r.te);
    assert (r.deeds + own) + rest == r.deeds + (own + rest);
    assert SoundMove(m, cs, r.p);
  }

  /** A transition back to the start, on a character or at the end of input, completes a token. */
  lemma ScanToken(m: Machine, b: nat, cs: nat, r: Registers, r': Registers, exit: Exit,
                  own: seq<Deed>, rest: seq<Deed>, all: seq<Deed>)
    requires Sound(m) && Scanning(m, b, cs, r, own, all) && exit != Missing
    requires if r.p < m.size then m.next(cs, r.p) == Close(exit) else m.eof(cs) == exit
    requires Munched(m, r.tokens, b)
    requires var e := End(exit, r.p, r.te);
             r'.p == e && r'.ts == NULL && r'.tokens == r.tokens + [Token(b, e)] && r'.deeds == r.deeds + own
    ensures b < r'.p <= m.size && Munched(m, r'.tokens, r'.p)
    ensures Scanning(m, r'.p, m.start, r', rest, all + rest)
  {
    hide Sound, Munched, Reading, Longest;
    CloseIsLongest(m, b, r.p, cs, r.te, exit);
    MunchOneMore(m, r.tokens, b, r'.p - b);
    StartReading(m, r'.p, r'.te);
  }

  /** The loop invariant: the tokens are munched up to `b`, and one more is being read. */
  ghost predicate Turning(s: Scanner, b: nat, cs: nat, r: Registers) {
    && 0 <= r.p
    && Scanning(s.m, b, cs, r, DeedsFrom(s, cs, r.p), DeedsOf(s, r.tokens) + DeedsFrom(s, s.m.start, b))
    && Munched(s.m, r.tokens, b)
  }

  lemma TurningBounds(s: Scanner, b: nat, cs: nat, r: Registers)
    requires Turning(s, b, cs, r)
    ensures b <= r.p <= s.m.size && (cs == s.m.start <==> b == r.p)
    ensures r.ts == (if cs == s.m.start then NULL else b) && MunchedTo(s.m, r.tokens, b)
  {
  }

  /** `Munched`, with the position spelled out. */
  ghost predicate MunchedTo(m: Machine, tokens: seq<Token>, to: nat) {
    Munched(m, tokens, to) && to == if tokens == [] then 0 else tokens[|tokens| - 1].end
  }

  lemma MunchedEnd(m: Machine, tokens: seq<Token>, to: nat)
    requires MunchedTo(m, tokens, to)
    ensures Munched(m, tokens, to) && to == if tokens == [] then 0 else tokens[|tokens| - 1].end
  {
  }

  /** A turn on a character that stays in the token. */
  lemma TurnOn(s: Scanner, b: nat, cs: nat, r: Registers, r': Registers, d: nat, mark: bool, own: seq<Deed>)
    requires Sound(s.m) && Turning(s, b, cs, r) && r.p < s.m.size && s.m.next(cs, r.p) == On(d, mark)
    requires own == Deeds(s.codes(cs, r.p), r.p)
    requires r' == r.(p := r.p + 1, ts := b, te := if mark then r.p + 1 else r.te, deeds := r.deeds + own)
    ensures Turning(s, b, d, r')
  {
    hide Deeds;
    ScanOn(s.m, b, cs, r, r', own, DeedsFrom(s, d, r.p + 1), DeedsOf(s, r.tokens) + DeedsFrom(s, s.m.start, b));
  }

  /** A turn that ends a token, on a character or at the end of input. */
  lemma TurnToken(s: Scanner, b: nat, cs: nat, r: Registers, r': Registers, exit: Exit, own: seq<Deed>)
    requires Sound(s.m) && Turning(s, b, cs, r) && exit != Missing
    requires if r.p < s.m.size then s.m.next(cs, r.p) == Close(exit) && own == Deeds(s.codes(cs, r.p), r.p)
             else s.m.eof(cs) == exit && own == Deeds(s.eofCodes(cs), r.p)
    requires var e := End(exit, r.p, r.te);
             r'.p == e && r'.ts == NULL && r'.tokens == r.tokens + [Token(b, e)] && r'.deeds == r.deeds + own
    ensures b < r'.p <= s.m.size && Turning(s, r'.p, s.m.start, r')
  {
    CloseIsLongest(s.m, b, r.p, cs, r.te, exit);
    DeedsOneMore(s, r.tokens, b, r'.p);
    ScanToken(s.m, b, cs, r, r', exit, own, DeedsFrom(s, s.m.start, r'.p),
              DeedsOf(s, r.tokens) + DeedsFrom(s, s.m.start, b));
  }

  /** A turn that finds an error, or the end of input with no token in sight. */
  lemma TurnFails(s: Scanner, b: nat, cs: nat, r: Registers, own: seq<Deed>)
    requires Sound(s.m) && Turning(s, b, cs, r)
    requires if r.p < s.m.size then s.m.next(cs, r.p) == Fail && own == Deeds(s.codes(cs, r.p), r.p)
             else s.m.eof(cs) == Missing && own == []
    ensures Stuck(s.m, b) && r.deeds + own == DeedsOf(s, r.tokens) + DeedsFrom(s, s.m.start, b)
  {
    GiveUp(s.m, b, r.p, cs, r.te);
  }

  /** What the list of the move just made does to the registers. */
  lemma ListDoes(codes: seq<nat>, move: Move, r: Registers)
    requires ListMatches(codes, move)
    ensures var r' := PerformAll(codes, r);
            && r'.deeds == r.deeds + Deeds(codes, r.p)
            && match move
               case On(_, mark) =>
                 r' == r.(te := if mark then r.p + 1 else r.te, deeds := r'.deeds)
               case Close(exit) =>
                 var e := End(exit, r.p, r.te);
                 exit != Missing && r'.p == e - 1 && r'.tokens == r.tokens + [Token(r.ts, e)]
               case Fail => r'.tokens == r.tokens
  {
    if move.Close? {
      ClosingCodes(codes, r);
    } else {
      InternalCodes(codes, r);
    }
  }

  // ---------- the tables as a scanner ----------

  function CodesAt(t: Tables, input: seq<Char>, cs: nat, p: nat): seq<nat> {
    if IsState(t, cs) && p < |input| then Codes(t, Read(t, input, cs, p)) else []
  }

  function EofCodes(t: Tables, cs: nat): seq<nat> {
    if EofTrans(t, cs) == 0 then [] else Codes(t, EofTrans(t, cs) - 1)
  }

  function ScannerOf(t: Tables, input: seq<Char>): Scanner {
    Scanner(MachineOf(t, input), (cs: nat, p: nat) => CodesAt(t, input, cs, p), (cs: nat) => EofCodes(t, cs))
  }

  lemma MoveMatches(t: Tables, trans: nat)
    requires ListFits(t, trans)
    ensures ListMatches(Codes(t, trans), MoveOf(t, trans))
  {
  }

  lemma TablesMatch(t: Tables, input: seq<Char>)
    requires WellFormed(t)
    ensures ListsMatch(ScannerOf(t, input))
  {
    forall cs: nat, p: nat | p < |input|
      ensures ListMatches(CodesAt(t, input, cs, p), MoveAt(t, input, cs, p))
    {
      if IsState(t, cs) {
        ReadScans(t, input, cs, p);
        MoveMatches(t, Read(t, input, cs, p));
      }
    }
    forall cs: nat | EofExit(t, cs) != Missing
      ensures ListMatches(EofCodes(t, cs), Close(EofExit(t, cs)))
    {
      assert StateFits(t, cs) && StateScans(t, cs);
      MoveMatches(t, EofTrans(t, cs) - 1);
    }
  }

  // ---------- the loop ----------

  /** The top of the loop: widening, the two searches, and the transition they select. */
  method NextTransition(t: Tables, cs: nat, input: seq<Char>, p: nat) returns (trans: nat)
    requires WellFormed(t) && IsState(t, cs) && p < |input|
    ensures IsTransition(t, trans) && IsState(t, Target(t, trans))
    ensures CodesAt(t, input, cs, p) == Codes(t, trans) && MoveAt(t, input, cs, p) == MoveOf(t, trans)
  {
    StateOfLayout(t, cs);
    var widec := WidenAt(t, cs, input, p);
    var slot := FindSlot(t, cs, widec);
    hide *;
    SlotIsRead(t, cs, input, p, slot);
    trans := t.indicies[slot];
  }

  lemma StateOfLayout(t: Tables, cs: nat)
    requires WellFormed(t) && IsState(t, cs)
    ensures Shape(t) && StateFits(t, cs) && HasSlices(t, cs)
  {
  }

  lemma SlotIsRead(t: Tables, cs: nat, input: seq<Char>, p: nat, slot: nat)
    requires WellFormed(t) && IsState(t, cs) && p < |input| && HasSlices(t, cs)
    requires slot == t.indexOffsets[cs] + Slot(t, cs, Widen(t, cs, input, p))
    ensures slot < |t.indicies|
    ensures (var trans := t.indicies[slot];
             && IsTransition(t, trans) && IsState(t, Target(t, trans))
             && CodesAt(t, input, cs, p) == Codes(t, trans) && MoveAt(t, input, cs, p) == MoveOf(t, trans))
  {
    hide Slot, Widen, StateScans, Codes, MoveOf;
    var trans := t.indicies[slot];
    assert trans == Read(t, input, cs, p);
    assert IsTransition(t, trans) && TransitionFits(t, trans);
  }

  /** The actions of the transition taken. */
  method FollowTransition(t: Tables, trans: nat, r: Registers) returns (r': Registers)
    requires Layout(t) && IsTransition(t, trans)
    ensures r' == PerformAll(Codes(t, trans), r)
  {
    assert TransitionFits(t, trans);
    r' := r;
    if t.transActions[trans] != 0 {
      r' := RunActions(ActionList(t, t.transActions[trans]), r);
    }
  }

  method LeaveState(t: Tables, cs: nat, r: Registers) returns (r': Registers)
    requires WellFormed(t) && IsState(t, cs)
    ensures r' == if cs == t.start then r.(ts := r.p) else r
  {
    assert StateFits(t, cs) && StateScans(t, cs);
    r' := RunActions(ActionList(t, t.fromStateActions[cs]), r);
  }

  method EnterState(t: Tables, cs: nat, r: Registers) returns (r': Registers)
    requires WellFormed(t) && IsState(t, cs)
    ensures r' == if cs == t.start then r.(ts := NULL) else r
  {
    assert StateFits(t, cs) && StateScans(t, cs);
    r' := RunActions(ActionList(t, t.toStateActions[cs]), r);
  }

  /** `_test_eof`: the transition to take at the end of input, or -1 when there is none. */
  method EofTransition(t: Tables, cs: nat) returns (trans: int)
    requires WellFormed(t) && IsState(t, cs)
    ensures -1 <= trans < |t.transTargs| == |t.transActions|
    ensures trans == -1 ==> EofExit(t, cs) == Missing && (cs != t.start ==> cs < t.firstFinal)
    ensures trans != -1 ==>
              && IsTransition(t, trans) && IsState(t, t.transTargs[trans])
              && t.transTargs[trans] == t.start && EofExit(t, cs) != Missing
              && MoveOf(t, trans) == Close(EofExit(t, cs)) && EofCodes(t, cs) == Codes(t, trans)
              && cs != t.start
  {
    EofIsClosing(t, cs);
    hide *;
    EofTransIs(t, cs);
    trans := if t.eofTrans[cs] == 0 then -1 else t.eofTrans[cs] - 1;
  }

  lemma EofTransIs(t: Tables, cs: nat)
    requires WellFormed(t) && IsState(t, cs)
    ensures cs < |t.eofTrans| && t.eofTrans[cs] == EofTrans(t, cs)
  {
  }

  lemma EofIsClosing(t: Tables, cs: nat)
    requires WellFormed(t) && IsState(t, cs)
    ensures EofTrans(t, cs) <= |t.transTargs| == |t.transActions|
    ensures EofTrans(t, cs) == 0 ==> EofExit(t, cs) == Missing && (cs != t.start ==> cs < t.firstFinal)
    ensures EofTrans(t, cs) != 0 ==>
              (var trans := EofTrans(t, cs) - 1;
               && IsTransition(t, trans) && IsState(t, t.transTargs[trans])
               && t.transTargs[trans] == t.start && EofExit(t, cs) != Missing
               && MoveOf(t, trans) == Close(EofExit(t, cs)) && EofCodes(t, cs) == Codes(t, trans)
               && cs != t.start)
  {
    assert StateFits(t, cs) && StateScans(t, cs);
    hide Codes, Singles, Ranges, CondRanges, Leaves, TransitionScans;
    if EofTrans(t, cs) != 0 {
      ClosingExit(t, EofTrans(t, cs) - 1);
    }
  }

  lemma ClosingExit(t: Tables, trans: nat)
    requires Layout(t) && IsTransition(t, trans) && Target(t, trans) == t.start && ListFits(t, trans)
    ensures MoveOf(t, trans).Close? && MoveOf(t, trans).exit != Missing && IsState(t, t.transTargs[trans])
  {
    assert TransitionFits(t, trans);
  }

  lemma Arrival(t: Tables, trans: nat)
    requires WellFormed(t) && IsTransition(t, trans) && IsState(t, Target(t, trans))
    ensures Arrives(t, trans, t.transTargs[trans]) && |t.transTargs| == |t.transActions|
  {
    hide Codes, StateFits, StateScans, TransitionFits;
  }

  /** `_resume` or `_test_eof`: the transition to take, or -1 when there is none. */
  method Select(t: Tables, input: seq<Char>, cs: nat, r: Registers) returns (trans: int, r': Registers)
    requires WellFormed(t) && IsState(t, cs) && 0 <= r.p <= |input|
    ensures -1 <= trans < |t.transTargs| == |t.transActions|
    ensures trans == -1 ==> r' == r && r.p == |input| && EofExit(t, cs) == Missing && (cs != t.start ==> cs < t.firstFinal)
    ensures trans != -1 && r.p < |input| ==>
              && MoveAt(t, input, cs, r.p) == MoveOf(t, trans) && CodesAt(t, input, cs, r.p) == Codes(t, trans)
              && r' == if cs == t.start then r.(ts := r.p) else r
    ensures trans != -1 && r.p == |input| ==>
              && t.transTargs[trans] == t.start && EofExit(t, cs) != Missing
              && MoveOf(t, trans) == Close(EofExit(t, cs)) && EofCodes(t, cs) == Codes(t, trans)
              && cs != t.start && r' == r
    ensures trans != -1 ==> IsTransition(t, trans) && Arrives(t, trans, t.transTargs[trans])
  {
    hide *;
    r' := r;
    if r.p != |input| {
      trans := NextTransition(t, cs, input, r.p);
      r' := LeaveState(t, cs, r);
    } else {
      trans := EofTransition(t, cs);
    }
    if trans != -1 {
      TargetIs(t, trans);
      Arrival(t, trans);
    }
  }

  lemma TargetIs(t: Tables, trans: nat)
    requires IsTransition(t, trans)
    ensures trans < |t.transTargs| && Target(t, trans) == t.transTargs[trans]
  {
  }

  lemma ScannerReads(t: Tables, input: seq<Char>, cs: nat, p: nat)
    ensures var s := ScannerOf(t, input);
            && s.m.next(cs, p) == MoveAt(t, input, cs, p) && s.codes(cs, p) == CodesAt(t, input, cs, p)
            && s.m.eof(cs) == EofExit(t, cs) && s.eofCodes(cs) == EofCodes(t, cs)
            && s.m.size == |input| && s.m.start == t.start
  {
  }

  /** `trans` leads to state `next`, and this is what its move says. */
  predicate Arrives(t: Tables, trans: nat, next: nat) {
    && IsState(t, next)
    && match MoveOf(t, trans)
       case On(d, _) => next == d && next != t.start && next != 0
       case Close(_) => next == t.start
       case Fail => next == 0 && next != t.start
  }

  lemma ArrivalCases(t: Tables, trans: nat, next: nat)
    requires Arrives(t, trans, next)
    ensures IsState(t, next)
    ensures match MoveOf(t, trans)
            case On(d, _) => next == d && next != t.start && next != 0
            case Close(_) => next == t.start
            case Fail => next == 0 && next != t.start
  {
  }

  lemma StartTurning(s: Scanner, r: Registers)
    requires Sound(s.m) && r == Registers(0, NULL, NULL, [], [])
    ensures Turning(s, 0, s.m.start, r)
  {
    StartReading(s.m, 0, NULL);
  }

  lemma WellFormedStates(t: Tables)
    requires WellFormed(t)
    ensures Layout(t) && IsState(t, t.start) && t.start != 0 && 0 < t.firstFinal <= t.start
  {
    assert StateFits(t, 0) && StateScans(t, 0);
  }

  lemma ListsAt(s: Scanner, cs: nat, p: nat)
    requires ListsMatch(s)
    ensures p < s.m.size ==> ListMatches(s.codes(cs, p), s.m.next(cs, p))
    ensures s.m.eof(cs) != Missing ==> ListMatches(s.eofCodes(cs), Close(s.m.eof(cs)))
  {
  }

  /** The loop of the scanner, on the registers and the current state. */
  method Loop(t: Tables, input: seq<Char>, ghost s: Scanner) returns (cs: nat, r: Registers, ghost b: nat)
    requires WellFormed(t) && s == ScannerOf(t, input) && Sound(s.m) && ListsMatch(s)
    ensures MunchedTo(s.m, r.tokens, b) && Stuck(s.m, b) && b <= |input|
    ensures cs >= t.firstFinal <==> b == |input|
    ensures r.deeds == DeedsOf(s, r.tokens) + DeedsFrom(s, s.m.start, b)
  {
    hide *;
    cs := t.start;
    r := Registers(0, NULL, NULL, [], []);
    b := 0;
    WellFormedStates(t);
    ScannerReads(t, input, cs, 0);
    StartTurning(s, r);
    while true
      invariant IsState(t, cs) && cs != 0 && Turning(s, b, cs, r)
      decreases |input| - b, |input| - r.p
    {
      ghost var before, was := r, cs;
      TurningBounds(s, b, cs, r);
      ScannerReads(t, input, cs, r.p);
      ListsAt(s, cs, r.p);
      var trans;
      trans, r := Select(t, input, cs, r);
      if trans == -1 {
        TurnFails(s, b, cs, r, []);
        return;
      }
      // _eof_trans
      cs := t.transTargs[trans];
      ListDoes(Codes(t, trans), MoveOf(t, trans), r);
      r := FollowTransition(t, trans, r);
      ghost var own := Deeds(Codes(t, trans), before.p);
      // _again
      ArrivalCases(t, trans, cs);
      r := EnterState(t, cs, r);
      if cs == 0 {
        TurnFails(s, b, was, before, own);
        return;
      }
      r := r.(p := r.p + 1);
      if cs == t.start {
        TurnToken(s, b, was, before, r, MoveOf(t, trans).exit, own);
        b := r.p;
      } else {
        TurnOn(s, b, was, before, r, cs, MoveOf(t, trans).mark, own);
      }
    }
  }

  /** Scans one command line. `tokens` and `deeds` record what the scanner recognises and does. */
  method Scan(t: Tables, input: seq<Char>) returns (cs: nat, tokens: seq<Token>, deeds: seq<Deed>)
    requires WellFormed(t)
    ensures var s := ScannerOf(t, input);
            var stop := if tokens == [] then 0 else tokens[|tokens| - 1].end;
            && 0 <= stop <= |input|
            && Munched(s.m, tokens, stop) && Stuck(s.m, stop)
            && (cs >= t.firstFinal <==> stop == |input|)
            && deeds == DeedsOf(s, tokens) + DeedsFrom(s, s.m.start, stop)
  {
    TablesAreSound(t, input);
    TablesMatch(t, input);
    hide *;
    var r;
    ghost var b;
    cs, r, b := Loop(t, input, ScannerOf(t, input));
    MunchedEnd(MachineOf(t, input), r.tokens, b);
    tokens, deeds := r.tokens, r.deeds;
  }
}
