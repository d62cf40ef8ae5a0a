/** The scenario runner: a cursor runs over the lines of a buffer, and a `++scenario` line inserts
    the text of a file after itself. The runner is shown to execute what the files, read as nested
    texts, say; it ends exactly when the nesting is finite. */
module Scenario {
  import opened Wrappers
  import opened Text
  import opened Continuation

  /** One parsed line. A line that holds no command, or only a comment, is `Skip`. `Include` is
      `++scenario` with the value of its `--path`, empty when it has none. */
  datatype Command<Op> = Skip | Exit | Include(path: string) | Execute(op: Op)

  /** What the runner does not define itself. Parsing a line may add parameters to the context, and
      fails on a line it cannot read. */
  datatype World<!C, !Op> = World(
    parse: (string, C) -> (Option<Command<Op>>, C),
    exec: (Op, C) -> C,
    file: string -> Option<string>
  )

  /** The context of the commands, and the commands executed so far. */
  datatype State<C, Op> = State(context: C, done: seq<Op>)

  /** `Ready`: waiting for the next input. `Dropped`: also waiting, but the rest of the text was
      given up because a line could not be read or an include had no path. */
  datatype Outcome<C, Op> = Ready(state: State<C, Op>) | Dropped(state: State<C, Op>)
                          | Exited(state: State<C, Op>) | TooDeep

  const FILE_BUFFER: nat := 4096

  // ---------- lines ----------

  /** The first line of `text`, with its newline. A text that ends without one gets it from the
      `more` characters that follow, if any. */
  function FirstLine(text: string, more: nat): string {
    var i := Find(text, '\n');
    if i < |text| then text[..i + 1] else if more > 0 then text + "\n" else text
  }

  /** From the newline that ends the first line on. */
  function AfterLine(text: string): (r: string)
    ensures |r| <= |text| && (r == "" || r[0] == '\n')
  {
    text[Find(text, '\n')..]
  }

  function SkipSpace(text: string): (r: string)
    ensures |r| <= |text| && (text != "" && IsSpace(text[0]) ==> |r| < |text|)
  {
    if text != "" && IsSpace(text[0]) then SkipSpace(text[1..]) else text
  }

  /** What a scenario file inserts: its text after a newline, without continuations. A missing file,
      an empty one and one that fills the file buffer insert nothing. */
  function Inserted<C, Op>(w: World<C, Op>, path: string): (r: Option<string>)
    ensures r.Some? ==> 2 <= |r.value| <= FILE_BUFFER - 1
  {
    var content := w.file(path);
    if content.None? || content.value == "" || |content.value| >= FILE_BUFFER - 1 then None
    else Some(Continued("\n" + content.value))
  }

  /** What one line does: end the run, change the state, or insert a text. */
  datatype Effect<C, Op> = Stop(outcome: Outcome<C, Op>) | Go(state: State<C, Op>)
                         | Insert(text: string, state: State<C, Op>)

  function EffectOf<C, Op>(w: World<C, Op>, line: string, s: State<C, Op>): (e: Effect<C, Op>)
    ensures e.Stop? ==> e.outcome.Dropped? || e.outcome.Exited?
  {
    var (command, context) := w.parse(line, s.context);
    var s' := s.(context := context);
    match command
    case None => Stop(Dropped(s'))
    case Some(Skip) => Go(s')
    case Some(Exit) => Stop(Exited(s'))
    case Some(Execute(op)) => Go(State(w.exec(op, context), s.done + [op]))
    case Some(Include(path)) =>
      if path == "" then Stop(Dropped(s'))
      else
        match Inserted(w, path)
        case None => Go(s')
        case Some(text) => Insert(text, s')
  }

  // ---------- the nested reading ----------

  /** Runs `text`, which `more` characters follow, from its first line on. */
  function RunLine<C, Op>(w: World<C, Op>, text: string, more: nat, s: State<C, Op>, depth: nat): Outcome<C, Op>
    decreases depth, |text|, 3
  {
    RunEffect(w, EffectOf(w, FirstLine(text, more), s), text, more, depth)
  }

  function RunEffect<C, Op>(w: World<C, Op>, e: Effect<C, Op>, text: string, more: nat, depth: nat): Outcome<C, Op>
    decreases depth, |text|, 2
  {
    match e
    case Stop(outcome) => outcome
    case Go(s) => RunNext(w, text, more, s, depth)
    case Insert(included, s) =>
      if depth == 0 then TooDeep else RunInclude(w, included, AfterLine(text), more, s, depth)
  }

  /** An included text is run to its end, one level deeper, before the line after the include. */
  function RunInclude<C, Op>(
    w: World<C, Op>, included: string, rest: string, more: nat, s: State<C, Op>, depth: nat): Outcome<C, Op>
    requires depth > 0
    decreases depth, |rest|, 1
  {
    var inner := RunNext(w, included, |rest| + more, s, depth - 1);
    if inner.Ready? then RunNext(w, rest, more, inner.state, depth) else inner
  }

  /** The same from the line after the first newline on. At most two characters are not worth a
      line. */
  function RunNext<C, Op>(w: World<C, Op>, text: string, more: nat, s: State<C, Op>, depth: nat): Outcome<C, Op>
    decreases depth, |text|, 0
  {
    var line := SkipSpace(AfterLine(text));
    if line == "" || |line| + more <= 2 then Ready(s) else RunLine(w, line, more, s, depth)
  }

  /** A whole buffer. */
  function RunBuffer<C, Op>(w: World<C, Op>, text: string, s: State<C, Op>, depth: nat): Outcome<C, Op> {
    if text == "" then Ready(s) else RunLine(w, text, 0, s, depth)
  }

  // ---------- the flat reading ----------

  /** The runner between two lines: about to parse at the head of `rest`, or finished. */
  datatype Cursor<C, Op> = At(rest: string, state: State<C, Op>) | Halt(outcome: Outcome<C, Op>)

  function Next<C, Op>(rest: string, s: State<C, Op>): Cursor<C, Op> {
    var line := SkipSpace(AfterLine(rest));
    if |line| > 2 then At(line, s) else Halt(Ready(s))
  }

  /** One line; an include puts its text before the rest of the buffer. */
  function Turn<C, Op>(w: World<C, Op>, c: Cursor<C, Op>): Cursor<C, Op>
    requires c.At?
  {
    Moved(EffectOf(w, FirstLine(c.rest, 0), c.state), c.rest)
  }

  function Moved<C, Op>(e: Effect<C, Op>, rest: string): Cursor<C, Op> {
    match e
    case Stop(outcome) => Halt(outcome)
    case Go(s) => Next(rest, s)
    case Insert(text, s) => Next(text + AfterLine(rest), s)
  }

  function Turns<C, Op>(w: World<C, Op>, c: Cursor<C, Op>, k: nat): Cursor<C, Op>
    decreases k
  {
    if k == 0 || c.Halt? then c else Turns(w, Turn(w, c), k - 1)
  }

  lemma TurnsAfter<C, Op>(w: World<C, Op>, c: Cursor<C, Op>, k: nat)
    ensures Turns(w, c, 0) == c
    ensures c.Halt? ==> Turns(w, c, k) == c
    ensures c.At? ==> Turns(w, c, k + 1) == Turns(w, Turn(w, c), k)
  {
  }

  lemma {:induction false} TurnsAdd<C, Op>(w: World<C, Op>, c: Cursor<C, Op>, j: nat, k: nat)
    ensures Turns(w, c, j + k) == Turns(w, Turns(w, c, j), k)
    decreases j
  {
    hide Turn, Turns;
    TurnsAfter(w, c, 0);
    if c.Halt? {
      TurnsAfter(w, c, j);
      TurnsAfter(w, c, j + k);
      TurnsAfter(w, c, k);
    } else if j > 0 {
      TurnsAfter(w, c, j - 1);
      TurnsAfter(w, c, j - 1 + k);
      TurnsAdd(w, Turn(w, c), j - 1, k);
    }
  }

  // ---------- one is the other ----------

  predicate Follows(suffix: string) {
    suffix == "" || suffix[0] == '\n'
  }

  lemma NewlineOver(s: string, t: string)
    requires Follows(t)
    ensures Find(s + t, '\n') == Find(s, '\n')
  {
    if '\n' in s {
      FindInPrefix(s, t, '\n');
    } else {
      FindAfter(s, t, '\n');
    }
  }

  lemma LinesOver(text: string, suffix: string)
    requires Follows(suffix)
    ensures FirstLine(text + suffix, 0) == FirstLine(text, |suffix|)
    ensures AfterLine(text + suffix) == AfterLine(text) + suffix
    ensures Follows(AfterLine(text)) && Follows(AfterLine(text) + suffix)
  {
    NewlineOver(text, suffix);
    FirstLineOver(text, suffix);
    AfterLineOver(text, suffix);
  }

  lemma FirstLineOver(text: string, suffix: string)
    requires Follows(suffix) && Find(text + suffix, '\n') == Find(text, '\n')
    ensures FirstLine(text + suffix, 0) == FirstLine(text, |suffix|)
  {
    var i := Find(text, '\n');
    hide Find;
    if i < |text| {
      assert (text + suffix)[..i + 1] == text[..i + 1];
    } else if suffix == "" {
      assert text + suffix == text;
    } else {
      assert (text + suffix)[..i + 1] == text + "\n";
    }
  }

  lemma AfterLineOver(text: string, suffix: string)
    requires Follows(suffix) && Find(text + suffix, '\n') == Find(text, '\n')
    ensures AfterLine(text + suffix) == AfterLine(text) + suffix && Follows(AfterLine(text) + suffix)
  {
    var i := Find(text, '\n');
    hide Find;
    assert (text + suffix)[i..] == text[i..] + suffix;
  }

  lemma {:induction false} SkipSpaceOver(text: string, suffix: string)
    ensures SkipSpace(text + suffix)
         == if SkipSpace(text) == "" then SkipSpace(suffix) else SkipSpace(text) + suffix
  {
    if text == "" {
      assert text + suffix == suffix;
    } else if IsSpace(text[0]) {
      assert (text + suffix)[1..] == text[1..] + suffix;
      SkipSpaceOver(text[1..], suffix);
    }
  }

  /** Moving to the next line of `text + suffix`: within `text`, or else within `suffix`. */
  lemma NextOver<C, Op>(w: World<C, Op>, text: string, suffix: string, s: State<C, Op>, depth: nat)
    returns (line: Option<string>)
    requires Follows(suffix)
    ensures line.None? ==> RunNext(w, text, |suffix|, s, depth) == Ready(s)
                           && Next(text + suffix, s) == Next(suffix, s)
    ensures line.Some? ==> |line.value| < |text|
                           && RunNext(w, text, |suffix|, s, depth) == RunLine(w, line.value, |suffix|, s, depth)
                           && Next(text + suffix, s) == At(line.value + suffix, s)
  {
    LinesOver(text, suffix);
    SkipSpaceOver(AfterLine(text), suffix);
    assert AfterLine(suffix) == suffix;
    var skipped := SkipSpace(AfterLine(text));
    hide RunLine, FirstLine;
    if skipped == "" || |skipped| + |suffix| <= 2 {
      line := None;
      if skipped != "" && suffix != "" {
        assert suffix == "\n";
        assert SkipSpace(suffix) == "";
      }
    } else {
      line := Some(skipped);
    }
  }

  /** What the cursor does once a nested text has been run. */
  function Resume<C, Op>(o: Outcome<C, Op>, suffix: string): Cursor<C, Op> {
    if o.Ready? then Next(suffix, o.state) else Halt(o)
  }

  /** The flat cursor on `text + suffix` runs `text` as the nested reading does, then `suffix`. */
  lemma {:induction false} FlatNext<C, Op>(
    w: World<C, Op>, text: string, suffix: string, s: State<C, Op>, depth: nat) returns (k: nat)
    requires Follows(suffix) && !RunNext(w, text, |suffix|, s, depth).TooDeep?
    ensures Turns(w, Next(text + suffix, s), k) == Resume(RunNext(w, text, |suffix|, s, depth), suffix)
    decreases depth, |text|, 0
  {
    hide RunNext, RunLine, Next, Turn;
    var line := NextOver(w, text, suffix, s, depth);
    k := 0;
    if line.Some? {
      k := FlatLine(w, line.value, suffix, s, depth);
    }
  }

  lemma {:induction false} FlatLine<C, Op>(
    w: World<C, Op>, text: string, suffix: string, s: State<C, Op>, depth: nat) returns (k: nat)
    requires Follows(suffix) && !RunLine(w, text, |suffix|, s, depth).TooDeep?
    ensures Turns(w, At(text + suffix, s), k) == Resume(RunLine(w, text, |suffix|, s, depth), suffix)
    decreases depth, |text|, 4
  {
    LinesOver(text, suffix);
    hide Turns, RunEffect, Follows, EffectOf, FirstLine, AfterLine, Moved;
    var c := At(text + suffix, s);
    k := FlatEffect(w, EffectOf(w, FirstLine(text, |suffix|), s), text, suffix, depth);
    TurnsAfter(w, c, k);
    k := k + 1;
  }

  lemma {:induction false} FlatEffect<C, Op>(
    w: World<C, Op>, e: Effect<C, Op>, text: string, suffix: string, depth: nat) returns (k: nat)
    requires Follows(suffix) && !RunEffect(w, e, text, |suffix|, depth).TooDeep?
    requires e.Stop? ==> !e.outcome.Ready?
    ensures Turns(w, Moved(e, text + suffix), k) == Resume(RunEffect(w, e, text, |suffix|, depth), suffix)
    decreases depth, |text|, 3
  {
    hide Turns, RunNext, Follows, FirstLine, AfterLine, Next;
    if e.Stop? {
      k := 0;
      TurnsAfter(w, Moved(e, text + suffix), 0);
    } else if e.Go? {
      k := FlatNext(w, text, suffix, e.state, depth);
    } else {
      k := FlatInsert(w, e, text, suffix, depth);
    }
  }

  lemma {:induction false} FlatInsert<C, Op>(
    w: World<C, Op>, e: Effect<C, Op>, text: string, suffix: string, depth: nat) returns (k: nat)
    requires e.Insert? && Follows(suffix) && !RunEffect(w, e, text, |suffix|, depth).TooDeep?
    ensures Turns(w, Moved(e, text + suffix), k) == Resume(RunEffect(w, e, text, |suffix|, depth), suffix)
    decreases depth, |text|, 2
  {
    InsertEquations(w, e, text, suffix, depth);
    hide *;
    k := FlatInclude(w, e.text, AfterLine(text), suffix, e.state, depth);
  }

  lemma InsertEquations<C, Op>(w: World<C, Op>, e: Effect<C, Op>, text: string, suffix: string, depth: nat)
    requires e.Insert? && Follows(suffix) && !RunEffect(w, e, text, |suffix|, depth).TooDeep?
    ensures depth > 0 && Follows(AfterLine(text))
    ensures RunEffect(w, e, text, |suffix|, depth) == RunInclude(w, e.text, AfterLine(text), |suffix|, e.state, depth)
    ensures Moved(e, text + suffix) == Next(e.text + (AfterLine(text) + suffix), e.state)
  {
    LinesOver(text, suffix);
    hide RunInclude, RunNext, FirstLine, AfterLine, Next;
  }

  lemma {:induction false} FlatInclude<C, Op>(
    w: World<C, Op>, text: string, rest: string, suffix: string, s: State<C, Op>, depth: nat) returns (k: nat)
    requires depth > 0 && Follows(suffix) && Follows(rest)
    requires !RunInclude(w, text, rest, |suffix|, s, depth).TooDeep?
    ensures Turns(w, Next(text + (rest + suffix), s), k) == Resume(RunInclude(w, text, rest, |suffix|, s, depth), suffix)
    decreases depth, |rest|, 1
  {
    hide *;
    FollowsSum(rest, suffix);
    IncludeRuns(w, text, rest, suffix, s, depth);
    var j := FlatNext(w, text, rest + suffix, s, depth - 1);
    var inner := RunNext(w, text, |rest + suffix|, s, depth - 1);
    ResumeReady(inner, rest + suffix);
    k := 0;
    if inner.Ready? {
      k := FlatNext(w, rest, suffix, inner.state, depth);
    } else {
      ResumeReady(inner, suffix);
    }
    TurnsAdd(w, Next(text + (rest + suffix), s), j, k);
    TurnsAfter(w, Resume(inner, rest + suffix), k);
    k := j + k;
  }

  lemma FollowsSum(rest: string, suffix: string)
    requires Follows(rest) && Follows(suffix)
    ensures Follows(rest + suffix)
  {
  }

  // ---------- when the runner ends ----------

  function Start<C, Op>(text: string, s: State<C, Op>): Cursor<C, Op> {
    if text == "" then Halt(Ready(s)) else At(text, s)
  }

  /** Whatever the runner ends with is what the nested reading says. */
  lemma RunnerFollowsNesting<C, Op>(w: World<C, Op>, text: string, s: State<C, Op>, depth: nat) returns (k: nat)
    requires !RunBuffer(w, text, s, depth).TooDeep?
    ensures Turns(w, Start(text, s), k) == Halt(RunBuffer(w, text, s, depth))
    ensures forall j :: Turns(w, Start(text, s), j).Halt? ==>
              Turns(w, Start(text, s), j) == Halt(RunBuffer(w, text, s, depth))
  {
    k := 0;
    if text != "" {
      k := FlatLine(w, text, "", s, depth);
      assert text + "" == text;
    }
    forall j | Turns(w, Start(text, s), j).Halt?
      ensures Turns(w, Start(text, s), j) == Turns(w, Start(text, s), k)
    {
      HaltStays(w, Start(text, s), j, k);
      HaltStays(w, Start(text, s), k, j);
    }
  }

  lemma HaltStays<C, Op>(w: World<C, Op>, c: Cursor<C, Op>, j: nat, k: nat)
    requires Turns(w, c, k).Halt?
    ensures Turns(w, c, j + k) == Turns(w, c, k)
    ensures Turns(w, Turns(w, c, j), k) == Turns(w, c, k)
  {
    TurnsAdd(w, c, j, k);
    TurnsAdd(w, c, k, j);
    TurnsAfter(w, Turns(w, c, k), j);
  }

  /** A runner that ends within `k` lines has not nested deeper than that. */
  lemma {:induction false} ShallowNext<C, Op>(
    w: World<C, Op>, text: string, suffix: string, s: State<C, Op>, k: nat, depth: nat)
    requires Follows(suffix) && k <= depth && Turns(w, Next(text + suffix, s), k).Halt?
    ensures !RunNext(w, text, |suffix|, s, depth).TooDeep?
    decreases k, 0
  {
    hide Turns, Next, RunLine, RunNext, Follows;
    var line := NextOver(w, text, suffix, s, depth);
    if line.Some? {
      TurnsAfter(w, At(line.value + suffix, s), 0);
      ShallowLine(w, line.value, suffix, s, k - 1, depth);
    }
  }

  lemma {:induction false} ShallowLine<C, Op>(
    w: World<C, Op>, text: string, suffix: string, s: State<C, Op>, k: nat, depth: nat)
    requires Follows(suffix) && k < depth && Turns(w, At(text + suffix, s), k + 1).Halt?
    ensures !RunLine(w, text, |suffix|, s, depth).TooDeep?
    decreases k, 3
  {
    LinesOver(text, suffix);
    TurnsAfter(w, At(text + suffix, s), k);
    hide Turns, RunEffect, Follows, EffectOf, FirstLine, AfterLine, Moved;
    ShallowEffect(w, EffectOf(w, FirstLine(text, |suffix|), s), text, suffix, k, depth);
  }

  lemma {:induction false} ShallowEffect<C, Op>(
    w: World<C, Op>, e: Effect<C, Op>, text: string, suffix: string, k: nat, depth: nat)
    requires Follows(suffix) && k < depth && Turns(w, Moved(e, text + suffix), k).Halt?
    requires e.Stop? ==> !e.outcome.TooDeep?
    ensures !RunEffect(w, e, text, |suffix|, depth).TooDeep?
    decreases k, 2
  {
    hide Turns, RunNext, RunInclude, Follows, FirstLine, AfterLine, Next;
    if e.Go? {
      ShallowNext(w, text, suffix, e.state, k, depth);
    } else if e.Insert? {
      LinesOver(text, suffix);
      ShallowInclude(w, e.text, AfterLine(text), suffix, e.state, k, depth);
    }
  }

  lemma {:induction false} ShallowInclude<C, Op>(
    w: World<C, Op>, text: string, rest: string, suffix: string, s: State<C, Op>, k: nat, depth: nat)
    requires k < depth && Follows(suffix) && Follows(rest)
    requires Turns(w, Next(text + (rest + suffix), s), k).Halt?
    ensures !RunInclude(w, text, rest, |suffix|, s, depth).TooDeep?
    decreases k, 1
  {
    hide *;
    FollowsSum(rest, suffix);
    ShallowNext(w, text, rest + suffix, s, k, depth - 1);
    var inner := RunNext(w, text, |rest + suffix|, s, depth - 1);
    IncludeRuns(w, text, rest, suffix, s, depth);
    if inner.Ready? {
      var j := FlatNext(w, text, rest + suffix, s, depth - 1);
      HaltStays(w, Next(text + (rest + suffix), s), j, k);
      ResumeReady(inner, rest + suffix);
      ShallowNext(w, rest, suffix, inner.state, k, depth);
    }
  }

  lemma IncludeRuns<C, Op>(w: World<C, Op>, text: string, rest: string, suffix: string, s: State<C, Op>, depth: nat)
    requires depth > 0
    ensures (var inner := RunNext(w, text, |rest + suffix|, s, depth - 1);
             RunInclude(w, text, rest, |suffix|, s, depth)
             == if inner.Ready? then RunNext(w, rest, |suffix|, inner.state, depth) else inner)
  {
    assert |rest + suffix| == |rest| + |suffix|;
    hide RunNext;
  }

  lemma ResumeReady<C, Op>(o: Outcome<C, Op>, suffix: string)
    ensures Resume(o, suffix) == if o.Ready? then Next(suffix, o.state) else Halt(o)
  {
  }

  lemma DepthSuffices<C, Op>(w: World<C, Op>, text: string, s: State<C, Op>, k: nat)
    requires Turns(w, Start(text, s), k).Halt?
    ensures !RunBuffer(w, text, s, k + 1).TooDeep?
  {
    if text != "" {
      assert text + "" == text;
      TurnsAfter(w, Start(text, s), 0);
      HaltStays(w, Start(text, s), 1, k);
      ShallowLine(w, text, "", s, k, k + 1);
    }
  }

  /** The runner ends exactly when the files nest to a finite depth. */
  lemma EndsIffFiniteDepth<C, Op>(w: World<C, Op>, text: string, s: State<C, Op>)
    ensures (exists k: nat :: Turns(w, Start(text, s), k).Halt?)
       <==> (exists depth: nat :: !RunBuffer(w, text, s, depth).TooDeep?)
  {
    if k: nat :| Turns(w, Start(text, s), k).Halt? {
      DepthSuffices(w, text, s, k);
    }
    if depth: nat :| !RunBuffer(w, text, s, depth).TooDeep? {
      var k := RunnerFollowsNesting(w, text, s, depth);
    }
  }

  /** `line` includes the file whose only line it is. */
  ghost predicate IncludesItself<C(!new), Op>(w: World<C, Op>, line: string, path: string) {
    && 2 < |line| < FILE_BUFFER - 1 && !IsSpace(line[0]) && '\n' !in line && '\\' !in line
    && path != "" && w.file(path) == Some(line)
    && (forall c: C :: w.parse(line, c).0 == Some(Include(path)))
    && (forall c: C :: w.parse(line + "\n", c).0 == Some(Include(path)))
  }

  lemma {:induction false} NeverDeepEnough<C(!new), Op>(
    w: World<C, Op>, line: string, path: string, more: nat, s: State<C, Op>, depth: nat)
    requires IncludesItself(w, line, path)
    ensures RunLine(w, line, more, s, depth).TooDeep?
    decreases depth
  {
    OnlyLine(line, more);
    IncludesItsText(w, line, path, FirstLine(line, more), s);
    hide EffectOf, FirstLine, RunNext, IncludesItself, Find;
    if depth > 0 {
      var e := EffectOf(w, FirstLine(line, more), s);
      var s' := e.state;
      assert RunEffect(w, e, line, more, depth) == RunInclude(w, e.text, AfterLine(line), more, s', depth);
      NextIsLine(w, line, |AfterLine(line)| + more, s', depth - 1);
      NeverDeepEnough(w, line, path, |AfterLine(line)| + more, s', depth - 1);
    }
  }

  lemma OnlyLine(line: string, more: nat)
    requires '\n' !in line
    ensures FirstLine(line, more) in {line, line + "\n"}
  {
  }

  lemma IncludesItsText<C(!new), Op>(w: World<C, Op>, line: string, path: string, first: string, s: State<C, Op>)
    requires IncludesItself(w, line, path) && first in {line, line + "\n"}
    ensures EffectOf(w, first, s).Insert? && EffectOf(w, first, s).text == "\n" + line
  {
    ContinuedCharacters("\n" + line);
    assert Continued("\n" + line) == "\n" + line;
    hide Continued;
    assert w.parse(first, s.context).0 == Some(Include(path));
    assert Inserted(w, path) == Some("\n" + line);
  }

  lemma NextIsLine<C, Op>(w: World<C, Op>, line: string, more: nat, s: State<C, Op>, depth: nat)
    requires |line| > 2 && !IsSpace(line[0])
    ensures RunNext(w, "\n" + line, more, s, depth) == RunLine(w, line, more, s, depth)
  {
    var text := "\n" + line;
    assert AfterLine(text) == text;
    assert text[1..] == line && SkipSpace(line) == line;
    assert SkipSpace(text) == line;
    hide RunLine;
  }

  /** A scenario that includes itself runs for ever. */
  lemma SelfIncludeNeverEnds<C(!new), Op>(w: World<C, Op>, line: string, path: string, s: State<C, Op>, k: nat)
    requires IncludesItself(w, line, path)
    ensures Turns(w, Start(line, s), k).At?
  {
    if Turns(w, Start(line, s), k).Halt? {
      DepthSuffices(w, line, s, k);
      NeverDeepEnough(w, line, path, 0, s, k + 1);
    }
  }

  // ---------- the runner ----------

  /** A growing buffer. */
  class Buffer {
    var data: string

    constructor (text: string)
      ensures data == text
    {
      data := text;
    }

    /** Puts `text` before position `at`. */
    method Insert(at: nat, text: string) returns (ret: int)
      modifies this
      ensures ret == if text == "" then -1 else if at > |old(data)| then -2 else 0
      ensures data == if ret == 0 then InsertedAt(old(data), at, text) else old(data)
    {
      if text == "" {
        return -1;
      }
      if at > |data| {
        return -2;
      }
      data := data[..at] + text + data[at..];
      ret := 0;
    }
  }

  function InsertedAt(data: string, at: nat, text: string): string
    requires at <= |data|
  {
    data[..at] + text + data[at..]
  }

  /** A text inserted by the runner, oldest first. */
  datatype Splice = Splice(at: nat, text: string)

  function Spliced(data: string, splices: seq<Splice>): string {
    if splices == [] then data
    else
      var before := Spliced(data, splices[..|splices| - 1]);
      var last := splices[|splices| - 1];
      if last.at <= |before| then InsertedAt(before, last.at, last.text) else before
  }

  /** Where position `i` of the original text ends up. */
  function PositionAfter(splices: seq<Splice>, i: nat): nat {
    if splices == [] then i
    else
      var before := PositionAfter(splices[..|splices| - 1], i);
      var last := splices[|splices| - 1];
      if last.at <= before then before + |last.text| else before
  }

  predicate Fits(data: string, splices: seq<Splice>) {
    forall n :: 0 <= n < |splices| ==> splices[n].at <= |Spliced(data, splices[..n])|
  }

  /** No character of the original text is lost, and they keep their order. */
  lemma {:induction false} SplicingKeepsText(data: string, splices: seq<Splice>, i: nat, j: nat)
    requires i <= j < |data| && Fits(data, splices)
    ensures PositionAfter(splices, j) < |Spliced(data, splices)|
    ensures Spliced(data, splices)[PositionAfter(splices, j)] == data[j]
    ensures i < j ==> PositionAfter(splices, i) < PositionAfter(splices, j)
  {
    if splices != [] {
      var rest, last := splices[..|splices| - 1], splices[|splices| - 1];
      FitsShorter(data, splices);
      hide Fits;
      SplicingKeepsText(data, rest, i, j);
      InsertingKeepsText(Spliced(data, rest), last.at, last.text, PositionAfter(rest, j));
    }
  }

  lemma FitsShorter(data: string, splices: seq<Splice>)
    requires splices != [] && Fits(data, splices)
    ensures (var rest := splices[..|splices| - 1];
             Fits(data, rest) && splices[|splices| - 1].at <= |Spliced(data, rest)|)
  {
    var rest := splices[..|splices| - 1];
    forall n | 0 <= n < |rest|
      ensures rest[n].at <= |Spliced(data, rest[..n])|
    {
      assert rest[..n] == splices[..n];
    }
  }

  lemma InsertingKeepsText(data: string, at: nat, text: string, i: nat)
    requires at <= |data| && i < |data|
    ensures InsertedAt(data, at, text)[if at <= i then i + |text| else i] == data[i]
  {
  }

  predicate Ascending(splices: seq<Splice>, bound: nat) {
    && (forall n :: 0 <= n < |splices| ==> splices[n].at < bound)
    && (forall m, n :: 0 <= m < n < |splices| ==> splices[m].at < splices[n].at)
  }

  /** `data` is `original` with the splices in it, each later than the one before and all before
      `bound`. */
  predicate Grown(original: string, splices: seq<Splice>, data: string, bound: nat) {
    Fits(original, splices) && data == Spliced(original, splices) && Ascending(splices, bound)
  }

  /** From the line at `start` to the next one, over any blanks. */
  method NextLine(data: string, start: nat) returns (start': nat, more: bool)
    requires start < |data|
    ensures start < start' <= |data| && data[start'..] == SkipSpace(AfterLine(data[start..]))
    ensures more <==> |data[start'..]| > 2
  {
    ghost var rest := data[start..];
    start' := start + Find(data[start..], '\n');
    assert data[start'..] == AfterLine(rest);
    if start' == |data| {
      return start', false;
    }
    while start' < |data| && IsSpace(data[start'])
      invariant start <= start' <= |data|
      invariant SkipSpace(data[start'..]) == SkipSpace(AfterLine(rest))
      invariant start' == start ==> start' < |data| && IsSpace(data[start'])
    {
      assert data[start'..][1..] == data[start' + 1..];
      start' := start' + 1;
    }
    more := start' + 2 < |data|;
  }

  /** Runs a buffer to its end. Every text goes in at or after the current line, each later than
      the one before. */
  method Run<C, Op>(w: World<C, Op>, buffer: Buffer, s0: State<C, Op>, ghost depth: nat)
    returns (outcome: Outcome<C, Op>, ghost splices: seq<Splice>)
    requires !RunBuffer(w, buffer.data, s0, depth).TooDeep?
    modifies buffer
    ensures outcome == RunBuffer(w, old(buffer.data), s0, depth)
    ensures Grown(old(buffer.data), splices, buffer.data, |buffer.data|)
  {
    if buffer.data == "" {
      return Ready(s0), [];
    }
    hide *;
    ghost var k := LeadsFromStart(w, buffer.data, s0, depth);
    outcome, splices := EachLine(w, buffer, s0, k, RunBuffer(w, buffer.data, s0, depth));
  }

  /** The loop over the lines. */
  method EachLine<C, Op>(w: World<C, Op>, buffer: Buffer, s0: State<C, Op>, ghost k0: nat, ghost goal: Outcome<C, Op>)
    returns (outcome: Outcome<C, Op>, ghost splices: seq<Splice>)
    requires buffer.data != "" && Leads(w, buffer.data, 0, s0, k0, goal) && Grown(buffer.data, [], buffer.data, 0)
    modifies buffer
    ensures outcome == goal && Grown(old(buffer.data), splices, buffer.data, |buffer.data|)
  {
    hide *;
    ghost var k := k0;
    var start: nat, s, end := 0, s0, None;
    splices := [];
    while end.None?
      invariant end.Some? ==> end.value == goal && Grown(old(buffer.data), splices, buffer.data, |buffer.data|)
      invariant end.None? ==> start < |buffer.data| && Leads(w, buffer.data, start, s, k, goal)
                              && Grown(old(buffer.data), splices, buffer.data, start)
      decreases if end.None? then k + 1 else 0
    {
      end, start, s, splices := OneLine(w, buffer, start, s, k, goal, old(buffer.data), splices);
      k := if k > 0 then k - 1 else 0;
    }
    outcome := end.value;
  }

  lemma LeadsFromStart<C, Op>(w: World<C, Op>, data: string, s: State<C, Op>, depth: nat) returns (k: nat)
    requires data != "" && !RunBuffer(w, data, s, depth).TooDeep?
    ensures Leads(w, data, 0, s, k, RunBuffer(w, data, s, depth)) && Grown(data, [], data, 0)
  {
    k := RunnerFollowsNesting(w, data, s, depth);
    assert data[0..] == data;
    hide Turns, RunBuffer;
  }

  ghost predicate Leads<C, Op>(w: World<C, Op>, data: string, start: nat, s: State<C, Op>, k: nat, goal: Outcome<C, Op>)
  {
    start <= |data| && Turns(w, At(data[start..], s), k) == Halt(goal)
  }

  /** The same for the line after the one at `start`. */
  ghost predicate LeadsNext<C, Op>(
    w: World<C, Op>, data: string, start: nat, s: State<C, Op>, k: nat, goal: Outcome<C, Op>)
  {
    start <= |data| && Turns(w, Next(data[start..], s), k) == Halt(goal)
  }

  /** Runs the line at `start` and moves to the next one, or ends. */
  method OneLine<C, Op>(w: World<C, Op>, buffer: Buffer, start0: nat, s0: State<C, Op>, ghost k: nat,
                        ghost goal: Outcome<C, Op>, ghost original: string, ghost splices0: seq<Splice>)
    returns (end: Option<Outcome<C, Op>>, start: nat, s: State<C, Op>, ghost splices: seq<Splice>)
    requires start0 < |buffer.data| && Leads(w, buffer.data, start0, s0, k, goal)
    requires Grown(original, splices0, buffer.data, start0)
    modifies buffer
    ensures end.Some? ==> end.value == goal && Grown(original, splices, buffer.data, |buffer.data|)
    ensures end.None? ==> start0 < start < |buffer.data| && k > 0 && Leads(w, buffer.data, start, s, k - 1, goal)
                          && Grown(original, splices, buffer.data, start)
  {
    hide *;
    var effect := EffectOf(w, FirstLine(buffer.data[start0..], 0), s0);
    AfterTurn(w, buffer.data, start0, s0, effect, k, goal);
    if effect.Stop? {
      GrownFurther(original, splices0, buffer.data, start0, |buffer.data|);
      return Some(effect.outcome), start0, s0, splices0;
    }
    s := effect.state;
    start, splices := AfterEffect(w, buffer, start0, effect, k - 1, goal, original, splices0);
    end, start := Move(w, buffer.data, start, s, k - 1, goal, original, splices);
  }

  /** Puts in the text of an include, if the line is one. */
  method AfterEffect<C, Op>(w: World<C, Op>, buffer: Buffer, start0: nat, effect: Effect<C, Op>, ghost k: nat,
                            ghost goal: Outcome<C, Op>, ghost original: string, ghost splices0: seq<Splice>)
    returns (start: nat, ghost splices: seq<Splice>)
    requires start0 < |buffer.data| && !effect.Stop? && Grown(original, splices0, buffer.data, start0)
    requires effect.Go? ==> LeadsNext(w, buffer.data, start0, effect.state, k, goal)
    requires effect.Insert? ==> effect.text != ""
                                && Turns(w, Next(effect.text + AfterLine(buffer.data[start0..]), effect.state), k) == Halt(goal)
    modifies buffer
    ensures start0 <= start < |buffer.data| && LeadsNext(w, buffer.data, start, effect.state, k, goal)
    ensures Grown(original, splices, buffer.data, start + 1)
  {
    hide Turns, Next, AfterLine, Grown;
    start, splices := start0, splices0;
    if effect.Insert? {
      start, splices := InsertAfterLine(buffer, start0, effect.text, original, splices0);
    } else {
      GrownFurther(original, splices, buffer.data, start, start + 1);
    }
  }

  /** `nex_line`: to the next line, or to the end of the run. */
  method Move<C, Op>(w: World<C, Op>, data: string, start0: nat, s: State<C, Op>, ghost k: nat,
                     ghost goal: Outcome<C, Op>, ghost original: string, ghost splices: seq<Splice>)
    returns (end: Option<Outcome<C, Op>>, start: nat)
    requires start0 < |data| && LeadsNext(w, data, start0, s, k, goal)
    requires Grown(original, splices, data, start0 + 1)
    ensures end.Some? ==> end.value == goal && Grown(original, splices, data, |data|)
    ensures end.None? ==> start0 < start < |data| && Leads(w, data, start, s, k, goal)
                          && Grown(original, splices, data, start)
  {
    hide *;
    var more;
    start, more := NextLine(data, start0);
    AfterNext(w, data, start0, start, s, k, goal);
    end := if more then None else Some(Ready(s));
    GrownFurther(original, splices, data, start0 + 1, if more then start else |data|);
  }

  lemma AfterTurn<C, Op>(
    w: World<C, Op>, data: string, start: nat, s: State<C, Op>, e: Effect<C, Op>, k: nat, goal: Outcome<C, Op>)
    requires start <= |data| && Leads(w, data, start, s, k, goal)
    requires e == EffectOf(w, FirstLine(data[start..], 0), s)
    ensures k > 0
    ensures e.Stop? ==> goal == e.outcome
    ensures e.Go? ==> LeadsNext(w, data, start, e.state, k - 1, goal)
    ensures e.Insert? ==> e.text != ""
    ensures e.Insert? ==> Turns(w, Next(e.text + AfterLine(data[start..]), e.state), k - 1) == Halt(goal)
  {
    var rest := data[start..];
    TurnsAfter(w, At(rest, s), 0);
    TurnsAfter(w, At(rest, s), k - 1);
    TurnsAfter(w, Moved(e, rest), k - 1);
    hide Turns, FirstLine, AfterLine, Next;
  }

  lemma AfterNext<C, Op>(
    w: World<C, Op>, data: string, start0: nat, start: nat, s: State<C, Op>, k: nat, goal: Outcome<C, Op>)
    requires LeadsNext(w, data, start0, s, k, goal) && start0 <= |data|
    requires start <= |data| && data[start..] == SkipSpace(AfterLine(data[start0..]))
    ensures if |data[start..]| > 2 then Leads(w, data, start, s, k, goal) else goal == Ready(s)
  {
    TurnsAfter(w, Next(data[start0..], s), k);
    hide Turns, SkipSpace, AfterLine;
  }

  /** The line at `start` includes `text`. */
  method InsertAfterLine(buffer: Buffer, start: nat, text: string, ghost original: string, ghost splices0: seq<Splice>)
    returns (index: nat, ghost splices: seq<Splice>)
    requires start < |buffer.data| && text != "" && Grown(original, splices0, buffer.data, start)
    modifies buffer
    ensures start <= index < |buffer.data| && Grown(original, splices, buffer.data, index + 1)
    ensures buffer.data[index..] == text + AfterLine(old(buffer.data[start..]))
  {
    hide *;
    ghost var before := buffer.data;
    index := start + Find(buffer.data[start..], '\n');
    InsertedTail(before, start, text);
    var ret := buffer.Insert(index, text);
    splices := GrownBy(original, splices0, before, start, index, text);
  }

  lemma InsertedTail(data: string, start: nat, text: string)
    requires start <= |data|
    ensures (var index := start + Find(data[start..], '\n');
             && |InsertedAt(data, index, text)| == |data| + |text|
             && InsertedAt(data, index, text)[index..] == text + AfterLine(data[start..]))
  {
    var i := Find(data[start..], '\n');
    hide Find;
    assert data[start + i..] == data[start..][i..];
  }

  lemma GrownFurther(original: string, splices: seq<Splice>, data: string, bound: nat, further: nat)
    requires Grown(original, splices, data, bound) && bound <= further
    ensures Grown(original, splices, data, further)
  {
  }

  lemma GrownBy(original: string, splices: seq<Splice>, data: string, bound: nat, at: nat, text: string)
    returns (longer: seq<Splice>)
    requires Grown(original, splices, data, bound) && bound <= at <= |data|
    ensures Grown(original, longer, InsertedAt(data, at, text), at + 1)
  {
    longer := splices + [Splice(at, text)];
    assert longer[..|splices|] == splices;
    FitsLonger(original, splices, Splice(at, text));
    AscendingLonger(splices, Splice(at, text));
    hide Fits, Ascending;
  }

  lemma FitsLonger(original: string, splices: seq<Splice>, last: Splice)
    requires Fits(original, splices) && last.at <= |Spliced(original, splices)|
    ensures Fits(original, splices + [last])
  {
    var longer := splices + [last];
    assert longer[..|splices|] == splices;
    forall n | 0 <= n < |longer|
      ensures longer[n].at <= |Spliced(original, longer[..n])|
    {
      if n < |splices| {
        assert longer[..n] == splices[..n];
      }
    }
  }

  lemma AscendingLonger(splices: seq<Splice>, last: Splice)
    requires Ascending(splices, last.at)
    ensures Ascending(splices + [last], last.at + 1)
  {
  }
}
