/** What a run does, said in terms of the lines of the scenario: which commands are executed, in which
    order and in which context, and where the run stops. */
module ScenarioScript {
  import opened Wrappers
  import opened Text
  import opened Continuation
  import opened Scenario

  /** A scenario, line by line. `Pass` is a line that does nothing: empty of commands, or the include
      of a file that inserts nothing. `Sub` includes a file that reads as `body`. After `Quit`, an
      exit, and `Fail`, a line that cannot be read or names no file, any text may follow. */
  datatype Script<Op> =
    | End
    | Do(line: string, op: Op, rest: Script<Op>)
    | Pass(line: string, rest: Script<Op>)
    | Sub(line: string, path: string, content: string, body: Script<Op>, rest: Script<Op>)
    | Quit(line: string, after: string)
    | Fail(line: string, after: string)

  datatype Ending = Through | Left | GivenUp

  /** What is in the text behind the first line. */
  function TextBehind<Op>(rest: Script<Op>): string
    decreases rest, 1
  {
    if rest.End? then "" else "\n" + TextOf(rest)
  }

  function TextOf<Op>(s: Script<Op>): string
    decreases s, 0
  {
    match s
    case End => ""
    case Do(line, _, rest) => line + TextBehind(rest)
    case Pass(line, rest) => line + TextBehind(rest)
    case Sub(line, _, _, _, rest) => line + TextBehind(rest)
    case Quit(line, after) => line + ("\n" + after)
    case Fail(line, after) => line + ("\n" + after)
  }

  function EndOf<Op>(s: Script<Op>): Ending {
    match s
    case End => Through
    case Do(_, _, rest) => EndOf(rest)
    case Pass(_, rest) => EndOf(rest)
    case Sub(_, _, _, body, rest) => if EndOf(body) == Through then EndOf(rest) else EndOf(body)
    case Quit(_, _) => Left
    case Fail(_, _) => GivenUp
  }

  /** The commands of the lines that are reached, an included file's at the place of its include. */
  function Commands<Op>(s: Script<Op>): seq<Op> {
    match s
    case End => []
    case Do(_, op, rest) => [op] + Commands(rest)
    case Pass(_, rest) => Commands(rest)
    case Sub(_, _, _, body, rest) => Commands(body) + (if EndOf(body) == Through then Commands(rest) else [])
    case Quit(_, _) => []
    case Fail(_, _) => []
  }

  function Depth<Op>(s: Script<Op>): nat {
    match s
    case End => 0
    case Do(_, _, rest) => Depth(rest)
    case Pass(_, rest) => Depth(rest)
    case Sub(_, _, _, body, rest) => if Depth(rest) > Depth(body) then Depth(rest) else Depth(body) + 1
    case Quit(_, _) => 0
    case Fail(_, _) => 0
  }

  /** A line as the parser gets it: with its newline, but for a last line that has none (`closed` says
      whether the last line has one). */
  function Given<Op>(line: string, rest: Script<Op>, closed: bool): string {
    if rest.End? && !closed then line else line + "\n"
  }

  function BodyClosed<Op>(content: string, body: Script<Op>, rest: Script<Op>, closed: bool): bool {
    content != TextOf(body) || !rest.End? || closed
  }

  /** The context after the lines that are reached: each is parsed in the context the ones before it
      left, and each command is executed. */
  function ContextAfter<C, Op>(w: World<C, Op>, s: Script<Op>, c: C, closed: bool): C {
    match s
    case End => c
    case Do(line, op, rest) => ContextAfter(w, rest, w.exec(op, w.parse(Given(line, rest, closed), c).1), closed)
    case Pass(line, rest) => ContextAfter(w, rest, w.parse(Given(line, rest, closed), c).1, closed)
    case Sub(line, _, content, body, rest) =>
      var inner := ContextAfter(w, body, w.parse(Given(line, rest, closed), c).1, BodyClosed(content, body, rest, closed));
      if EndOf(body) == Through then ContextAfter(w, rest, inner, closed) else inner
    case Quit(line, _) => w.parse(line + "\n", c).1
    case Fail(line, _) => w.parse(line + "\n", c).1
  }

  /** A line of at least three characters that begins with none of the blanks. */
  predicate IsLine(line: string) {
    |line| >= 3 && '\n' !in line && line[0] as int !in {9, 10, 11, 12, 13, 32}
  }

  /** The file inserts nothing: it is missing, empty, or does not fit the file buffer. */
  predicate NoText(content: Option<string>) {
    content.None? || |content.value| == 0 || |content.value| > 4094
  }

  /** The lines parse to what the script says, each in the context the ones before it left. */
  predicate Reads<C, Op(==)>(w: World<C, Op>, s: Script<Op>, c: C, closed: bool) {
    match s
    case End => true
    case Do(line, op, rest) =>
      var (command, c') := w.parse(Given(line, rest, closed), c);
      IsLine(line) && command == Some(Execute(op)) && Reads(w, rest, w.exec(op, c'), closed)
    case Pass(line, rest) =>
      var (command, c') := w.parse(Given(line, rest, closed), c);
      && IsLine(line) && Reads(w, rest, c', closed)
      && command.Some?
      && (command.value == Skip || (command.value.Include? && command.value.path != "" && NoText(w.file(command.value.path))))
    case Sub(line, path, content, body, rest) =>
      var (command, c') := w.parse(Given(line, rest, closed), c);
      var bodyClosed := BodyClosed(content, body, rest, closed);
      && IsLine(line) && command == Some(Include(path)) && path != "" && w.file(path) == Some(content)
      && !NoText(Some(content)) && '\\' !in content
      && !body.End? && content in {TextOf(body), TextOf(body) + "\n"}
      && Reads(w, body, c', bodyClosed)
      && (EndOf(body) == Through ==> Reads(w, rest, ContextAfter(w, body, c', bodyClosed), closed))
    case Quit(line, _) => IsLine(line) && w.parse(line + "\n", c).0 == Some(Exit)
    case Fail(line, _) => IsLine(line) && w.parse(line + "\n", c).0 in {None, Some(Include(""))}
  }

  // ---------- one line ----------

  lemma LineParts(line: string, behind: string, more: nat)
    requires '\n' !in line && Follows(behind)
    ensures FirstLine(line + behind, more) == if behind != "" || more > 0 then line + "\n" else line
    ensures AfterLine(line + behind) == behind && AfterLine(behind) == behind
  {
    FindAfter(line, behind, '\n');
    assert behind != "" ==> (line + behind)[..|line| + 1] == line + "\n";
    assert behind == "" ==> line + behind == line;
  }

  /** Going on behind a line, and on to the line there. */
  lemma GoOn<C, Op>(w: World<C, Op>, line: string, behind: string, more: nat, s: State<C, Op>, depth: nat)
    requires '\n' !in line && Follows(behind)
    ensures RunNext(w, line + behind, more, s, depth) == RunNext(w, behind, more, s, depth)
  {
    LineParts(line, behind, more);
    hide RunLine, FirstLine;
  }

  lemma EffectOfLine<C, Op>(w: World<C, Op>, line: string, behind: string, more: nat, s: State<C, Op>, depth: nat)
    requires '\n' !in line && Follows(behind)
    ensures (var given := if behind != "" || more > 0 then line + "\n" else line;
             var (command, c) := w.parse(given, s.context); var s' := State(c, s.done);
             RunLine(w, line + behind, more, s, depth)
             == match command
                case None => Dropped(s')
                case Some(Skip) => RunNext(w, behind, more, s', depth)
                case Some(Exit) => Exited(s')
                case Some(Execute(op)) => RunNext(w, behind, more, State(w.exec(op, c), s.done + [op]), depth)
                case Some(Include(path)) =>
                  if path == "" then Dropped(s')
                  else if NoText(w.file(path)) then RunNext(w, behind, more, s', depth)
                  else if depth == 0 then TooDeep
                  else RunInclude(w, Continued("\n" + w.file(path).value), behind, more, s', depth))
  {
    var given := if behind != "" || more > 0 then line + "\n" else line;
    LineParts(line, behind, more);
    var (command, c) := w.parse(given, s.context);
    hide RunNext, RunInclude, Continued, FirstLine, AfterLine;
    match command
    case Some(Skip) => GoOn(w, line, behind, more, State(c, s.done), depth);
    case Some(Execute(op)) => GoOn(w, line, behind, more, State(w.exec(op, c), s.done + [op]), depth);
    case Some(Include(path)) => GoOn(w, line, behind, more, State(c, s.done), depth);
    case _ =>
  }

  // ---------- the whole scenario ----------

  function StateAfter<C, Op>(w: World<C, Op>, s: Script<Op>, st: State<C, Op>, closed: bool): State<C, Op> {
    State(ContextAfter(w, s, st.context, closed), st.done + Commands(s))
  }

  /** Where the run of a script comes to, with `tail` behind it. */
  function Ended<C, Op>(
    w: World<C, Op>, s: Script<Op>, tail: string, more: nat, st: State<C, Op>, depth: nat): Outcome<C, Op>
  {
    var s' := StateAfter(w, s, st, tail != "" || more > 0);
    match EndOf(s)
    case Through => RunNext(w, tail, more, s', depth)
    case Left => Exited(s')
    case GivenUp => Dropped(s')
  }

  lemma TextStarts<C, Op>(w: World<C, Op>, s: Script<Op>, c: C, closed: bool)
    requires !s.End? && Reads(w, s, c, closed)
    ensures |TextOf(s)| >= 3 && !IsSpace(TextOf(s)[0]) && s.line <= TextOf(s) && IsLine(s.line)
  {
    SpacesExactly(s.line[0]);
    hide TextBehind;
  }

  lemma {:induction false} RestRuns<C, Op>(
    w: World<C, Op>, rest: Script<Op>, tail: string, more: nat, st: State<C, Op>, depth: nat)
    requires Follows(tail) && Reads(w, rest, st.context, tail != "" || more > 0) && Depth(rest) <= depth
    ensures RunNext(w, TextBehind(rest) + tail, more, st, depth) == Ended(w, rest, tail, more, st, depth)
    decreases rest, 2
  {
    if rest.End? {
      assert "" + tail == tail && st.done + [] == st.done;
    } else {
      TextStarts(w, rest, st.context, tail != "" || more > 0);
      assert TextBehind(rest) + tail == "\n" + (TextOf(rest) + tail);
      hide *;
      NextIsLine(w, TextOf(rest) + tail, more, st, depth);
      ScriptRuns(w, rest, tail, more, st, depth);
    }
  }

  /** Running the text of a script executes its commands in its contexts, and goes on with what is
      behind it, if it does not stop. */
  lemma {:induction false} ScriptRuns<C, Op>(
    w: World<C, Op>, s: Script<Op>, tail: string, more: nat, st: State<C, Op>, depth: nat)
    requires !s.End? && Follows(tail) && Reads(w, s, st.context, tail != "" || more > 0) && Depth(s) <= depth
    ensures RunLine(w, TextOf(s) + tail, more, st, depth) == Ended(w, s, tail, more, st, depth)
    decreases s, 1
  {
    if s.Quit? || s.Fail? {
      StopRuns(w, s, tail, more, st, depth);
    } else if s.Sub? {
      SubRuns(w, s, tail, more, st, depth);
    } else {
      StepRuns(w, s, tail, more, st, depth);
    }
  }

  lemma StopRuns<C, Op>(w: World<C, Op>, s: Script<Op>, tail: string, more: nat, st: State<C, Op>, depth: nat)
    requires (s.Quit? || s.Fail?) && Follows(tail) && Reads(w, s, st.context, tail != "" || more > 0)
    ensures RunLine(w, TextOf(s) + tail, more, st, depth) == Ended(w, s, tail, more, st, depth)
  {
    var behind := "\n" + s.after + tail;
    assert TextOf(s) + tail == s.line + behind;
    EffectOfLine(w, s.line, behind, more, st, depth);
    assert st.done + [] == st.done;
    hide RunNext, RunInclude, RunLine, Continued;
  }

  /** What a line that does not stop finds behind it. */
  lemma BehindLine<C, Op>(w: World<C, Op>, s: Script<Op>, tail: string, more: nat, st: State<C, Op>)
    requires (s.Do? || s.Pass? || s.Sub?) && Follows(tail) && Reads(w, s, st.context, tail != "" || more > 0)
    ensures (var behind := TextBehind(s.rest) + tail;
             && TextOf(s) + tail == s.line + behind && Follows(behind) && '\n' !in s.line
             && Given(s.line, s.rest, tail != "" || more > 0)
                == if behind != "" || more > 0 then s.line + "\n" else s.line)
  {
    assert s.line + TextBehind(s.rest) + tail == s.line + (TextBehind(s.rest) + tail);
  }

  lemma {:induction false} StepRuns<C, Op>(
    w: World<C, Op>, s: Script<Op>, tail: string, more: nat, st: State<C, Op>, depth: nat)
    requires (s.Do? || s.Pass?) && Follows(tail) && Reads(w, s, st.context, tail != "" || more > 0) && Depth(s) <= depth
    ensures RunLine(w, TextOf(s) + tail, more, st, depth) == Ended(w, s, tail, more, st, depth)
    decreases s, 0
  {
    var st' := StepOnLine(w, s, tail, more, st, depth);
    hide *;
    RestRuns(w, s.rest, tail, more, st', depth);
  }

  lemma StepOnLine<C, Op>(w: World<C, Op>, s: Script<Op>, tail: string, more: nat, st: State<C, Op>, depth: nat)
    returns (st': State<C, Op>)
    requires (s.Do? || s.Pass?) && Follows(tail) && Reads(w, s, st.context, tail != "" || more > 0) && Depth(s) <= depth
    ensures RunLine(w, TextOf(s) + tail, more, st, depth) == RunNext(w, TextBehind(s.rest) + tail, more, st', depth)
    ensures Reads(w, s.rest, st'.context, tail != "" || more > 0) && Depth(s.rest) <= depth
    ensures Ended(w, s, tail, more, st, depth) == Ended(w, s.rest, tail, more, st', depth)
  {
    var closed := tail != "" || more > 0;
    BehindLine(w, s, tail, more, st);
    EffectOfLine(w, s.line, TextBehind(s.rest) + tail, more, st, depth);
    var c := w.parse(Given(s.line, s.rest, closed), st.context).1;
    st' := if s.Do? then State(w.exec(s.op, c), st.done + [s.op]) else State(c, st.done);
    SameEnd(w, s, st, st', closed);
    hide RunNext, RunInclude, RunLine, Continued, TextOf, TextBehind, StateAfter;
  }

  lemma SameEnd<C, Op>(w: World<C, Op>, s: Script<Op>, st: State<C, Op>, st': State<C, Op>, closed: bool)
    requires s.Do? || s.Pass?
    requires (var c := w.parse(Given(s.line, s.rest, closed), st.context).1;
              st' == if s.Do? then State(w.exec(s.op, c), st.done + [s.op]) else State(c, st.done))
    ensures StateAfter(w, s, st, closed) == StateAfter(w, s.rest, st', closed) && EndOf(s) == EndOf(s.rest)
  {
    hide Given;
    if s.Do? {
      assert st.done + ([s.op] + Commands(s.rest)) == (st.done + [s.op]) + Commands(s.rest);
    }
  }

  lemma {:induction false} SubRuns<C, Op>(
    w: World<C, Op>, s: Script<Op>, tail: string, more: nat, st: State<C, Op>, depth: nat)
    requires s.Sub? && Follows(tail) && Reads(w, s, st.context, tail != "" || more > 0) && Depth(s) <= depth
    ensures RunLine(w, TextOf(s) + tail, more, st, depth) == Ended(w, s, tail, more, st, depth)
    decreases s, 0
  {
    hide *;
    var st1, end, behind := SubOnLine(w, s, tail, more, st, depth);
    ScriptRuns(w, s.body, end, |behind| + more, st1, depth - 1);
    var st2 := BodyRuns(w, s, tail, more, st, st1, end, behind, depth);
    if EndOf(s.body) == Through {
      RestRuns(w, s.rest, tail, more, st2, depth);
    }
  }

  /** The include itself: the text of the file is run one level deeper. */
  lemma SubOnLine<C, Op>(w: World<C, Op>, s: Script<Op>, tail: string, more: nat, st: State<C, Op>, depth: nat)
    returns (st1: State<C, Op>, end: string, behind: string)
    requires s.Sub? && Follows(tail) && Reads(w, s, st.context, tail != "" || more > 0) && Depth(s) <= depth
    ensures end in {"", "\n"} && Follows(end) && !s.body.End? && depth > 0
    ensures st1 == State(w.parse(Given(s.line, s.rest, tail != "" || more > 0), st.context).1, st.done)
    ensures RunLine(w, TextOf(s) + tail, more, st, depth)
         == RunInclude(w, "\n" + (TextOf(s.body) + end), behind, more, st1, depth)
    ensures Depth(s.body) <= depth - 1 && Depth(s.rest) <= depth && behind == TextBehind(s.rest) + tail
    ensures (end != "" || |behind| + more > 0) == BodyClosed(s.content, s.body, s.rest, tail != "" || more > 0)
    ensures Reads(w, s.body, st1.context, end != "" || |behind| + more > 0)
  {
    var closed := tail != "" || more > 0;
    BehindLine(w, s, tail, more, st);
    behind := TextBehind(s.rest) + tail;
    st1 := State(w.parse(Given(s.line, s.rest, closed), st.context).1, st.done);
    end := if s.content == TextOf(s.body) then "" else "\n";
    assert s.content == TextOf(s.body) + end;
    EffectOfLine(w, s.line, TextBehind(s.rest) + tail, more, st, depth);
    NoBackslash(s.content);
    assert |TextBehind(s.rest) + tail| > 0 <==> !s.rest.End? || tail != "";
    hide RunNext, RunInclude, RunLine, Continued, TextOf, TextBehind, ContextAfter;
  }

  lemma NoBackslash(content: string)
    requires '\\' !in content
    ensures Continued("\n" + content) == "\n" + content
  {
    ContinuedCharacters("\n" + content);
    var text := "\n" + content;
    hide Continued;
    forall k | 0 <= k < |text|
      ensures Continued(text)[k] == text[k]
    {
    }
  }

  /** The run of the file, and what it leaves to the lines behind the include. */
  lemma BodyRuns<C, Op>(w: World<C, Op>, s: Script<Op>, tail: string, more: nat, st: State<C, Op>,
                        st1: State<C, Op>, end: string, behind: string, depth: nat)
    returns (st2: State<C, Op>)
    requires s.Sub? && depth > 0 && end in {"", "\n"} && !s.body.End?
    requires Reads(w, s, st.context, tail != "" || more > 0)
    requires st1 == State(w.parse(Given(s.line, s.rest, tail != "" || more > 0), st.context).1, st.done)
    requires (end != "" || |behind| + more > 0) == BodyClosed(s.content, s.body, s.rest, tail != "" || more > 0)
    requires Reads(w, s.body, st1.context, end != "" || |behind| + more > 0)
    requires RunLine(w, TextOf(s.body) + end, |behind| + more, st1, depth - 1)
          == Ended(w, s.body, end, |behind| + more, st1, depth - 1)
    ensures (var outcome := RunInclude(w, "\n" + (TextOf(s.body) + end), behind, more, st1, depth);
             if EndOf(s.body) == Through then
               && outcome == RunNext(w, behind, more, st2, depth)
               && Reads(w, s.rest, st2.context, tail != "" || more > 0)
               && Ended(w, s, tail, more, st, depth) == Ended(w, s.rest, tail, more, st2, depth)
             else outcome == Ended(w, s, tail, more, st, depth))
  {
    hide *;
    var closed, bodyClosed := tail != "" || more > 0, end != "" || |behind| + more > 0;
    var included := "\n" + (TextOf(s.body) + end);
    st2 := StateAfter(w, s.body, st1, bodyClosed);
    BodyEnds(w, s.body, end, |behind| + more, st1, depth - 1);
    SameSubEnd(w, s, st, st1, st2, closed, bodyClosed);
    IncludeIs(w, included, behind, more, st1, depth);
    var inner := RunNext(w, included, |behind| + more, st1, depth - 1);
    JoinEnds(w, s, tail, more, st, st2, behind, inner, depth);
  }

  lemma JoinEnds<C, Op>(w: World<C, Op>, s: Script<Op>, tail: string, more: nat, st: State<C, Op>, st2: State<C, Op>,
                        behind: string, inner: Outcome<C, Op>, depth: nat)
    requires s.Sub?
    requires inner == match EndOf(s.body)
                      case Through => Ready(st2)
                      case Left => Exited(st2)
                      case GivenUp => Dropped(st2)
    requires (var closed := tail != "" || more > 0;
              if EndOf(s.body) == Through then
                StateAfter(w, s, st, closed) == StateAfter(w, s.rest, st2, closed) && EndOf(s) == EndOf(s.rest)
              else StateAfter(w, s, st, closed) == st2 && EndOf(s) == EndOf(s.body))
    ensures (var outcome := if inner.Ready? then RunNext(w, behind, more, inner.state, depth) else inner;
             if EndOf(s.body) == Through then
               && outcome == RunNext(w, behind, more, st2, depth)
               && Ended(w, s, tail, more, st, depth) == Ended(w, s.rest, tail, more, st2, depth)
             else outcome == Ended(w, s, tail, more, st, depth))
  {
    hide *;
    EndedIs(w, s, tail, more, st, depth);
    EndedIs(w, s.rest, tail, more, st2, depth);
  }

  lemma IncludeIs<C, Op>(w: World<C, Op>, included: string, rest: string, more: nat, s: State<C, Op>, depth: nat)
    requires depth > 0
    ensures (var inner := RunNext(w, included, |rest| + more, s, depth - 1);
             RunInclude(w, included, rest, more, s, depth)
             == if inner.Ready? then RunNext(w, rest, more, inner.state, depth) else inner)
  {
    hide RunNext;
  }

  lemma EndedIs<C, Op>(w: World<C, Op>, s: Script<Op>, tail: string, more: nat, st: State<C, Op>, depth: nat)
    ensures (var s' := StateAfter(w, s, st, tail != "" || more > 0);
             Ended(w, s, tail, more, st, depth)
             == match EndOf(s)
                case Through => RunNext(w, tail, more, s', depth)
                case Left => Exited(s')
                case GivenUp => Dropped(s'))
  {
    hide RunNext, StateAfter;
  }

  /** The body alone: it stops the run, or it is through and waits. */
  lemma BodyEnds<C, Op>(w: World<C, Op>, body: Script<Op>, end: string, after: nat, st1: State<C, Op>, depth: nat)
    requires end in {"", "\n"} && !body.End? && Reads(w, body, st1.context, end != "" || after > 0)
    requires RunLine(w, TextOf(body) + end, after, st1, depth) == Ended(w, body, end, after, st1, depth)
    ensures (var st2 := StateAfter(w, body, st1, end != "" || after > 0);
             RunNext(w, "\n" + (TextOf(body) + end), after, st1, depth)
             == match EndOf(body)
                case Through => Ready(st2)
                case Left => Exited(st2)
                case GivenUp => Dropped(st2))
  {
    TextStarts(w, body, st1.context, end != "" || after > 0);
    NextIsLine(w, TextOf(body) + end, after, st1, depth);
    EndIsBlank(w, end, after, StateAfter(w, body, st1, end != "" || after > 0), depth);
    hide RunNext, RunLine, TextOf, Reads, StateAfter;
  }

  lemma SameSubEnd<C, Op>(w: World<C, Op>, s: Script<Op>, st: State<C, Op>, st1: State<C, Op>, st2: State<C, Op>,
                          closed: bool, bodyClosed: bool)
    requires s.Sub? && Reads(w, s, st.context, closed) && bodyClosed == BodyClosed(s.content, s.body, s.rest, closed)
    requires st1 == State(w.parse(Given(s.line, s.rest, closed), st.context).1, st.done)
    requires st2 == StateAfter(w, s.body, st1, bodyClosed)
    ensures if EndOf(s.body) == Through then
              && Reads(w, s.rest, st2.context, closed)
              && StateAfter(w, s, st, closed) == StateAfter(w, s.rest, st2, closed) && EndOf(s) == EndOf(s.rest)
            else StateAfter(w, s, st, closed) == st2 && EndOf(s) == EndOf(s.body)
  {
    hide Given, BodyClosed, TextOf, IsLine;
    if EndOf(s.body) == Through {
      assert st.done + (Commands(s.body) + Commands(s.rest)) == (st.done + Commands(s.body)) + Commands(s.rest);
    } else {
      assert Commands(s.body) + [] == Commands(s.body);
    }
  }

  lemma EndIsBlank<C, Op>(w: World<C, Op>, end: string, more: nat, s: State<C, Op>, depth: nat)
    requires end in {"", "\n"}
    ensures RunNext(w, end, more, s, depth) == Ready(s)
  {
    if end == "" {
      assert AfterLine(end) == "";
    } else {
      AfterNewline(w, "", more, s, depth);
      assert "\n" + "" == "\n" && "\n"[1..] == "";
      assert SkipSpace("\n") == "";
    }
    hide RunLine;
  }

  // ---------- the laws ----------

  /** A whole scenario that stops nowhere: the runner is ready again, its commands are executed in
      order, each in the context the lines before it left. */
  lemma ScenarioIsExecuted<C, Op>(w: World<C, Op>, s: Script<Op>, end: string, st: State<C, Op>, depth: nat)
    requires !s.End? && end in {"", "\n"} && Reads(w, s, st.context, end != "") && Depth(s) <= depth
    requires EndOf(s) == Through
    ensures RunBuffer(w, TextOf(s) + end, st, depth)
         == Ready(State(ContextAfter(w, s, st.context, end != ""), st.done + Commands(s)))
  {
    TextStarts(w, s, st.context, end != "");
    ScriptRuns(w, s, end, 0, st, depth);
    EndIsBlank(w, end, 0, StateAfter(w, s, st, end != ""), depth);
    hide RunNext, RunLine, TextOf, Reads, ContextAfter;
  }

  /** A scenario that stops, in an included file or not: what was reached is executed, and nothing of
      what is behind it, whatever that is. */
  lemma ScenarioStops<C, Op>(w: World<C, Op>, s: Script<Op>, behind: string, st: State<C, Op>, depth: nat)
    requires !s.End? && Reads(w, s, st.context, true) && Depth(s) <= depth && EndOf(s) != Through
    ensures (var s' := State(ContextAfter(w, s, st.context, true), st.done + Commands(s));
             RunBuffer(w, TextOf(s) + ("\n" + behind), st, depth)
             == if EndOf(s) == Left then Exited(s') else Dropped(s'))
  {
    TextStarts(w, s, st.context, true);
    ScriptRuns(w, s, "\n" + behind, 0, st, depth);
    hide RunNext, RunLine, TextOf, Reads, ContextAfter;
  }

  /** Lines that each parse to a command: all are executed, in order. */
  lemma {:induction false} OnlyCommands<Op>(s: Script<Op>, lines: seq<string>, ops: seq<Op>)
    requires |lines| == |ops| && s == AllDo(lines, ops)
    ensures Commands(s) == ops && EndOf(s) == Through && Depth(s) == 0
    decreases |lines|
  {
    if lines != [] {
      OnlyCommands(s.rest, lines[1..], ops[1..]);
    }
  }

  function AllDo<Op>(lines: seq<string>, ops: seq<Op>): Script<Op>
    requires |lines| == |ops|
  {
    if lines == [] then End else Do(lines[0], ops[0], AllDo(lines[1..], ops[1..]))
  }

  /** White space between two lines does not matter. */
  lemma {:induction false} SpaceIsSkipped(blanks: string, line: string)
    requires forall i :: 0 <= i < |blanks| ==> blanks[i] as int in {9, 10, 11, 12, 13, 32}
    ensures SkipSpace(blanks + line) == SkipSpace(line)
  {
    if blanks == "" {
      assert blanks + line == line;
    } else {
      SpacesExactly(blanks[0]);
      assert (blanks + line)[1..] == blanks[1..] + line;
      SpaceIsSkipped(blanks[1..], line);
    }
  }

  lemma BlanksBetweenLines<C, Op>(w: World<C, Op>, blanks: string, text: string, more: nat, s: State<C, Op>, depth: nat)
    requires forall i :: 0 <= i < |blanks| ==> blanks[i] as int in {9, 10, 11, 12, 13, 32}
    ensures RunNext(w, "\n" + (blanks + text), more, s, depth) == RunNext(w, "\n" + text, more, s, depth)
  {
    assert "\n" + (blanks + text) == ("\n" + blanks) + text;
    hide *;
    AfterNewline(w, blanks + text, more, s, depth);
    AfterNewline(w, text, more, s, depth);
    SpaceIsSkipped("\n" + blanks, text);
    SpaceIsSkipped("\n", text);
  }

  lemma AfterNewline<C, Op>(w: World<C, Op>, text: string, more: nat, s: State<C, Op>, depth: nat)
    ensures (var line := SkipSpace("\n" + text);
             RunNext(w, "\n" + text, more, s, depth)
             == if line == "" || |line| + more <= 2 then Ready(s) else RunLine(w, line, more, s, depth))
  {
    assert AfterLine("\n" + text) == "\n" + text;
    hide RunLine;
  }

  /** Two characters or fewer at the end are not run as a line. */
  lemma ShortEndIsDropped<C, Op>(w: World<C, Op>, text: string, s: State<C, Op>, depth: nat)
    requires |text| <= 2
    ensures RunNext(w, "\n" + text, 0, s, depth) == Ready(s)
  {
    assert AfterLine("\n" + text) == "\n" + text;
    assert ("\n" + text)[1..] == text;
    assert |SkipSpace("\n" + text)| <= 2;
    hide RunLine;
  }

  /** The runner itself: a buffer with such a scenario, run to its end. */
  method RunScenario<C, Op>(w: World<C, Op>, buffer: Buffer, ghost s: Script<Op>, st: State<C, Op>)
    returns (outcome: Outcome<C, Op>, ghost splices: seq<Splice>)
    requires !s.End? && EndOf(s) == Through && Reads(w, s, st.context, true) && buffer.data == TextOf(s) + "\n"
    modifies buffer
    ensures outcome == Ready(State(ContextAfter(w, s, st.context, true), st.done + Commands(s)))
  {
    ScenarioIsExecuted(w, s, "\n", st, Depth(s));
    hide *;
    outcome, splices := Run(w, buffer, st, Depth(s));
  }
}
