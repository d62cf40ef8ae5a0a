/** When a scenario ends, read off the files: a rank that every include lowers bounds the nesting. In
    a world whose lines mean the same in every context and never stop the run, there is such a rank
    exactly when the runner ends. */
module ScenarioDepth {
  import opened Wrappers
  import opened Text
  import opened Scenario

  // ---------- the lines of a text ----------

  predicate Blank(text: string, i: nat, j: nat)
    requires i <= j <= |text|
  {
    forall k :: i <= k < j ==> IsSpace(text[k])
  }

  /** A line the runner may come to from position `i` on starts at `j`: nothing but white space
      stands between `j` and a newline before it. */
  predicate LineFrom(text: string, i: nat, j: nat) {
    && j < |text| && !IsSpace(text[j])
    && exists k :: i <= k < j && text[k] == '\n' && Blank(text, k, j)
  }

  lemma {:induction false} Skipped(text: string, i: nat) returns (j: nat)
    requires i <= |text|
    ensures i <= j <= |text| && SkipSpace(text[i..]) == text[j..] && Blank(text, i, j)
    ensures j < |text| ==> !IsSpace(text[j])
    decreases |text| - i
  {
    j := i;
    if i < |text| && IsSpace(text[i]) {
      assert text[i..][1..] == text[i + 1..];
      j := Skipped(text, i + 1);
    }
  }

  function LineEnd(text: string, i: nat): (n: nat)
    requires i <= |text|
    ensures i <= n <= |text|
  {
    i + Find(text[i..], '\n')
  }

  lemma AfterLineAt(text: string, i: nat)
    requires i <= |text|
    ensures AfterLine(text[i..]) == text[LineEnd(text, i)..]
    ensures forall k :: i <= k < LineEnd(text, i) ==> text[k] != '\n'
    ensures LineEnd(text, i) < |text| ==> text[LineEnd(text, i)] == '\n'
  {
    assert forall k :: i <= k < |text| ==> text[k] == text[i..][k - i];
  }

  /** The lines from `i` on are those from the end of the line at `i` on. */
  lemma SameLines(text: string, i: nat, j: nat)
    requires i <= |text|
    ensures LineFrom(text, i, j) <==> LineFrom(text, LineEnd(text, i), j)
  {
    AfterLineAt(text, i);
  }

  /** Where the runner goes on from `i`: to the first of the lines from there, and the lines from
      that one are the others. */
  lemma NextStart(text: string, i: nat) returns (j: nat)
    requires i <= |text|
    ensures i <= j <= |text| && SkipSpace(AfterLine(text[i..])) == text[j..]
    ensures j < |text| ==> i < j && LineFrom(text, i, j)
    ensures forall x: nat :: LineFrom(text, i, x) <==> (j < |text| && x == j) || LineFrom(text, j, x)
  {
    AfterLineAt(text, i);
    var n := LineEnd(text, i);
    j := Skipped(text, n);
    hide LineEnd;
    if j < |text| {
      assert text[n] == '\n';
    }
    forall x: nat
      ensures LineFrom(text, i, x) <==> (j < |text| && x == j) || LineFrom(text, j, x)
    {
      LineOrLater(text, i, n, j, x);
    }
  }

  lemma LineOrLater(text: string, i: nat, n: nat, j: nat, x: nat)
    requires i <= n <= j <= |text| && Blank(text, n, j)
    requires forall k :: i <= k < n ==> text[k] != '\n'
    requires j < |text| ==> n < j && text[n] == '\n' && !IsSpace(text[j])
    ensures LineFrom(text, i, x) <==> (j < |text| && x == j) || LineFrom(text, j, x)
  {
    if LineFrom(text, i, x) {
      var k :| i <= k < x && text[k] == '\n' && Blank(text, k, x);
      assert x >= j;
      assert x > j ==> k >= j;
    }
  }

  // ---------- what a text may include ----------

  /** The file that a line includes in a context, if it includes one. */
  function IncludeOf<C, Op>(w: World<C, Op>, line: string, context: C): Option<string> {
    match w.parse(line, context).0
    case Some(Include(path)) => if path != "" && Inserted(w, path).Some? then Some(path) else None
    case _ => None
  }

  ghost predicate MayInclude<C(!new), Op>(w: World<C, Op>, text: string, j: nat, path: string)
    requires j <= |text|
  {
    exists context: C, more: nat :: IncludeOf(w, FirstLine(text[j..], more), context) == Some(path)
  }

  lemma IncludeInserts<C(!new), Op>(w: World<C, Op>, text: string, j: nat, more: nat, s: State<C, Op>)
    requires j <= |text| && EffectOf(w, FirstLine(text[j..], more), s).Insert?
    ensures (var path := IncludeOf(w, FirstLine(text[j..], more), s.context);
             && path.Some? && MayInclude(w, text, j, path.value)
             && Inserted(w, path.value) == Some(EffectOf(w, FirstLine(text[j..], more), s).text))
  {
    hide FirstLine, Inserted;
  }

  /** Whatever the line at `j` may include nests less than `depth` levels deep. */
  ghost predicate LineFits<C(!new), Op>(w: World<C, Op>, text: string, j: nat, depth: nat)
    requires j <= |text|
    decreases depth, 0
  {
    forall path :: MayInclude(w, text, j, path) && Inserted(w, path).Some? ==>
                     depth > 0 && Fits(w, Inserted(w, path).value, 0, depth - 1)
  }

  /** The same for all lines from `i` on. */
  ghost predicate Fits<C(!new), Op>(w: World<C, Op>, text: string, i: nat, depth: nat)
    decreases depth, 1
  {
    forall j: nat :: LineFrom(text, i, j) ==> LineFits(w, text, j, depth)
  }

  /** Then the runner does not get deeper than that, in any context. */
  lemma {:induction false} FittingNext<C(!new), Op>(
    w: World<C, Op>, text: string, i: nat, more: nat, s: State<C, Op>, depth: nat)
    requires i <= |text| && Fits(w, text, i, depth)
    ensures !RunNext(w, text[i..], more, s, depth).TooDeep?
    decreases depth, |text| - i, 0
  {
    var j := NextStart(text, i);
    hide LineFrom, LineFits, RunLine, AfterLine, SkipSpace;
    if j < |text| {
      FittingLine(w, text, j, more, s, depth);
    }
  }

  lemma {:induction false} FittingLine<C(!new), Op>(
    w: World<C, Op>, text: string, j: nat, more: nat, s: State<C, Op>, depth: nat)
    requires j <= |text| && Fits(w, text, j, depth) && LineFits(w, text, j, depth)
    ensures !RunLine(w, text[j..], more, s, depth).TooDeep?
    decreases depth, |text| - j, 2
  {
    var e := EffectOf(w, FirstLine(text[j..], more), s);
    if e.Insert? {
      IncludeInserts(w, text, j, more, s);
    }
    FitsFromEnd(w, text, j, depth);
    hide RunEffect, Fits, MayInclude, FirstLine, EffectOf, LineEnd;
    FittingEffect(w, e, text, j, more, depth);
  }

  lemma {:induction false} FittingEffect<C(!new), Op>(
    w: World<C, Op>, e: Effect<C, Op>, text: string, j: nat, more: nat, depth: nat)
    requires j <= |text| && Fits(w, text, j, depth) && Fits(w, text, LineEnd(text, j), depth)
    requires e.Insert? ==> depth > 0 && Fits(w, e.text, 0, depth - 1)
    requires e.Stop? ==> !e.outcome.TooDeep?
    ensures !RunEffect(w, e, text[j..], more, depth).TooDeep?
    decreases depth, |text| - j, 1
  {
    AfterLineAt(text, j);
    hide Fits, RunNext, LineEnd, AfterLine;
    if e.Go? {
      FittingNext(w, text, j, more, e.state, depth);
    } else if e.Insert? {
      assert e.text[0..] == e.text;
      FittingNext(w, e.text, 0, |AfterLine(text[j..])| + more, e.state, depth - 1);
      var inner := RunNext(w, e.text, |AfterLine(text[j..])| + more, e.state, depth - 1);
      if inner.Ready? {
        FittingNext(w, text, LineEnd(text, j), more, inner.state, depth);
      }
    }
  }

  lemma FitsFromEnd<C(!new), Op>(w: World<C, Op>, text: string, i: nat, depth: nat)
    requires i <= |text|
    ensures Fits(w, text, i, depth) <==> Fits(w, text, LineEnd(text, i), depth)
  {
    forall j: nat
      ensures LineFrom(text, i, j) <==> LineFrom(text, LineEnd(text, i), j)
    {
      SameLines(text, i, j);
    }
    hide LineFrom, LineFits, LineEnd;
  }

  /** A whole buffer: its first line and the others. */
  ghost predicate BufferFits<C(!new), Op>(w: World<C, Op>, text: string, depth: nat) {
    LineFits(w, text, 0, depth) && Fits(w, text, 0, depth)
  }

  lemma FittingBuffer<C(!new), Op>(w: World<C, Op>, text: string, s: State<C, Op>, depth: nat)
    requires BufferFits(w, text, depth)
    ensures !RunBuffer(w, text, s, depth).TooDeep?
  {
    if text != "" {
      FittingLine(w, text, 0, 0, s, depth);
      assert text[0..] == text;
    }
  }

  // ---------- a rank on the files ----------

  /** Every file the line at `j` may include has a rank below `bound`. */
  ghost predicate LineBelow<C(!new), Op>(w: World<C, Op>, rank: string -> nat, text: string, j: nat, bound: nat)
    requires j <= |text|
  {
    forall path :: MayInclude(w, text, j, path) ==> rank(path) < bound
  }

  ghost predicate TextBelow<C(!new), Op>(w: World<C, Op>, rank: string -> nat, text: string, bound: nat) {
    forall j: nat :: LineFrom(text, 0, j) ==> LineBelow(w, rank, text, j, bound)
  }

  /** Every file of a rank below `bound` includes only files of lower ranks than its own. */
  ghost predicate Ranked<C(!new), Op>(w: World<C, Op>, rank: string -> nat, bound: nat) {
    forall path :: Inserted(w, path).Some? && rank(path) < bound ==>
                     TextBelow(w, rank, Inserted(w, path).value, rank(path))
  }

  ghost predicate BufferBelow<C(!new), Op>(w: World<C, Op>, rank: string -> nat, text: string, bound: nat) {
    Ranked(w, rank, bound) && LineBelow(w, rank, text, 0, bound) && TextBelow(w, rank, text, bound)
  }

  lemma {:induction false} RankedFits<C(!new), Op>(
    w: World<C, Op>, rank: string -> nat, bound: nat, text: string, r: nat, depth: nat)
    requires Ranked(w, rank, bound) && TextBelow(w, rank, text, r) && r <= depth <= bound
    ensures Fits(w, text, 0, depth)
    decreases depth
  {
    forall j: nat | LineFrom(text, 0, j)
      ensures LineFits(w, text, j, depth)
    {
      assert LineBelow(w, rank, text, j, r);
      RankedLineFits(w, rank, bound, text, j, r, depth);
    }
  }

  lemma {:induction false} RankedLineFits<C(!new), Op>(
    w: World<C, Op>, rank: string -> nat, bound: nat, text: string, j: nat, r: nat, depth: nat)
    requires j <= |text| && Ranked(w, rank, bound) && LineBelow(w, rank, text, j, r) && r <= depth <= bound
    ensures LineFits(w, text, j, depth)
    decreases depth, 0
  {
    hide MayInclude, Fits, TextBelow;
    forall path | MayInclude(w, text, j, path) && Inserted(w, path).Some?
      ensures depth > 0 && Fits(w, Inserted(w, path).value, 0, depth - 1)
    {
      RankedFits(w, rank, bound, Inserted(w, path).value, rank(path), depth - 1);
    }
  }

  /** A buffer whose includes have ranks below `depth` runs to its end, whatever its lines do. */
  lemma AcyclicEnds<C(!new), Op>(w: World<C, Op>, rank: string -> nat, text: string, s: State<C, Op>, depth: nat)
    requires BufferBelow(w, rank, text, depth)
    ensures !RunBuffer(w, text, s, depth).TooDeep?
  {
    RankedFits(w, rank, depth, text, depth, depth);
    RankedLineFits(w, rank, depth, text, 0, depth, depth);
    FittingBuffer(w, text, s, depth);
  }

  /** The runner, on files that a rank keeps from including each other in a circle. */
  method RunAcyclic<C(!new), Op>(
    w: World<C, Op>, buffer: Buffer, s: State<C, Op>, ghost rank: string -> nat, ghost depth: nat)
    returns (outcome: Outcome<C, Op>, ghost splices: seq<Splice>)
    requires BufferBelow(w, rank, buffer.data, depth)
    modifies buffer
    ensures outcome == RunBuffer(w, old(buffer.data), s, depth) && !outcome.TooDeep?
    ensures Grown(old(buffer.data), splices, buffer.data, |buffer.data|)
  {
    AcyclicEnds(w, rank, buffer.data, s, depth);
    outcome, splices := Run(w, buffer, s, depth);
  }

  // ---------- worlds in which nothing stops a run ----------

  /** Lines mean the same in every context and with or without their newline; no line ends the run;
      what is left of a text when at most two characters remain includes nothing. */
  ghost predicate Plain<C(!new), Op>(w: World<C, Op>) {
    && (forall line: string, c: C, c': C :: w.parse(line, c).0 == w.parse(line, c').0)
    && (forall line: string, c: C :: w.parse(line + "\n", c).0 == w.parse(line, c).0)
    && (forall line: string, c: C :: Continues(w.parse(line, c).0))
    && (forall line: string, c: C :: |line| <= 2 ==> IncludeOf(w, line, c) == None)
  }

  predicate Continues<Op>(command: Option<Command<Op>>) {
    command.Some? && !command.value.Exit? && (command.value.Include? ==> command.value.path != "")
  }

  /** In such a world a line includes the same file however it is reached. */
  lemma PlainInclude<C(!new), Op>(w: World<C, Op>, text: string, j: nat, path: string, more: nat, context: C)
    requires Plain(w) && j <= |text| && MayInclude(w, text, j, path)
    ensures IncludeOf(w, FirstLine(text[j..], more), context) == Some(path)
  {
    var c, n: nat :| IncludeOf(w, FirstLine(text[j..], n), c) == Some(path);
    PlainLine(w, text[j..], n, c, more, context);
  }

  lemma PlainIncludeIsLong<C(!new), Op>(w: World<C, Op>, text: string, j: nat, path: string)
    requires Plain(w) && j <= |text| && MayInclude(w, text, j, path)
    ensures |text[j..]| > 2
  {
    var c, n: nat :| IncludeOf(w, FirstLine(text[j..], n), c) == Some(path);
    PlainLine(w, text[j..], n, c, 0, c);
  }

  lemma PlainLine<C(!new), Op>(w: World<C, Op>, line: string, n: nat, c: C, n': nat, c': C)
    requires Plain(w)
    ensures IncludeOf(w, FirstLine(line, n), c) == IncludeOf(w, FirstLine(line, n'), c')
  {
    var bare := FirstLine(line, 0);
    assert FirstLine(line, n) in {bare, bare + "\n"} && FirstLine(line, n') in {bare, bare + "\n"};
    hide FirstLine;
    assert w.parse(FirstLine(line, n), c).0 == w.parse(bare, c).0;
    assert w.parse(FirstLine(line, n'), c').0 == w.parse(bare, c').0;
  }

  lemma PlainEffect<C(!new), Op>(w: World<C, Op>, text: string, j: nat, more: nat, s: State<C, Op>)
    requires Plain(w) && j <= |text|
    ensures (var e := EffectOf(w, FirstLine(text[j..], more), s);
             && (e.Insert? || (e.Go? && forall path :: !MayInclude(w, text, j, path)))
             && (e.Insert? ==> forall path :: MayInclude(w, text, j, path) ==> Inserted(w, path) == Some(e.text)))
  {
    var line := FirstLine(text[j..], more);
    assert Continues(w.parse(line, s.context).0);
    forall path | MayInclude(w, text, j, path)
      ensures IncludeOf(w, line, s.context) == Some(path)
    {
      PlainInclude(w, text, j, path, more, s.context);
    }
    hide MayInclude, FirstLine, Inserted, Plain;
  }

  /** At most two characters include nothing. */
  lemma ShortFits<C(!new), Op>(w: World<C, Op>, text: string, j: nat, depth: nat)
    requires Plain(w) && j <= |text| && |text[j..]| <= 2
    ensures LineFits(w, text, j, depth)
  {
    forall path
      ensures !MayInclude(w, text, j, path)
    {
      if MayInclude(w, text, j, path) {
        PlainIncludeIsLong(w, text, j, path);
      }
    }
  }

  lemma {:induction false} NeededNext<C(!new), Op>(
    w: World<C, Op>, text: string, i: nat, more: nat, s: State<C, Op>, depth: nat)
    requires Plain(w) && i <= |text| && !RunNext(w, text[i..], more, s, depth).TooDeep?
    ensures RunNext(w, text[i..], more, s, depth).Ready? && Fits(w, text, i, depth)
    decreases depth, |text| - i, 0
  {
    var j := NextStart(text, i);
    hide LineFrom, LineFits, RunLine, AfterLine, SkipSpace, Plain;
    if j < |text| {
      if |text[j..]| + more <= 2 {
        ShortFitsFrom(w, text, j, depth);
      } else {
        NeededLine(w, text, j, more, s, depth);
      }
    }
  }

  lemma ShortFitsFrom<C(!new), Op>(w: World<C, Op>, text: string, j: nat, depth: nat)
    requires Plain(w) && j <= |text| && |text[j..]| <= 2
    ensures LineFits(w, text, j, depth) && Fits(w, text, j, depth)
  {
    ShortFits(w, text, j, depth);
    forall x: nat | LineFrom(text, j, x)
      ensures LineFits(w, text, x, depth)
    {
      ShortFits(w, text, x, depth);
    }
  }

  lemma {:induction false} NeededLine<C(!new), Op>(
    w: World<C, Op>, text: string, j: nat, more: nat, s: State<C, Op>, depth: nat)
    requires Plain(w) && j <= |text| && !RunLine(w, text[j..], more, s, depth).TooDeep?
    ensures RunLine(w, text[j..], more, s, depth).Ready?
    ensures LineFits(w, text, j, depth) && Fits(w, text, j, depth)
    decreases depth, |text| - j, 4
  {
    var e := EffectOf(w, FirstLine(text[j..], more), s);
    PlainEffect(w, text, j, more, s);
    hide RunEffect, Fits, MayInclude, FirstLine, EffectOf, Plain, Inserted;
    NeededEffect(w, e, text, j, more, depth);
  }

  lemma {:induction false} NeededEffect<C(!new), Op>(
    w: World<C, Op>, e: Effect<C, Op>, text: string, j: nat, more: nat, depth: nat)
    requires Plain(w) && j <= |text| && !e.Stop? && !RunEffect(w, e, text[j..], more, depth).TooDeep?
    ensures RunEffect(w, e, text[j..], more, depth).Ready? && Fits(w, text, j, depth)
    ensures e.Insert? ==> depth > 0 && Fits(w, e.text, 0, depth - 1)
    decreases depth, |text| - j, 3
  {
    if e.Go? {
      hide Fits, RunNext, Plain;
      NeededNext(w, text, j, more, e.state, depth);
    } else {
      NeededInsert(w, e, text, j, more, depth);
    }
  }

  lemma {:induction false} NeededInsert<C(!new), Op>(
    w: World<C, Op>, e: Effect<C, Op>, text: string, j: nat, more: nat, depth: nat)
    requires Plain(w) && j <= |text| && e.Insert? && !RunEffect(w, e, text[j..], more, depth).TooDeep?
    ensures RunEffect(w, e, text[j..], more, depth).Ready? && Fits(w, text, j, depth)
    ensures depth > 0 && Fits(w, e.text, 0, depth - 1)
    decreases depth, |text| - j, 2
  {
    var inner, after := InsertRuns(w, e, text[j..], more, depth);
    WholeText(e.text);
    hide *;
    NeededNext(w, e.text, 0, after, e.state, depth - 1);
    NeededRest(w, text, j, more, inner.state, depth);
  }

  lemma WholeText(text: string)
    ensures text[0..] == text
  {
  }

  lemma {:induction false} NeededRest<C(!new), Op>(
    w: World<C, Op>, text: string, j: nat, more: nat, s: State<C, Op>, depth: nat)
    requires Plain(w) && j <= |text| && !RunNext(w, AfterLine(text[j..]), more, s, depth).TooDeep?
    ensures RunNext(w, AfterLine(text[j..]), more, s, depth).Ready? && Fits(w, text, j, depth)
    decreases depth, |text| - j, 1
  {
    AfterLineAt(text, j);
    FitsFromEnd(w, text, j, depth);
    hide *;
    NeededNext(w, text, LineEnd(text, j), more, s, depth);
  }

  /** An insert that does not get too deep: the run of its text, then that of the rest. */
  lemma InsertRuns<C, Op>(w: World<C, Op>, e: Effect<C, Op>, text: string, more: nat, depth: nat)
    returns (inner: Outcome<C, Op>, after: nat)
    requires e.Insert? && !RunEffect(w, e, text, more, depth).TooDeep?
    ensures depth > 0 && inner == RunNext(w, e.text, after, e.state, depth - 1) && !inner.TooDeep?
    ensures inner.Ready? ==> RunEffect(w, e, text, more, depth) == RunNext(w, AfterLine(text), more, inner.state, depth)
  {
    hide RunNext, AfterLine;
    assert depth > 0;
    after := |AfterLine(text)| + more;
    inner := RunNext(w, e.text, after, e.state, depth - 1);
  }

  lemma NeededBuffer<C(!new), Op>(w: World<C, Op>, text: string, s: State<C, Op>, depth: nat)
    requires Plain(w) && !RunBuffer(w, text, s, depth).TooDeep?
    ensures BufferFits(w, text, depth)
  {
    assert text[0..] == text;
    hide Plain, Fits, LineFits, RunLine;
    if text == "" {
      ShortFitsFrom(w, text, 0, depth);
    } else {
      NeededLine(w, text, 0, 0, s, depth);
    }
  }

  /** The least depth, up to `bound`, to which the lines of a text fit. */
  ghost function LeastFit<C(!new), Op>(w: World<C, Op>, text: string, from: nat, bound: nat): (r: nat)
    requires from <= bound
    ensures from <= r <= bound && (r < bound ==> Fits(w, text, 0, r))
    ensures forall depth :: from <= depth < r ==> !Fits(w, text, 0, depth)
    decreases bound - from
  {
    if from == bound || Fits(w, text, 0, from) then from else LeastFit(w, text, from + 1, bound)
  }

  ghost function RankOf<C(!new), Op>(w: World<C, Op>, path: string, bound: nat): nat {
    if Inserted(w, path).None? then bound else LeastFit(w, Inserted(w, path).value, 0, bound)
  }

  lemma FittingLineBelow<C(!new), Op>(w: World<C, Op>, text: string, j: nat, depth: nat, bound: nat)
    requires j <= |text| && LineFits(w, text, j, depth) && depth <= bound
    ensures LineBelow(w, (path: string) => RankOf(w, path, bound), text, j, depth)
  {
    forall path | MayInclude(w, text, j, path)
      ensures RankOf(w, path, bound) < depth
    {
      assert Inserted(w, path).Some?;
      assert Fits(w, Inserted(w, path).value, 0, depth - 1);
    }
  }

  lemma FittingTextBelow<C(!new), Op>(w: World<C, Op>, text: string, depth: nat, bound: nat)
    requires Fits(w, text, 0, depth) && depth <= bound
    ensures TextBelow(w, (path: string) => RankOf(w, path, bound), text, depth)
  {
    forall j: nat | LineFrom(text, 0, j)
      ensures LineBelow(w, (path: string) => RankOf(w, path, bound), text, j, depth)
    {
      assert LineFits(w, text, j, depth);
      FittingLineBelow(w, text, j, depth, bound);
    }
  }

  /** Files that nest to a finite depth have a rank. */
  lemma FittingHasRank<C(!new), Op>(w: World<C, Op>, text: string, bound: nat)
    requires BufferFits(w, text, bound)
    ensures BufferBelow(w, (path: string) => RankOf(w, path, bound), text, bound)
  {
    var rank := (path: string) => RankOf(w, path, bound);
    FittingLineBelow(w, text, 0, bound, bound);
    FittingTextBelow(w, text, bound, bound);
    forall path | Inserted(w, path).Some? && rank(path) < bound
      ensures TextBelow(w, rank, Inserted(w, path).value, rank(path))
    {
      FittingTextBelow(w, Inserted(w, path).value, rank(path), bound);
    }
  }

  /** In a plain world the runner ends exactly when a rank keeps the files from including each other
      in a circle. */
  lemma EndsExactlyWhenRanked<C(!new), Op>(w: World<C, Op>, text: string, s: State<C, Op>)
    requires Plain(w)
    ensures (exists k: nat :: Turns(w, Start(text, s), k).Halt?)
       <==> (exists rank: string -> nat, bound: nat :: BufferBelow(w, rank, text, bound))
  {
    hide Plain, BufferBelow, BufferFits, RunBuffer, Turns, Start;
    EndsIffFiniteDepth(w, text, s);
    if depth: nat :| !RunBuffer(w, text, s, depth).TooDeep? {
      NeededBuffer(w, text, s, depth);
      FittingHasRank(w, text, depth);
    }
    if rank: string -> nat, bound: nat :| BufferBelow(w, rank, text, bound) {
      AcyclicEnds(w, rank, text, s, bound);
    }
  }
}
