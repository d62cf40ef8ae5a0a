/** The theory of a longest-match scanner, apart from any tables: what its tokens are, what maximal
    munch is, and why reading ahead and backing up computes it.

    A scanner leaves its start state to read a token. It can mark the end of a match and read on,
    hoping for a longer one. When it can read no further, or the input ends, it closes the token
    with the current character, before it, or at the mark. */
module TokenMachine {
  /** The token occupies positions `start` up to, but not including, `end`. */
  datatype Token = Token(start: int, end: int)

  datatype Exit = Missing | Here | Before | AtMark

  datatype Move = On(cs: nat, mark: bool) | Close(exit: Exit) | Fail

  /** `next` reads the character at a position below `size`; `eof` is the exit at the end of input. */
  datatype Machine = Machine(size: nat, start: nat, next: (nat, nat) -> Move, eof: nat -> Exit)

  /** The characters read so far are a token. */
  predicate Accepting(m: Machine, cs: nat) { m.eof(cs) == Before }

  /** They are not, but some of the first of them are. */
  predicate Lagging(m: Machine, cs: nat) { m.eof(cs) == AtMark }

  /** From `cs` the match may be lost. */
  predicate MayLag(m: Machine, cs: nat) {
    exists p :: 0 <= p < m.size && var move := m.next(cs, p); move.On? && Lagging(m, move.cs)
  }

  /** What one move may do. The mark is set on accepting states only, and on all of them from which
      the match may be lost; a lost match is never forgotten; an error is final only while nothing
      has been accepted; a token is closed the way the state that is left calls for. */
  predicate SoundMove(m: Machine, cs: nat, p: nat) {
    match m.next(cs, p)
    case On(d, mark) =>
      && d != m.start
      && (mark ==> Accepting(m, d))
      && (Accepting(m, d) && MayLag(m, d) ==> mark)
      && (!Accepting(m, d) ==> (Lagging(m, d) <==> Lagging(m, cs) || Accepting(m, cs)))
    case Close(exit) =>
      exit == Here || (exit == Before && Accepting(m, cs)) || (exit == AtMark && Lagging(m, cs))
    case Fail => !Accepting(m, cs) && !Lagging(m, cs)
  }

  ghost predicate Sound(m: Machine) {
    && m.eof(m.start) == Missing
    && (forall cs: nat :: m.eof(cs) != Here)
    && (forall cs: nat, p: nat :: p < m.size ==> SoundMove(m, cs, p))
  }

  // ---------- what a token is ----------

  datatype Where = Outside | Inside(cs: nat)

  /** The state after reading `n` characters of a token that begins at `from`, if that is still
      inside the token. */
  function After(m: Machine, from: nat, n: nat): Where {
    if n == 0 then Inside(m.start)
    else
      match After(m, from, n - 1)
      case Outside => Outside
      case Inside(cs) =>
        if from + n - 1 < m.size && m.next(cs, from + n - 1).On?
        then Inside(m.next(cs, from + n - 1).cs) else Outside
  }

  /** The `n`-th character ends the token by itself. */
  predicate ClosedBy(m: Machine, from: nat, n: nat) {
    && 0 < n && from + n - 1 < m.size
    && var w := After(m, from, n - 1); w.Inside? && m.next(w.cs, from + n - 1) == Close(Here)
  }

  /** The `n` characters from `from` on are a token. */
  predicate Accepted(m: Machine, from: nat, n: nat) {
    ClosedBy(m, from, n) || (0 < n && var w := After(m, from, n); w.Inside? && Accepting(m, w.cs))
  }

  // ---------- maximal munch ----------

  ghost predicate Longest(m: Machine, from: nat, n: nat) {
    Accepted(m, from, n) && forall k: nat :: n < k ==> !Accepted(m, from, k)
  }

  /** No token starts at `at`. */
  ghost predicate Stuck(m: Machine, at: nat) {
    forall k: nat :: !Accepted(m, at, k)
  }

  /** `tokens` tile the positions below `to` without gap or overlap, each as long as it can be. */
  ghost predicate Munched(m: Machine, tokens: seq<Token>, to: nat)
    decreases |tokens|
  {
    if tokens == [] then to == 0
    else
      var last := tokens[|tokens| - 1];
      && 0 <= last.start < last.end == to
      && Longest(m, last.start, last.end - last.start)
      && Munched(m, tokens[..|tokens| - 1], last.start)
  }

  /** There is only one way to munch until no token starts. */
  lemma MunchIsUnique(m: Machine, xs: seq<Token>, to: nat, ys: seq<Token>, to': nat)
    requires Munched(m, xs, to) && Stuck(m, to)
    requires Munched(m, ys, to') && Stuck(m, to')
    ensures xs == ys && to == to'
  {
    if |xs| > |ys| {
      CutMunch(m, xs, to, |ys|);
      EqualMunches(m, xs[..|ys|], xs[|ys|].start, ys, to');
    } else if |ys| > |xs| {
      CutMunch(m, ys, to', |xs|);
      EqualMunches(m, ys[..|xs|], ys[|xs|].start, xs, to);
    } else {
      EqualMunches(m, xs, to, ys, to');
    }
  }

  lemma {:induction false} CutMunch(m: Machine, xs: seq<Token>, to: nat, k: nat)
    requires Munched(m, xs, to) && k < |xs|
    ensures 0 <= xs[k].start < xs[k].end && Munched(m, xs[..k], xs[k].start)
    ensures Longest(m, xs[k].start, xs[k].end - xs[k].start)
    decreases |xs|
  {
    if k < |xs| - 1 {
      var shorter := xs[..|xs| - 1];
      CutMunch(m, shorter, xs[|xs| - 1].start, k);
      assert shorter[..k] == xs[..k];
    }
  }

  lemma {:induction false} EqualMunches(m: Machine, xs: seq<Token>, to: nat, ys: seq<Token>, to': nat)
    requires |xs| == |ys| && Munched(m, xs, to) && Munched(m, ys, to')
    ensures xs == ys && to == to'
    decreases |xs|
  {
    if xs != [] {
      var x, y := xs[|xs| - 1], ys[|ys| - 1];
      EqualMunches(m, xs[..|xs| - 1], x.start, ys[..|ys| - 1], y.start);
      assert xs == xs[..|xs| - 1] + [x] && ys == ys[..|ys| - 1] + [y];
    }
  }

  /** One more token extends a munch. */
  lemma MunchOneMore(m: Machine, tokens: seq<Token>, from: nat, n: nat)
    requires Munched(m, tokens, from) && 0 < n && Longest(m, from, n)
    ensures Munched(m, tokens + [Token(from, from + n)], from + n)
  {
    assert (tokens + [Token(from, from + n)])[..|tokens|] == tokens;
  }

  // ---------- reading one token ----------

  /** `te` remembers what is needed of the matches found so far in the token that began at `b`. */
  ghost predicate Marked(m: Machine, b: nat, p: nat, cs: nat, te: int)
    requires b <= p
  {
    if Lagging(m, cs) then
      b < te < p && Accepted(m, b, te - b) && forall n: nat :: te - b < n <= p - b ==> !Accepted(m, b, n)
    else if Accepting(m, cs) then
      MayLag(m, cs) ==> te == p
    else
      forall n: nat :: n <= p - b ==> !Accepted(m, b, n)
  }

  /** The characters from `b` up to `p` have been read, without leaving the token. */
  ghost predicate Reading(m: Machine, b: nat, p: nat, cs: nat, te: int) {
    && b <= p <= m.size
    && After(m, b, p - b) == Inside(cs)
    && (cs == m.start <==> p == b)
    && Marked(m, b, p, cs, te)
  }

  lemma StartReading(m: Machine, b: nat, te: int)
    requires Sound(m) && b <= m.size
    ensures Reading(m, b, b, m.start, te)
  {
  }

  /** Once outside the token, always outside: longer prefixes are not tokens. */
  lemma {:induction false} OutsideForGood(m: Machine, b: nat, n: nat, k: nat)
    requires After(m, b, n) == Outside && n < k
    ensures After(m, b, k) == Outside && !Accepted(m, b, k)
  {
    if n < k - 1 {
      OutsideForGood(m, b, n, k - 1);
    }
  }

  /** One more character of the same token. */
  lemma ReadOn(m: Machine, b: nat, p: nat, cs: nat, te: int)
    requires Sound(m) && Reading(m, b, p, cs, te) && p < m.size && m.next(cs, p).On?
    ensures var move := m.next(cs, p); Reading(m, b, p + 1, move.cs, if move.mark then p + 1 else te)
  {
    var On(d, mark) := m.next(cs, p);
    assert SoundMove(m, cs, p);
    assert After(m, b, p + 1 - b) == Inside(d);
    assert Accepted(m, b, p + 1 - b) <==> Accepting(m, d);
    if Lagging(m, d) && Accepting(m, cs) {
      assert MayLag(m, cs);
    }
  }

  /** Where a token ends when it is closed at `p`. */
  function End(exit: Exit, p: int, te: int): int {
    match exit
    case Here => p + 1
    case Before => p
    case AtMark => te
    case Missing => p
  }

  /** A closing move, or the end of input, ends the token at its longest match. */
  lemma CloseIsLongest(m: Machine, b: nat, p: nat, cs: nat, te: int, exit: Exit)
    requires Sound(m) && Reading(m, b, p, cs, te) && exit != Missing
    requires if p < m.size then m.next(cs, p) == Close(exit) else m.eof(cs) == exit
    ensures var e := End(exit, p, te);
            b < e <= m.size && Longest(m, b, e - b)
  {
    assert p < m.size ==> SoundMove(m, cs, p);
    assert After(m, b, p - b + 1) == Outside;
    EndIsLongest(m, b, p, cs, te, exit);
  }

  lemma EndIsLongest(m: Machine, b: nat, p: nat, cs: nat, te: int, exit: Exit)
    requires Sound(m) && Reading(m, b, p, cs, te) && After(m, b, p - b + 1) == Outside
    requires exit == Here <==> ClosedBy(m, b, p - b + 1)
    requires exit == Here || (exit == Before && Accepting(m, cs)) || (exit == AtMark && Lagging(m, cs))
    ensures var e := End(exit, p, te);
            b < e <= (if exit == Here then p + 1 else p) && Longest(m, b, e - b)
  {
    var e := End(exit, p, te);
    forall k: nat | e - b < k
      ensures !Accepted(m, b, k)
    {
      if k > p - b + 1 {
        OutsideForGood(m, b, p - b + 1, k);
      }
    }
  }

  /** Reading that stops without an exit proves that no token starts at `b`. */
  lemma GiveUp(m: Machine, b: nat, p: nat, cs: nat, te: int)
    requires Sound(m) && Reading(m, b, p, cs, te)
    requires if p < m.size then m.next(cs, p) == Fail else m.eof(cs) == Missing
    ensures Stuck(m, b)
  {
    assert p < m.size ==> SoundMove(m, cs, p);
    assert After(m, b, p - b + 1) == Outside && !ClosedBy(m, b, p - b + 1);
    forall k: nat
      ensures !Accepted(m, b, k)
    {
      if k > p - b + 1 {
        OutsideForGood(m, b, p - b + 1, k);
      }
    }
  }
}
