/** The tables that drive the DSSL scanner, and the two binary searches that consult them.

    The tables themselves are data; what matters is their layout. `Layout` states it, `Transition`
    and `Widen` say by a linear scan what the tables mean, and the methods are the searches of
    `dssl_parse`, index arithmetic included. */
module DsslTables {
  /** A C `char`, which the scanner takes to be signed. */
  newtype Char = c: int | -128 <= c < 128

  const LF: Char := 10
  const SHARP: Char := 35
  const PERCENT: Char := 37
  const HYPHEN: Char := 45
  const GREATER: Char := 62
  const AROBASE: Char := 64

  /** One field per generated array. An action list is stored as its length followed by its codes. */
  datatype Tables = Tables(
    actions: seq<nat>,
    condOffsets: seq<nat>, condLengths: seq<nat>, condKeys: seq<int>, condSpaces: seq<nat>,
    keyOffsets: seq<nat>, transKeys: seq<int>, singleLengths: seq<nat>, rangeLengths: seq<nat>,
    indexOffsets: seq<nat>, indicies: seq<nat>,
    transTargs: seq<nat>, transActions: seq<nat>,
    toStateActions: seq<nat>, fromStateActions: seq<nat>, eofTrans: seq<nat>,
    start: nat, firstFinal: nat)

  // ---------- layout ----------

  predicate Increasing(keys: seq<int>) {
    forall i, j :: 0 <= i < j < |keys| ==> keys[i] < keys[j]
  }

  /** Bounds of the `i`-th range in a list of ranges stored as pairs. */
  function Lo(pairs: seq<int>, i: nat): int
    requires i < |pairs| / 2
  {
    pairs[2 * i]
  }

  function Hi(pairs: seq<int>, i: nat): int
    requires i < |pairs| / 2
  {
    pairs[2 * i + 1]
  }

  /** `pairs` lists non-empty disjoint ranges in increasing order. */
  predicate SortedRanges(pairs: seq<int>) {
    && |pairs| % 2 == 0
    && (forall i :: 0 <= i < |pairs| / 2 ==> Lo(pairs, i) <= Hi(pairs, i))
    && (forall i, j :: 0 <= i < j < |pairs| / 2 ==> Hi(pairs, i) < Lo(pairs, j))
  }

  predicate IsActionList(t: Tables, k: nat) {
    k < |t.actions| && k + t.actions[k] < |t.actions|
  }

  predicate IsState(t: Tables, cs: nat) {
    cs < |t.keyOffsets|
  }

  predicate IsTransition(t: Tables, trans: nat) {
    trans < |t.transTargs|
  }

  /** One entry per state in every per-state array. */
  predicate Shape(t: Tables) {
    var n := |t.keyOffsets|;
    && n == |t.condOffsets| == |t.condLengths| == |t.singleLengths| == |t.rangeLengths|
    && n == |t.indexOffsets| == |t.toStateActions| == |t.fromStateActions| == |t.eofTrans|
    && |t.transTargs| == |t.transActions|
  }

  /** The slices that belong to a state stay inside the shared arrays. */
  predicate SlicesFit(t: Tables, cs: nat)
    requires Shape(t) && IsState(t, cs)
  {
    && t.condOffsets[cs] + t.condLengths[cs] <= |t.condSpaces|
    && 2 * t.condOffsets[cs] + 2 * t.condLengths[cs] <= |t.condKeys|
    && t.keyOffsets[cs] + t.singleLengths[cs] + 2 * t.rangeLengths[cs] <= |t.transKeys|
    && t.indexOffsets[cs] + t.singleLengths[cs] + t.rangeLengths[cs] < |t.indicies|
  }

  predicate HasSlices(t: Tables, cs: nat) {
    Shape(t) && IsState(t, cs) && SlicesFit(t, cs)
  }

  function Singles(t: Tables, cs: nat): (keys: seq<int>)
    requires HasSlices(t, cs)
    ensures |keys| == t.singleLengths[cs]
  {
    t.transKeys[t.keyOffsets[cs]..t.keyOffsets[cs] + t.singleLengths[cs]]
  }

  function Ranges(t: Tables, cs: nat): (pairs: seq<int>)
    requires HasSlices(t, cs)
    ensures |pairs| == 2 * t.rangeLengths[cs]
  {
    var from := t.keyOffsets[cs] + t.singleLengths[cs];
    t.transKeys[from..from + 2 * t.rangeLengths[cs]]
  }

  function CondRanges(t: Tables, cs: nat): (pairs: seq<int>)
    requires HasSlices(t, cs)
    ensures |pairs| == 2 * t.condLengths[cs]
  {
    t.condKeys[2 * t.condOffsets[cs]..2 * t.condOffsets[cs] + 2 * t.condLengths[cs]]
  }

  predicate StateFits(t: Tables, cs: nat)
    requires Shape(t) && IsState(t, cs)
  {
    && SlicesFit(t, cs)
    && Increasing(Singles(t, cs)) && SortedRanges(Ranges(t, cs)) && SortedRanges(CondRanges(t, cs))
    && IsActionList(t, t.toStateActions[cs]) && IsActionList(t, t.fromStateActions[cs])
    && t.eofTrans[cs] <= |t.transTargs|
  }

  predicate TransitionFits(t: Tables, trans: nat)
    requires Shape(t) && IsTransition(t, trans)
  {
    IsState(t, t.transTargs[trans]) && IsActionList(t, t.transActions[trans])
  }

  /** Every index the scanner computes stays inside its array, and the keys are sorted. */
  ghost predicate Layout(t: Tables) {
    && Shape(t) && IsState(t, t.start)
    && (forall cs :: IsState(t, cs) ==> StateFits(t, cs))
    && (forall trans :: IsTransition(t, trans) ==> TransitionFits(t, trans))
    && (forall i :: 0 <= i < |t.indicies| ==> IsTransition(t, t.indicies[i]))
  }

  function ActionList(t: Tables, k: nat): seq<nat>
    requires IsActionList(t, k)
  {
    t.actions[k + 1..k + 1 + t.actions[k]]
  }

  // ---------- meaning, by linear scan ----------

  /** Index of the first key equal to `w`, or the number of keys. */
  function FirstEqual(keys: seq<int>, w: int): (i: nat)
    ensures i <= |keys| && (i < |keys| ==> keys[i] == w)
    ensures forall j :: 0 <= j < i ==> keys[j] != w
  {
    if keys == [] || keys[0] == w then 0 else 1 + FirstEqual(keys[1..], w)
  }

  predicate Holds(pairs: seq<int>, i: nat, w: int)
    requires i < |pairs| / 2
  {
    Lo(pairs, i) <= w <= Hi(pairs, i)
  }

  /** Index of the first range from the `from`-th on that holds `w`, or the number of ranges. */
  function FirstRange(pairs: seq<int>, w: int, from: nat := 0): (i: nat)
    requires from <= |pairs| / 2
    ensures from <= i <= |pairs| / 2 && (i < |pairs| / 2 ==> Holds(pairs, i, w))
    ensures forall j :: from <= j < i ==> !Holds(pairs, j, w)
    decreases |pairs| / 2 - from
  {
    if from == |pairs| / 2 || Holds(pairs, from, w) then from else FirstRange(pairs, w, from + 1)
  }

  /** Position in `indicies`, within the slice of state `cs`, that answers the widened character
      `w`: single keys first, then ranges, then the state's default. */
  function Slot(t: Tables, cs: nat, w: int): (i: nat)
    requires HasSlices(t, cs)
    ensures i <= t.singleLengths[cs] + t.rangeLengths[cs]
  {
    var single := FirstEqual(Singles(t, cs), w);
    if single < t.singleLengths[cs] then single
    else t.singleLengths[cs] + FirstRange(Ranges(t, cs), w)
  }

  /** The transition that state `cs` takes on the widened character `w`. */
  function Transition(t: Tables, cs: nat, w: int): nat {
    if HasSlices(t, cs) then t.indicies[t.indexOffsets[cs] + Slot(t, cs, w)] else 0
  }

  /** The character after `p` does not repeat the one at `p` as the two-character mark `c c`. */
  predicate NextNot(input: seq<Char>, p: nat, c: Char) {
    |input| - p >= 2 ==> !(input[p] == c && input[p + 1] == c)
  }

  predicate NextNotReserved(input: seq<Char>, p: nat)
    requires p < |input|
  {
    && NextNot(input, p, HYPHEN) && NextNot(input, p, AROBASE)
    && NextNot(input, p, PERCENT) && NextNot(input, p, GREATER)
    && input[p] != LF && input[p] != SHARP
  }

  /** A character, moved into the alphabet of a condition space, with the condition's value. */
  function Widened(c: Char, space: nat, holds: bool): int {
    (if space == 0 then 128 else 640) + (c as int + 128) + (if holds then 256 else 0)
  }

  /** The widened character that state `cs` reads at `p`. */
  function Widen(t: Tables, cs: nat, input: seq<Char>, p: nat): int
    requires p < |input|
  {
    var c := input[p];
    if !HasSlices(t, cs) then c as int
    else
      var i := FirstRange(CondRanges(t, cs), c as int);
      if i == t.condLengths[cs] then c as int
      else
        match t.condSpaces[t.condOffsets[cs] + i]
        case 0 => Widened(c, 0, NextNotReserved(input, p))
        case 1 => Widened(c, 1, c != LF)
        case _ => c as int
  }

  /** The three alphabets (plain, space 0, space 1) do not overlap, no two characters or condition
      values are confused inside one, and every widened character fits a 16-bit `short`. */
  lemma WideningIsInjective(c: Char, d: Char, space: nat, space': nat, holds: bool, holds': bool)
    requires space < 2 && space' < 2
    ensures Widened(c, space, holds) == Widened(d, space', holds') <==> c == d && space == space' && holds == holds'
    ensures Widened(c, space, holds) != d as int
    ensures 128 <= Widened(c, space, holds) < 0x8000
  {
  }

  /** In sorted tables at most one single key and at most one range match, so the order in which a
      search visits them does not matter. */
  lemma MatchingKeyIsUnique(keys: seq<int>, w: int, i: nat)
    requires Increasing(keys) && i < |keys| && keys[i] == w
    ensures FirstEqual(keys, w) == i
  {
  }

  lemma MatchingRangeIsUnique(pairs: seq<int>, w: int, r: nat)
    requires SortedRanges(pairs) && r < |pairs| / 2 && Holds(pairs, r, w)
    ensures FirstRange(pairs, w) == r
  {
  }

  // ---------- laws, in terms of the arrays and the text ----------

  /** The text at `p` begins with a doubled hyphen, at sign, percent or greater-than sign. */
  ghost predicate MarkAhead(input: seq<Char>, p: nat)
    requires p < |input|
  {
    [45, 45] <= input[p..] || [64, 64] <= input[p..] || [37, 37] <= input[p..] || [62, 62] <= input[p..]
  }

  lemma Doubled(input: seq<Char>, p: nat, c: Char)
    requires p < |input|
    ensures [c, c] <= input[p..] <==> p + 1 < |input| && input[p] == c && input[p + 1] == c
  {
    var rest := input[p..];
    assert rest[0] == input[p] && (|rest| > 1 ==> rest[1] == input[p + 1]);
    if p + 1 < |input| && input[p] == c && input[p + 1] == c {
      assert rest == [c, c] + rest[2..];
    }
  }

  /** Which alphabet a character is moved to, by the condition range that holds it. In space 0 the
      condition is that neither a newline, a `#` nor a doubled mark begins here, in space 1 that no
      newline does. */
  lemma WideningReadsText(t: Tables, cs: nat, input: seq<Char>, p: nat, r: nat)
    requires Shape(t) && IsState(t, cs) && StateFits(t, cs) && p < |input| && r < t.condLengths[cs]
    requires (var at := t.condOffsets[cs] + r;
              t.condKeys[2 * at] <= input[p] as int <= t.condKeys[2 * at + 1])
    ensures (var c, space := input[p] as int, t.condSpaces[t.condOffsets[cs] + r];
             Widen(t, cs, input, p)
             == if space == 0 then
                  c + (if c == 10 || c == 35 || MarkAhead(input, p) then 256 else 512)
                else if space == 1 then
                  c + (if c == 10 then 768 else 1024)
                else c)
  {
    var pairs := CondRanges(t, cs);
    assert pairs[2 * r] == t.condKeys[2 * (t.condOffsets[cs] + r)];
    assert pairs[2 * r + 1] == t.condKeys[2 * (t.condOffsets[cs] + r) + 1];
    MatchingRangeIsUnique(pairs, input[p] as int, r);
    Doubled(input, p, 45);
    Doubled(input, p, 64);
    Doubled(input, p, 37);
    Doubled(input, p, 62);
    hide StateFits, Shape, SortedRanges, CondRanges, FirstRange, Increasing;
  }

  /** No range holds `w`. */
  predicate Outside(pairs: seq<int>, w: int) {
    forall j :: 0 <= j < |pairs| / 2 ==> !Holds(pairs, j, w)
  }

  /** A character that no condition range holds is read as it is. */
  lemma UnconditionalIsPlain(t: Tables, cs: nat, input: seq<Char>, p: nat)
    requires Shape(t) && IsState(t, cs) && StateFits(t, cs) && p < |input|
    requires Outside(t.condKeys[2 * t.condOffsets[cs]..2 * t.condOffsets[cs] + 2 * t.condLengths[cs]], input[p] as int)
    ensures Widen(t, cs, input, p) == input[p] as int
  {
  }

  /** A single key takes its own entry, whatever the ranges say. */
  lemma SingleKeyTransition(t: Tables, cs: nat, w: int, k: nat)
    requires Shape(t) && IsState(t, cs) && StateFits(t, cs)
    requires k < t.singleLengths[cs] && t.transKeys[t.keyOffsets[cs] + k] == w
    ensures Transition(t, cs, w) == t.indicies[t.indexOffsets[cs] + k]
  {
    MatchingKeyIsUnique(Singles(t, cs), w, k);
  }

  /** Without one, the range that holds the character takes the entry behind the single keys'. */
  lemma RangeTransition(t: Tables, cs: nat, w: int, r: nat)
    requires Shape(t) && IsState(t, cs) && StateFits(t, cs) && r < t.rangeLengths[cs]
    requires w !in t.transKeys[t.keyOffsets[cs]..t.keyOffsets[cs] + t.singleLengths[cs]]
    requires (var from := t.keyOffsets[cs] + t.singleLengths[cs] + 2 * r;
              t.transKeys[from] <= w <= t.transKeys[from + 1])
    ensures Transition(t, cs, w) == t.indicies[t.indexOffsets[cs] + t.singleLengths[cs] + r]
  {
    var pairs := Ranges(t, cs);
    assert pairs[2 * r] == t.transKeys[t.keyOffsets[cs] + t.singleLengths[cs] + 2 * r];
    assert pairs[2 * r + 1] == t.transKeys[t.keyOffsets[cs] + t.singleLengths[cs] + 2 * r + 1];
    MatchingRangeIsUnique(pairs, w, r);
    NoSingleKey(t, cs, w);
  }

  lemma NoSingleKey(t: Tables, cs: nat, w: int)
    requires HasSlices(t, cs)
    requires w !in t.transKeys[t.keyOffsets[cs]..t.keyOffsets[cs] + t.singleLengths[cs]]
    ensures FirstEqual(Singles(t, cs), w) == t.singleLengths[cs]
  {
    assert Singles(t, cs) == t.transKeys[t.keyOffsets[cs]..t.keyOffsets[cs] + t.singleLengths[cs]];
  }

  /** And without either, the last entry of the state. */
  lemma DefaultTransition(t: Tables, cs: nat, w: int)
    requires Shape(t) && IsState(t, cs) && StateFits(t, cs)
    requires w !in t.transKeys[t.keyOffsets[cs]..t.keyOffsets[cs] + t.singleLengths[cs]]
    requires (var from := t.keyOffsets[cs] + t.singleLengths[cs];
              Outside(t.transKeys[from..from + 2 * t.rangeLengths[cs]], w))
    ensures Transition(t, cs, w) == t.indicies[t.indexOffsets[cs] + t.singleLengths[cs] + t.rangeLengths[cs]]
  {
    NoSingleKey(t, cs, w);
  }

  // ---------- the binary searches ----------

  /** Binary search among `klen` single keys from `keys` on; -1 when none equals `w`. */
  method SearchSingles(table: seq<int>, keys: nat, klen: nat, w: int) returns (found: int)
    requires keys + klen <= |table| && Increasing(table[keys..keys + klen])
    ensures var i := FirstEqual(table[keys..keys + klen], w); found == if i < klen then keys + i else -1
  {
    ghost var slice := table[keys..keys + klen];
    var lower, upper: int := keys, keys + klen - 1;
    while lower <= upper
      invariant keys <= lower <= upper + 1 <= keys + klen
      invariant forall i :: 0 <= i < lower - keys ==> slice[i] < w
      invariant forall i :: upper - keys < i < klen ==> slice[i] > w
    {
      var mid := lower + (upper - lower) / 2;
      assert table[mid] == slice[mid - keys];
      if w < table[mid] {
        upper := mid - 1;
      } else if w > table[mid] {
        lower := mid + 1;
      } else {
        MatchingKeyIsUnique(slice, w, mid - keys);
        return mid;
      }
    }
    return -1;
  }

  /** Binary search among `klen` ranges stored as pairs from `keys` on; the index of the pair's
      first bound, or -1 when no range holds `w`. Halving the distance and clearing its low bit
      keeps `mid` on the first bound of a pair. */
  method SearchRanges(table: seq<int>, keys: nat, klen: nat, w: int) returns (found: int)
    requires keys + 2 * klen <= |table| && SortedRanges(table[keys..keys + 2 * klen])
    ensures var i := FirstRange(table[keys..keys + 2 * klen], w); found == if i < klen then keys + 2 * i else -1
  {
    ghost var slice := table[keys..keys + 2 * klen];
    ghost var low, high: int := 0, klen - 1;
    var lower, upper: int := keys, keys + 2 * klen - 2;
    while lower <= upper
      invariant 0 <= low <= high + 1 <= klen
      invariant lower == keys + 2 * low && upper == keys + 2 * high
      invariant forall i :: 0 <= i < low ==> Hi(slice, i) < w
      invariant forall i :: high < i < klen ==> Lo(slice, i) > w
    {
      var half := (upper - lower) / 2;
      var mid := lower + (half - half % 2);
      ghost var r := low + (high - low) / 2;
      assert mid == keys + 2 * r;
      assert table[mid] == Lo(slice, r) && table[mid + 1] == Hi(slice, r);
      if w < table[mid] {
        upper, high := mid - 2, r - 1;
      } else if w > table[mid + 1] {
        lower, low := mid + 2, r + 1;
      } else {
        MatchingRangeIsUnique(slice, w, r);
        return mid;
      }
    }
    assert forall i :: 0 <= i < klen ==> !Holds(slice, i, w);
    return -1;
  }

  /** The condition lookup and widening at the top of the scanner loop. */
  method WidenAt(t: Tables, cs: nat, input: seq<Char>, p: nat) returns (widec: int)
    requires Shape(t) && IsState(t, cs) && StateFits(t, cs) && p < |input|
    ensures widec == Widen(t, cs, input, p)
  {
    widec := input[p] as int;
    var klen, keys := t.condLengths[cs], 2 * t.condOffsets[cs];
    if klen > 0 {
      var mid := SearchRanges(t.condKeys, keys, klen, widec);
      if mid != -1 {
        match t.condSpaces[t.condOffsets[cs] + (mid - keys) / 2] {
          case 0 =>
            widec := 128 + (input[p] as int + 128);
            if NextNotReserved(input, p) { widec := widec + 256; }
          case 1 =>
            widec := 640 + (input[p] as int + 128);
            if input[p] != LF { widec := widec + 256; }
          case _ =>
        }
      }
    }
  }

  /** The two searches of the scanner loop, singles before ranges, default last. */
  method FindSlot(t: Tables, cs: nat, widec: int) returns (trans: nat)
    requires Shape(t) && IsState(t, cs) && StateFits(t, cs)
    ensures trans == t.indexOffsets[cs] + Slot(t, cs, widec)
  {
    var keys := t.keyOffsets[cs];
    trans := t.indexOffsets[cs];
    var klen := t.singleLengths[cs];
    if klen > 0 {
      var mid := SearchSingles(t.transKeys, keys, klen, widec);
      if mid != -1 {
        trans := trans + (mid - keys);
        return;
      }
      keys := keys + klen;
      trans := trans + klen;
    }
    klen := t.rangeLengths[cs];
    if klen > 0 {
      var mid := SearchRanges(t.transKeys, keys, klen, widec);
      if mid != -1 {
        trans := trans + (mid - keys) / 2;
        return;
      }
      trans := trans + klen;
    }
  }
}
