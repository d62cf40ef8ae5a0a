/** Reading `/proc/cpuinfo`: the field search, the item search, and the ARM feature word made from
    them. */
module CpuInfo {
  import opened Wrappers
  import opened Text

  // ---------- the field search ----------

  predicate LineStart(buffer: string, i: nat) {
    i == 0 || (i <= |buffer| && buffer[i - 1] == '\n')
  }

  predicate FieldAt(buffer: string, field: string, i: nat) {
    OccursAt(buffer, field, i) && LineStart(buffer, i)
  }

  /** Where the search that starts at `from` ends: an occurrence in the middle of a line is skipped
      over its whole length. */
  function Anchor(buffer: string, field: string, from: nat): (r: Option<nat>)
    requires from <= |buffer| && (field == "" ==> from == 0)
    ensures r.Some? ==> from <= r.value && FieldAt(buffer, field, r.value)
    decreases |buffer| - from
  {
    match FindFrom(buffer, field, from)
    case None => None
    case Some(p) =>
      if LineStart(buffer, p) then Some(p) else Anchor(buffer, field, p + |field|)
  }

  /** What the search is for: the first line that begins with the field. */
  ghost predicate IsFirstField(buffer: string, field: string, r: Option<nat>) {
    match r
    case None => forall i: nat :: !FieldAt(buffer, field, i)
    case Some(p) => FieldAt(buffer, field, p) && forall i: nat :: i < p ==> !FieldAt(buffer, field, i)
  }

  /** The field does not overlap itself just after one of its newlines. */
  predicate SkipsSafely(field: string) {
    forall d | 1 <= d < |field| && field[d - 1] == '\n' :: !(field[d..] <= field)
  }

  /** A line that begins with the field and starts inside another occurrence. */
  lemma FieldsOverlap(buffer: string, field: string, p: nat, i: nat)
    requires OccursAt(buffer, field, p) && p < i < p + |field| && FieldAt(buffer, field, i)
    ensures !SkipsSafely(field)
  {
    var d := i - p;
    assert field[d - 1] == buffer[p..p + |field|][d - 1] == '\n';
    assert field[d..] == buffer[p..p + |field|][d..] == buffer[i..i + |field|][..|field| - d] == field[..|field| - d];
  }

  lemma NoFieldUpTo(buffer: string, field: string, from: nat, p: nat)
    requires SkipsSafely(field) && from <= |buffer| && FindFrom(buffer, field, from) == Some(p)
    requires !LineStart(buffer, p)
    requires forall i: nat :: i < from ==> !FieldAt(buffer, field, i)
    ensures forall i: nat :: i < p + |field| ==> !FieldAt(buffer, field, i)
  {
    forall i: nat | i < p + |field|
      ensures !FieldAt(buffer, field, i)
    {
      if p < i && FieldAt(buffer, field, i) {
        FieldsOverlap(buffer, field, p, i);
      }
    }
  }

  lemma {:induction false} AnchorIsFirst(buffer: string, field: string, from: nat)
    requires SkipsSafely(field) && from <= |buffer| && (field == "" ==> from == 0)
    requires forall i: nat :: i < from ==> !FieldAt(buffer, field, i)
    ensures IsFirstField(buffer, field, Anchor(buffer, field, from))
    decreases |buffer| - from
  {
    hide FindFrom, OccursAt, FieldAt, Anchor, IsFirstField, SkipsSafely;
    var found := FindFrom(buffer, field, from);
    if found.None? || LineStart(buffer, found.value) {
      AnchorStops(buffer, field, from);
    } else {
      NoFieldUpTo(buffer, field, from, found.value);
      AnchorIsFirst(buffer, field, found.value + |field|);
      AnchorMoves(buffer, field, from);
    }
  }

  lemma AnchorStops(buffer: string, field: string, from: nat)
    requires from <= |buffer| && (field == "" ==> from == 0)
    requires forall i: nat :: i < from ==> !FieldAt(buffer, field, i)
    requires FindFrom(buffer, field, from).None? || LineStart(buffer, FindFrom(buffer, field, from).value)
    ensures IsFirstField(buffer, field, Anchor(buffer, field, from))
  {
  }

  lemma AnchorMoves(buffer: string, field: string, from: nat)
    requires from <= |buffer| && (field == "" ==> from == 0)
    requires FindFrom(buffer, field, from).Some? && !LineStart(buffer, FindFrom(buffer, field, from).value)
    ensures Anchor(buffer, field, from) == Anchor(buffer, field, FindFrom(buffer, field, from).value + |field|)
  {
  }

  /** A text in which the skipping misses a line that begins with the field. */
  lemma SkippingMisses(field: string) returns (buffer: string)
    requires !SkipsSafely(field)
    ensures !IsFirstField(buffer, field, Anchor(buffer, field, 0))
  {
    var d :| 1 <= d < |field| && field[d - 1] == '\n' && field[d..] <= field;
    buffer := [if field[0] == 'x' then 'y' else 'x'] + (field[..d] + field);
    Overlapping(buffer, field, d);
    var n := |field|;
    assert FindFrom(buffer, field, 0) == Some(1);
    hide FindFrom, FieldAt, OccursAt;
    assert Anchor(buffer, field, 0) == Anchor(buffer, field, 1 + n);
  }

  lemma Overlapping(buffer: string, field: string, d: nat)
    requires 1 <= d < |field| && field[d - 1] == '\n' && field[d..] <= field
    requires buffer == [if field[0] == 'x' then 'y' else 'x'] + (field[..d] + field)
    ensures FieldAt(buffer, field, 1 + d) && |buffer| == 1 + d + |field|
    ensures OccursAt(buffer, field, 1) && !LineStart(buffer, 1) && !OccursAt(buffer, field, 0)
  {
    OverlapsItself(field, d);
    ThreeParts(buffer[0], field[..d], field);
    assert buffer[0..|field|][0] == buffer[0] != field[0];
    assert buffer[d] == field[..d][d - 1];
  }

  lemma OverlapsItself(field: string, d: nat)
    requires d < |field| && field[d..] <= field
    ensures (field[..d] + field)[..|field|] == field
  {
    var n := |field|;
    assert field == field[..d] + field[d..] && field[d..] == field[..n - d];
    assert (field[..d] + field)[..n] == field[..d] + field[..n - d];
  }

  lemma ThreeParts(c: char, a: string, b: string)
    ensures (var t := [c] + (a + b); var n := |b|;
             t[1..1 + n] == (a + b)[..n] && t[1 + |a|..1 + |a| + n] == b)
  {
  }

  /** The search finds the first line that begins with the field, in every text, exactly when the
      field does not overlap itself after a newline. */
  lemma SearchIsRightExactly(field: string)
    ensures SkipsSafely(field) <==> forall buffer :: IsFirstField(buffer, field, Anchor(buffer, field, 0))
  {
    if SkipsSafely(field) {
      forall buffer
        ensures IsFirstField(buffer, field, Anchor(buffer, field, 0))
      {
        AnchorIsFirst(buffer, field, 0);
      }
    } else {
      var buffer := SkippingMisses(field);
    }
  }

  // ---------- the value ----------

  /** The value on a line, read from just after the field name. The first colon must have a blank
      after it; it need not be on the same line. */
  function ValueAfter(rest: string): Option<string> {
    var c := Find(rest, ':');
    if c + 1 >= |rest| || rest[c + 1] != ' ' then None
    else
      var v := rest[c + 2..];
      Some(v[..Find(v, '\n')])
  }

  function Field(buffer: string, field: string): Option<string> {
    match Anchor(buffer, field, 0)
    case None => None
    case Some(p) => ValueAfter(buffer[p + |field|..])
  }

  method FindField(buffer: string, field: string) returns (r: Option<nat>)
    ensures r == Anchor(buffer, field, 0)
  {
    hide FindFrom, OccursAt, FieldAt;
    var p: nat := 0;
    while true
      invariant p <= |buffer| && (field == "" ==> p == 0)
      invariant Anchor(buffer, field, p) == Anchor(buffer, field, 0)
      decreases |buffer| - p
    {
      var found := FindFrom(buffer, field, p);
      if found.None? || LineStart(buffer, found.value) {
        return found;
      }
      p := found.value + |field|;
    }
  }

  method ExtractField(buffer: string, field: string) returns (result: Option<string>)
    ensures result == Field(buffer, field)
  {
    var p := FindField(buffer, field);
    hide ValueAfter, Anchor;
    if p.None? {
      return None;
    }
    result := ReadValue(buffer, p.value + |field|);
  }

  method ReadValue(buffer: string, from: nat) returns (result: Option<string>)
    requires from <= |buffer|
    ensures result == ValueAfter(buffer[from..])
  {
    var colon := from + Find(buffer[from..], ':');
    if colon + 1 >= |buffer| || buffer[colon + 1] != ' ' {
      return None;
    }
    var p := colon + 2;
    var q := p + Find(buffer[p..], '\n');
    assert buffer[from..][colon - from + 2..] == buffer[p..];
    assert buffer[p..][..q - p] == buffer[p..q];
    result := Some(buffer[p..q]);
  }

  // ---------- where the value really comes from ----------

  function ValueAtMark(rest: string, mark: Option<nat>): Option<string>
    requires mark.Some? ==> mark.value + 2 <= |rest|
  {
    match mark
    case None => None
    case Some(c) =>
      var v := rest[c + 2..];
      Some(v[..Find(v, '\n')])
  }

  /** What the comment in the source describes: the value after the first colon that has a blank
      after it. */
  function ValueAfterColonBlank(rest: string): Option<string> {
    ValueAtMark(rest, FindFrom(rest, ": ", 0))
  }

  predicate ColonHasBlank(rest: string) {
    var c := Find(rest, ':');
    c + 1 < |rest| && rest[c + 1] == ' '
  }

  /** The code reads what its comment says exactly when the first colon has a blank after it, or no
      colon has. */
  lemma CommentIsRightExactly(rest: string)
    ensures ValueAfter(rest) == ValueAfterColonBlank(rest) <==> ColonHasBlank(rest) || FindFrom(rest, ": ", 0) == None
  {
    var c, mark := Find(rest, ':'), FindFrom(rest, ": ", 0);
    MarkIsColonAndBlank(rest, c);
    NoMarkBefore(rest, c);
    hide Find, FindFrom, OccursAt;
    if ColonHasBlank(rest) {
      assert mark == Some(c);
    }
  }

  lemma MarkIsColonAndBlank(rest: string, c: nat)
    requires c == Find(rest, ':')
    ensures OccursAt(rest, ": ", c) <==> ColonHasBlank(rest)
  {
    if c + 2 <= |rest| {
      assert rest[c..c + 2] == [rest[c], rest[c + 1]];
      assert ": " == [':', ' '];
    }
  }

  lemma NoMarkBefore(rest: string, c: nat)
    requires c <= Find(rest, ':')
    ensures forall j :: 0 <= j < c ==> !OccursAt(rest, ": ", j)
  {
    forall j | 0 <= j < c
      ensures !OccursAt(rest, ": ", j)
    {
      assert j + 2 <= |rest| ==> rest[j..j + 2][0] == rest[j];
    }
  }

  /** A colon without a blank hides a later one that has it. */
  lemma EarlierColonHidesValue()
    ensures ValueAfter("\t:x: y") == None && ValueAfterColonBlank("\t:x: y") == Some("y")
  {
    var rest := "\t:x: y";
    FindAfter("\t", ":x: y", ':');
    assert rest == "\t" + ":x: y";
    assert rest[0..2][0] == '\t' && rest[1..3][1] == 'x' && rest[2..4][0] == 'x' && rest[3..5] == ": ";
    assert FindFrom(rest, ": ", 0) == Some(3);
    hide FindFrom, OccursAt;
    assert rest[5..] == "y" && Find("y", '\n') == 1 && "y"[..1] == "y";
  }

  function FirstLineOf(rest: string): string {
    rest[..Find(rest, '\n')]
  }

  /** The value on the line that begins with the field, and nowhere else. */
  function FieldOnItsLine(buffer: string, field: string): Option<string> {
    match Anchor(buffer, field, 0)
    case None => None
    case Some(p) => ValueAfter(FirstLineOf(buffer[p + |field|..]))
  }

  /** A value is read from the first line exactly when the first colon comes before the first
      newline. */
  lemma ValueIsOnLineExactly(rest: string)
    ensures ValueAfter(rest) == ValueAfter(FirstLineOf(rest))
       <==> Find(rest, ':') < Find(rest, '\n') || !ColonHasBlank(rest)
  {
    hide *;
    if Find(rest, ':') < Find(rest, '\n') {
      LineWithColon(rest);
    } else {
      LineWithoutColon(rest);
    }
  }

  lemma LineWithColon(rest: string)
    requires Find(rest, ':') < Find(rest, '\n')
    ensures ValueAfter(rest) == ValueAfter(FirstLineOf(rest))
  {
    SameColon(rest);
    if ColonHasBlank(rest) {
      ValueEndsLine(rest, Find(rest, ':'));
      BothValues(rest);
    } else {
      NeitherValue(rest);
    }
  }

  lemma SameColon(rest: string)
    requires Find(rest, ':') < Find(rest, '\n')
    ensures Find(FirstLineOf(rest), ':') == Find(rest, ':') < |FirstLineOf(rest)|
    ensures ColonHasBlank(rest) ==> Find(rest, ':') + 2 <= Find(rest, '\n')
  {
    var n := Find(rest, '\n');
    FindOver(FirstLineOf(rest), rest[n..], ':');
    assert rest == FirstLineOf(rest) + rest[n..];
  }

  lemma NeitherValue(rest: string)
    requires Find(FirstLineOf(rest), ':') == Find(rest, ':') && !ColonHasBlank(rest)
    ensures ValueAfter(rest) == None && ValueAfter(FirstLineOf(rest)) == None
  {
    hide Find;
  }

  lemma BothValues(rest: string)
    requires ColonHasBlank(rest) && Find(rest, ':') + 2 <= Find(rest, '\n')
    requires Find(FirstLineOf(rest), ':') == Find(rest, ':')
    requires (var c := Find(rest, ':'); var line := FirstLineOf(rest);
              && rest[c + 2..][..Find(rest[c + 2..], '\n')] == line[c + 2..]
              && Find(line[c + 2..], '\n') == |line| - (c + 2))
    ensures ValueAfter(rest) == ValueAfter(FirstLineOf(rest))
  {
    var c, line := Find(rest, ':'), FirstLineOf(rest);
    assert line[c + 1] == rest[c + 1];
    hide Find, FirstLineOf;
    assert line[c + 2..][..|line| - (c + 2)] == line[c + 2..];
  }

  lemma LineWithoutColon(rest: string)
    requires Find(rest, '\n') <= Find(rest, ':')
    ensures ValueAfter(FirstLineOf(rest)) == None
    ensures ValueAfter(rest).Some? <==> ColonHasBlank(rest)
  {
    assert ':' !in FirstLineOf(rest);
  }

  lemma ValueEndsLine(rest: string, c: nat)
    requires c + 2 <= Find(rest, '\n')
    ensures rest[c + 2..][..Find(rest[c + 2..], '\n')] == FirstLineOf(rest)[c + 2..]
    ensures '\n' !in FirstLineOf(rest)[c + 2..]
    ensures Find(FirstLineOf(rest)[c + 2..], '\n') == |FirstLineOf(rest)| - (c + 2)
  {
    var n := Find(rest, '\n');
    assert rest == rest[..c + 2] + rest[c + 2..];
    FindAfter(rest[..c + 2], rest[c + 2..], '\n');
    assert FirstLineOf(rest)[c + 2..] == rest[c + 2..n];
  }

  /** So the search gives the value of the first line that begins with the field, and of no other
      line, exactly when that line has a colon or the next colon has no blank after it. */
  lemma FieldIsOnItsLineExactly(buffer: string, field: string)
    ensures Field(buffer, field) == FieldOnItsLine(buffer, field)
       <==> (match Anchor(buffer, field, 0)
             case None => true
             case Some(p) =>
               var rest := buffer[p + |field|..];
               Find(rest, ':') < Find(rest, '\n') || !ColonHasBlank(rest))
  {
    FieldByAnchor(buffer, field);
    OnItsLineByAnchor(buffer, field);
    hide Anchor, Field, FieldOnItsLine, ValueAfter, FirstLineOf, ColonHasBlank, Find, LineStart;
    var p := Anchor(buffer, field, 0);
    if p.Some? {
      ValueIsOnLineExactly(buffer[p.value + |field|..]);
    }
  }

  lemma FieldByAnchor(buffer: string, field: string)
    ensures (var r := Anchor(buffer, field, 0);
             Field(buffer, field) == if r.None? then None else ValueAfter(buffer[r.value + |field|..]))
  {
  }

  lemma OnItsLineByAnchor(buffer: string, field: string)
    ensures (var r := Anchor(buffer, field, 0);
             FieldOnItsLine(buffer, field)
             == if r.None? then None else ValueAfter(FirstLineOf(buffer[r.value + |field|..])))
  {
  }

  /** A line without a colon takes the value of the next one. */
  lemma ValueOfNextLine()
    ensures Field("Features\nfoo: bar\n", "Features") == Some("bar")
    ensures FieldOnItsLine("Features\nfoo: bar\n", "Features") == None
  {
    var buffer, field, rest := "Features\nfoo: bar\n", "Features", "\nfoo: bar\n";
    assert buffer == field + rest;
    hide *;
    FieldByAnchor(buffer, field);
    OnItsLineByAnchor(buffer, field);
    AnchorAtStart(field, rest);
    ReadNextLine(rest);
  }

  lemma AnchorAtStart(field: string, rest: string)
    ensures Anchor(field + rest, field, 0) == Some(0) && (field + rest)[|field|..] == rest
  {
    assert OccursAt(field + rest, field, 0);
  }

  lemma ReadNextLine(rest: string)
    requires rest == "\nfoo: bar\n"
    ensures ValueAfter(rest) == Some("bar") && ValueAfter(FirstLineOf(rest)) == None
  {
    assert rest == "\nfoo" + ": bar\n";
    FindAfter("\nfoo", ": bar\n", ':');
    assert rest[6..] == "bar" + "\n";
    FindAfter("bar", "\n", '\n');
  }

  // ---------- printed lines ----------

  /** One line, `name: value`. The name may end in blanks or tabs. */
  datatype Entry = Entry(name: string, value: string)

  predicate Printable(e: Entry) {
    ':' !in e.name && '\n' !in e.name && '\n' !in e.value
  }

  function Line(e: Entry): string {
    e.name + ": " + e.value + "\n"
  }

  function Printed(entries: seq<Entry>): string {
    if entries == [] then "" else Line(entries[0]) + Printed(entries[1..])
  }

  /** The value of the first entry whose name begins with `key`. */
  function ValueOf(entries: seq<Entry>, key: string): Option<string> {
    if entries == [] then None
    else if key <= entries[0].name then Some(entries[0].value)
    else ValueOf(entries[1..], key)
  }

  lemma ValueOnLine(padding: string, value: string, tail: string)
    requires ':' !in padding && '\n' !in value
    ensures ValueAfter(padding + (": " + value + "\n" + tail)) == Some(value)
  {
    var rest := ": " + value + "\n" + tail;
    FindAfter(padding, rest, ':');
    FindAfter(value, "\n" + tail, '\n');
    Concatenated(padding, value, tail);
    hide Find;
  }

  lemma Concatenated(padding: string, value: string, tail: string)
    ensures (var rest := ": " + value + "\n" + tail;
             && rest[0] == ':' && (padding + rest)[|padding| + 1] == ' '
             && (padding + rest)[|padding| + 2..] == value + ("\n" + tail))
    ensures (value + ("\n" + tail))[..|value|] == value
  {
  }

  lemma LineHasOtherName(e: Entry, tail: string, key: string)
    requires ':' !in key && !(key <= e.name)
    ensures !OccursAt(Line(e) + tail, key, 0)
  {
    var text := Line(e) + tail;
    if |key| <= |e.name| {
      assert text[..|key|] == e.name[..|key|];
    } else if |key| <= |text| {
      assert text[..|key|][|e.name|] == ':';
    }
  }

  /** Lines that begin with the key, in a text with one more line in front. */
  lemma FieldsAfterLine(e: Entry, tail: string, key: string, i: nat)
    requires Printable(e) && ':' !in key && '\n' !in key && !(key <= e.name)
    ensures i < |Line(e)| ==> !FieldAt(Line(e) + tail, key, i)
    ensures FieldAt(Line(e) + tail, key, |Line(e)| + i) <==> FieldAt(tail, key, i)
  {
    var text, n := Line(e) + tail, |Line(e)|;
    LineHasOtherName(e, tail, key);
    assert i + |key| <= |tail| ==> text[n + i..n + i + |key|] == tail[i..i + |key|];
  }

  lemma FirstFieldIsUnique(buffer: string, field: string, a: Option<nat>, b: Option<nat>)
    requires IsFirstField(buffer, field, a) && IsFirstField(buffer, field, b)
    ensures a == b
  {
    hide FieldAt;
  }

  lemma {:induction false} FirstFieldOfPrinted(entries: seq<Entry>, key: string) returns (r: Option<nat>)
    requires forall i :: 0 <= i < |entries| ==> Printable(entries[i])
    requires ':' !in key && '\n' !in key
    ensures IsFirstField(Printed(entries), key, r)
    ensures ValueOf(entries, key) == if r.None? then None else ValueAfter(Printed(entries)[r.value + |key|..])
  {
    hide FieldAt, ValueAfter, ValueOf, Line;
    if entries == [] {
      r := NoFieldInNothing(key);
      return;
    }
    var e, tail := entries[0], Printed(entries[1..]);
    FirstOfEntries(entries, key);
    hide *;
    if key <= e.name {
      r := Some(0);
      FirstLineHasField(e, tail, key);
    } else {
      r := FirstFieldOfPrinted(entries[1..], key);
      r := FirstFieldMoved(e, tail, key, r);
    }
  }

  lemma NoFieldInNothing(key: string) returns (r: Option<nat>)
    ensures IsFirstField("", key, r) && (r.Some? ==> r == Some(0) && key == "" && ValueAfter("") == None)
    ensures Printed([]) == "" && ValueOf([], key) == None
  {
    r := if key == "" then Some(0) else None;
  }

  lemma FirstOfEntries(entries: seq<Entry>, key: string)
    requires entries != []
    ensures Printed(entries) == Line(entries[0]) + Printed(entries[1..])
    ensures ValueOf(entries, key)
         == if key <= entries[0].name then Some(entries[0].value) else ValueOf(entries[1..], key)
  {
  }

  lemma FirstLineHasField(e: Entry, tail: string, key: string)
    requires Printable(e) && key <= e.name
    ensures IsFirstField(Line(e) + tail, key, Some(0))
    ensures ValueAfter((Line(e) + tail)[|key|..]) == Some(e.value)
  {
    var padding := e.name[|key|..];
    KeyAtStart(e, tail, key);
    ValueOnLine(padding, e.value, tail);
    hide *;
    FieldAtStart(Line(e) + tail, key);
  }

  lemma KeyAtStart(e: Entry, tail: string, key: string)
    requires key <= e.name
    ensures key <= Line(e) + tail
    ensures (Line(e) + tail)[|key|..] == e.name[|key|..] + (": " + e.value + "\n" + tail)
  {
  }

  lemma FieldAtStart(buffer: string, field: string)
    requires field <= buffer
    ensures IsFirstField(buffer, field, Some(0))
  {
  }

  lemma FirstFieldMoved(e: Entry, tail: string, key: string, r: Option<nat>) returns (r': Option<nat>)
    requires Printable(e) && ':' !in key && '\n' !in key && !(key <= e.name)
    requires IsFirstField(tail, key, r)
    ensures IsFirstField(Line(e) + tail, key, r')
    ensures r'.Some? <==> r.Some?
    ensures r.Some? ==> (Line(e) + tail)[r'.value + |key|..] == tail[r.value + |key|..]
  {
    var n := |Line(e)|;
    r' := if r.None? then None else Some(n + r.value);
    if r.Some? {
      FieldsAfterLine(e, tail, key, r.value);
      TailMoved(Line(e), tail, r.value + |key|);
    }
    hide Line, FieldAt;
    forall i: nat | FieldAt(Line(e) + tail, key, i)
      ensures i >= n && FieldAt(tail, key, i - n)
    {
      FieldInTail(e, tail, key, i);
    }
  }

  lemma FieldInTail(e: Entry, tail: string, key: string, i: nat)
    requires Printable(e) && ':' !in key && '\n' !in key && !(key <= e.name)
    requires FieldAt(Line(e) + tail, key, i)
    ensures i >= |Line(e)| && FieldAt(tail, key, i - |Line(e)|)
  {
    hide FieldAt, Line;
    FieldsAfterLine(e, tail, key, i);
    FieldsAfterLine(e, tail, key, if i >= |Line(e)| then i - |Line(e)| else 0);
  }

  lemma TailMoved(line: string, tail: string, i: nat)
    requires i <= |tail|
    ensures (line + tail)[|line| + i..] == tail[i..]
  {
  }

  /** Extracting a key from printed lines gives the value of the first entry whose name begins
      with it. */
  lemma ExtractFromPrinted(entries: seq<Entry>, key: string)
    requires forall i :: 0 <= i < |entries| ==> Printable(entries[i])
    requires ':' !in key && '\n' !in key
    ensures Field(Printed(entries), key) == ValueOf(entries, key)
  {
    var r := FirstFieldOfPrinted(entries, key);
    hide *;
    FieldFromFirst(Printed(entries), key, r);
  }

  lemma NewlineFreeSkipsSafely(field: string)
    requires '\n' !in field
    ensures SkipsSafely(field)
  {
  }

  lemma FieldFromFirst(buffer: string, field: string, r: Option<nat>)
    requires '\n' !in field && IsFirstField(buffer, field, r)
    ensures Field(buffer, field) == if r.None? then None else ValueAfter(buffer[r.value + |field|..])
  {
    NewlineFreeSkipsSafely(field);
    hide *;
    AnchorIsFirst(buffer, field, 0);
    FirstFieldIsUnique(buffer, field, r, Anchor(buffer, field, 0));
    FieldByAnchor(buffer, field);
  }

  // ---------- the item search ----------

  predicate IsBlank(c: char) {
    c == ' ' || c == '\t'
  }

  /** `item` stands at `i`, between blanks or the ends of the list. */
  predicate ItemAt(list: string, item: string, i: nat) {
    && OccursAt(list, item, i)
    && (forall k :: 0 <= k < |item| ==> !IsBlank(item[k]))
    && (i == 0 || IsBlank(list[i - 1]))
    && (i + |item| == |list| || IsBlank(list[i + |item|]))
  }

  /** Nobody asks for the empty item; it is found exactly in a list that ends with a blank. */
  ghost predicate Holds(list: string, item: string) {
    if item == "" then list != "" && IsBlank(list[|list| - 1])
    else exists i: nat :: ItemAt(list, item, i)
  }

  /** First position from `p` on that is a blank (`blank`) or is none. */
  method Skip(list: string, p: nat, blank: bool) returns (q: nat)
    requires p <= |list|
    ensures p <= q <= |list| && (q < |list| ==> IsBlank(list[q]) != blank)
    ensures forall i :: p <= i < q ==> IsBlank(list[i]) == blank
  {
    q := p;
    while q < |list| && IsBlank(list[q]) == blank
      invariant p <= q <= |list|
      invariant forall i :: p <= i < q ==> IsBlank(list[i]) == blank
    {
      q := q + 1;
    }
  }

  method HasListItem(list: string, item: string) returns (found: bool)
    ensures found <==> Holds(list, item)
  {
    var p: nat := 0;
    while p < |list|
      invariant p <= |list| && (p == 0 || p == |list| || IsBlank(list[p]))
      invariant item == "" && p == |list| > 0 ==> !IsBlank(list[|list| - 1])
      invariant item != "" ==> forall i: nat :: i < p ==> !ItemAt(list, item, i)
    {
      var first := Skip(list, p, true);
      var last := Skip(list, first, false);
      NoItemInside(list, item, p, first, last);
      hide ItemAt;
      if item == list[first..last] {
        return true;
      }
      p := last;
    }
    found := false;
  }

  /** The only place for an item between `p` and the end of the next run of non-blanks. */
  lemma NoItemInside(list: string, item: string, p: nat, first: nat, last: nat)
    requires p <= first <= last <= |list| && (p == 0 || p == |list| || IsBlank(list[p]))
    requires forall i :: p <= i < first ==> IsBlank(list[i])
    requires forall i :: first <= i < last ==> !IsBlank(list[i])
    requires (first < |list| ==> !IsBlank(list[first])) && (last < |list| ==> IsBlank(list[last]))
    ensures item != "" ==> forall i: nat :: p <= i < last && i != first ==> !ItemAt(list, item, i)
    ensures item != "" ==> (ItemAt(list, item, first) <==> item == list[first..last])
  {
    forall i: nat | p <= i < last && i != first && item != ""
      ensures !ItemAt(list, item, i)
    {
      assert i < first && i + |item| <= |list| ==> list[i..i + |item|][0] == list[i];
      assert i > first ==> !IsBlank(list[i - 1]);
    }
    if ItemAt(list, item, first) && item != "" {
      assert item == list[first..first + |item|];
      assert forall k | 0 <= k < |item| :: item[k] == list[first + k];
    }
  }

  /** The list split at every blank. */
  function Words(list: string): (words: seq<string>)
    ensures words != []
  {
    if list == "" then [""]
    else
      var words := Words(list[1..]);
      if IsBlank(list[0]) then [""] + words else [[list[0]] + words[0]] + words[1..]
  }

  predicate NoBlank(s: string) {
    forall k :: 0 <= k < |s| ==> !IsBlank(s[k])
  }

  /** `word` reaches from the start of the list to its first blank or its end. */
  predicate FirstWordIs(list: string, word: string) {
    word <= list && NoBlank(word) && (|word| == |list| || IsBlank(list[|word|]))
  }

  lemma {:induction false} FirstWord(list: string, word: string)
    ensures FirstWordIs(list, word) <==> word == Words(list)[0]
  {
    if list != "" && !IsBlank(list[0]) && word != "" {
      FirstWord(list[1..], word[1..]);
      assert word[0] == list[0] ==> word == [list[0]] + word[1..];
      assert FirstWordIs(list, word) <==> word[0] == list[0] && FirstWordIs(list[1..], word[1..]);
    }
  }

  ghost predicate HoldsLater(list: string, item: string) {
    exists i: nat :: i > 0 && ItemAt(list, item, i)
  }

  lemma ItemsOfTail(list: string, item: string, i: nat)
    requires list != "" && item != "" && NoBlank(item)
    ensures ItemAt(list, item, i + 1) <==> (if i == 0 then IsBlank(list[0]) && FirstWordIs(list[1..], item)
                                            else ItemAt(list[1..], item, i))
    ensures ItemAt(list, item, 0) <==> FirstWordIs(list, item)
  {
    assert i + 1 + |item| <= |list| ==> list[i + 1..i + 1 + |item|] == list[1..][i..i + |item|];
  }

  lemma {:induction false} LaterWords(list: string, item: string)
    requires item != "" && NoBlank(item)
    ensures HoldsLater(list, item) <==> item in Words(list)[1..]
  {
    if list != "" {
      LaterWords(list[1..], item);
      LaterOfTail(list, item);
      FirstWord(list[1..], item);
      hide HoldsLater, FirstWordIs;
      var words := Words(list[1..]);
      assert words == [words[0]] + words[1..];
      assert Words(list)[1..] == if IsBlank(list[0]) then words else words[1..];
    }
  }

  lemma LaterOfTail(list: string, item: string)
    requires list != "" && item != "" && NoBlank(item)
    ensures HoldsLater(list, item)
       <==> HoldsLater(list[1..], item) || (IsBlank(list[0]) && FirstWordIs(list[1..], item))
  {
    hide ItemAt, FirstWordIs;
    if i: nat :| i > 0 && ItemAt(list, item, i) {
      ItemsOfTail(list, item, i - 1);
    }
    if i: nat :| i > 0 && ItemAt(list[1..], item, i) {
      ItemsOfTail(list, item, i);
      assert ItemAt(list, item, i + 1);
    }
    if IsBlank(list[0]) && FirstWordIs(list[1..], item) {
      ItemsOfTail(list, item, 0);
      assert ItemAt(list, item, 1);
    }
  }

  /** An item is held by a list exactly when it is one of its words. */
  lemma HoldsIsWord(list: string, item: string)
    requires item != "" && NoBlank(item)
    ensures Holds(list, item) <==> item in Words(list)
  {
    var words := Words(list);
    assert words == [words[0]] + words[1..];
    FirstWord(list, item);
    LaterWords(list, item);
    assert ItemAt(list, item, 0) <==> FirstWordIs(list, item) by {
      if list != "" {
        ItemsOfTail(list, item, 0);
      }
    }
    hide ItemAt, FirstWordIs, Words;
  }

  lemma BlanksExactly(c: char)
    ensures IsBlank(c) <==> c as int in {9, 32}
  {
  }

  /** A word ends at the first blank or tab; the rest are the words of what follows it. */
  lemma {:induction false} WordsAt(word: string, blank: char, rest: string)
    requires NoBlank(word) && blank in {' ', '\t'}
    ensures Words(word + ([blank] + rest)) == [word] + Words(rest)
  {
    var list := word + ([blank] + rest);
    if word == "" {
      assert list == [blank] + rest && list[1..] == rest;
    } else {
      assert list[1..] == word[1..] + ([blank] + rest);
      WordsAt(word[1..], blank, rest);
      assert ([word[1..]] + Words(rest))[1..] == Words(rest);
      assert word == [word[0]] + word[1..];
    }
  }

  lemma {:induction false} OneWord(word: string)
    requires NoBlank(word)
    ensures Words(word) == [word]
  {
    if word != "" {
      OneWord(word[1..]);
      assert word == [word[0]] + word[1..];
    }
  }

  // ---------- the ARM feature word ----------

  datatype Feature = ARMv7 | VFPv3 | NEON | LdrexStrex

  const CPUINFO_BUFFER: nat := 4096

  /** `strtol` in base ten: blanks, a sign, digits; none when there is no digit. */
  function LeadingNumber(s: string): Option<int> {
    if s != "" && IsSpace(s[0]) then LeadingNumber(s[1..])
    else
      var signed := s != "" && s[0] in {'-', '+'};
      var digits := if signed then s[1..] else s;
      var n := DigitCount(digits);
      if n == 0 then None
      else Some(if signed && s[0] == '-' then -(Value(digits[..n]) as int) else Value(digits[..n]))
  }

  /** The architecture number is at least `n`; without a number it counts as zero. */
  predicate ArchitectureIs(info: string, n: nat) {
    match Field(info, "CPU architecture")
    case None => false
    case Some(value) => LeadingNumber(value).Some? && LeadingNumber(value).value >= n
  }

  /** Blanks, a sign, digits, anything else: the number is that of the digits; none without digits. */
  lemma {:induction false} LeadingNumberReads(blanks: string, sign: string, digits: string, rest: string)
    requires (forall i :: 0 <= i < |blanks| ==> IsSpace(blanks[i])) && Signed(sign, digits, rest)
    ensures LeadingNumber(blanks + (sign + (digits + rest)))
         == if digits == "" then None
            else Some(if sign == "-" then -(Value(digits) as int) else Value(digits))
  {
    var number := sign + (digits + rest);
    if blanks == "" {
      assert blanks + number == number;
      NumberReads(sign, digits, rest);
    } else {
      assert (blanks + number)[1..] == blanks[1..] + number;
      LeadingNumberReads(blanks[1..], sign, digits, rest);
    }
  }

  lemma NumberReads(sign: string, digits: string, rest: string)
    requires Signed(sign, digits, rest)
    ensures LeadingNumber(sign + (digits + rest))
         == if digits == "" then None
            else Some(if sign == "-" then -(Value(digits) as int) else Value(digits))
  {
    var tail := digits + rest;
    DigitsThenOther(digits, rest);
    if sign == "" {
      assert sign + tail == tail;
      assert digits != "" ==> IsDigit(tail[0]);
    } else {
      assert (sign + tail)[1..] == tail && (sign + tail)[0] == sign[0];
    }
    hide Value, DigitCount, AllDigits;
  }

  /** In printed lines the architecture is at least `n` exactly when the number that the value of the
      first `CPU architecture` line begins with is. */
  lemma ArchitectureOfPrinted(entries: seq<Entry>, digits: string, rest: string, n: nat)
    requires forall i :: 0 <= i < |entries| ==> Printable(entries[i])
    requires ValueOf(entries, "CPU architecture") == Some(digits + rest)
    requires digits != "" && AllDigits(digits) && (rest == "" || !IsDigit(rest[0]))
    ensures ArchitectureIs(Printed(entries), n) <==> Value(digits) >= n
  {
    ExtractFromPrinted(entries, "CPU architecture");
    LeadingNumberReads("", "", digits, rest);
    assert "" + ("" + (digits + rest)) == digits + rest;
    hide Field, LeadingNumber, Value, AllDigits, Printed, ValueOf;
  }

  /** And a field holds an item exactly when the item is a word of that line's value. */
  lemma FieldOfPrintedHolds(entries: seq<Entry>, key: string, item: string)
    requires forall i :: 0 <= i < |entries| ==> Printable(entries[i])
    requires ':' !in key && '\n' !in key && item != "" && NoBlank(item)
    ensures FieldHolds(Printed(entries), key, item) <==>
              (var value := ValueOf(entries, key); value.Some? && item in Words(value.value))
  {
    ExtractFromPrinted(entries, key);
    if ValueOf(entries, key).Some? {
      HoldsIsWord(ValueOf(entries, key).value, item);
    }
    hide Field, Holds, Words, Printed, ValueOf;
  }

  ghost predicate FieldHolds(info: string, field: string, item: string) {
    match Field(info, field)
    case None => false
    case Some(value) => Holds(value, item)
  }

  /** At most 4096 characters are read. */
  lemma FirstPage(cpuinfo: string)
    ensures Truncated(cpuinfo, CPUINFO_BUFFER) == if |cpuinfo| > 4096 then cpuinfo[..4096] else cpuinfo
  {
  }

  /** The feature word: what `android_cpuInit` derives from the text, nothing when it cannot be read. */
  method ArmFeatures(cpuinfo: Option<string>) returns (features: set<Feature>)
    ensures cpuinfo.None? ==> features == {}
    ensures cpuinfo.Some? ==> (
              var info := if |cpuinfo.value| > 4096 then cpuinfo.value[..4096] else cpuinfo.value;
              && (ARMv7 in features <==> ArchitectureIs(info, 7) && !FieldHolds(info, "Processor", "(v6l)"))
              && (LdrexStrex in features <==> ArchitectureIs(info, 6))
              && (NEON in features <==> FieldHolds(info, "Features", "neon"))
              && (VFPv3 in features <==> FieldHolds(info, "Features", "vfpv3") || FieldHolds(info, "Features", "vfpv3d16")
                                         || FieldHolds(info, "Features", "neon")))
    ensures NEON in features ==> VFPv3 in features
    ensures ARMv7 in features ==> LdrexStrex in features
  {
    hide *;
    features := {};
    if cpuinfo.Some? {
      var info := Truncated(cpuinfo.value, CPUINFO_BUFFER);
      FirstPage(cpuinfo.value);
      features := ArchitectureFeatures(info);
      var listed := FieldFeatures(info);
      features := features + listed;
    }
  }

  /** The flags of the `CPU architecture` field. Some ARMv6 processors report an architecture
      number of 7; the `Processor` field tells them apart. */
  method ArchitectureFeatures(info: string) returns (features: set<Feature>)
    ensures ARMv7 in features <==> ArchitectureIs(info, 7) && !FieldHolds(info, "Processor", "(v6l)")
    ensures LdrexStrex in features <==> ArchitectureIs(info, 6)
    ensures features <= {ARMv7, LdrexStrex}
    ensures ARMv7 in features ==> LdrexStrex in features
  {
    hide Field, LeadingNumber, FieldHolds;
    features := {};
    var architecture := ExtractField(info, "CPU architecture");
    if architecture.Some? {
      var number := LeadingNumber(architecture.value);
      var hasARMv7 := number.Some? && number.value >= 7;
      if hasARMv7 {
        var isARMv6 := FieldHasItem(info, "Processor", "(v6l)");
        hasARMv7 := !isARMv6;
      }
      if hasARMv7 {
        features := features + {ARMv7};
      }
      if (if number.Some? then number.value else 0) >= 6 {
        features := features + {LdrexStrex};
      }
    }
  }

  method FieldHasItem(info: string, field: string, item: string) returns (has: bool)
    ensures has <==> FieldHolds(info, field, item)
  {
    hide Field, Holds;
    has := false;
    var value := ExtractField(info, field);
    if value.Some? {
      has := HasListItem(value.value, item);
    }
  }

  method FieldFeatures(info: string) returns (features: set<Feature>)
    ensures NEON in features <==> FieldHolds(info, "Features", "neon")
    ensures VFPv3 in features <==> FieldHolds(info, "Features", "vfpv3") || FieldHolds(info, "Features", "vfpv3d16")
                                   || FieldHolds(info, "Features", "neon")
    ensures features <= {NEON, VFPv3}
  {
    hide Field, Holds;
    features := {};
    var list := ExtractField(info, "Features");
    if list.Some? {
      features := ListedFeatures(list.value);
    }
  }

  /** The flags of the `Features` field. NEON brings VFPv3 with it: some kernels report only NEON. */
  method ListedFeatures(list: string) returns (features: set<Feature>)
    ensures NEON in features <==> Holds(list, "neon")
    ensures VFPv3 in features <==> Holds(list, "vfpv3") || Holds(list, "vfpv3d16") || Holds(list, "neon")
    ensures features <= {NEON, VFPv3}
  {
    hide Holds;
    features := {};
    var vfpv3 := HasListItem(list, "vfpv3");
    if vfpv3 {
      features := features + {VFPv3};
    } else {
      var d16 := HasListItem(list, "vfpv3d16");
      if d16 {
        features := features + {VFPv3};
      }
    }
    var neon := HasListItem(list, "neon");
    if neon {
      features := features + {NEON, VFPv3};
    }
  }
}
