/** Parameters of the DSSL language: `$$name` and `$$(name)` inside an option value stand for the
    value of a parameter. The scanner replaces them one at a time and searches again from the start
    of the text each time; this module relates that loop to a single pass from left to right. */
module DsslParams {
  import opened Wrappers
  import opened Text

  datatype Param = Param(name: string, value: string)

  // ---------- the parameter list ----------

  /** Position of the first parameter with that name, ignoring case. The empty name is a null
      pointer in the source and matches nothing. */
  function IndexOf(params: seq<Param>, name: string): (r: Option<nat>)
    ensures r.Some? ==> r.value < |params| && EqualIgnoringCase(params[r.value].name, name)
    ensures name != "" ==>
              forall j :: 0 <= j < (if r.Some? then r.value else |params|) ==> !EqualIgnoringCase(params[j].name, name)
  {
    if name == "" || params == [] then None
    else if EqualIgnoringCase(params[0].name, name) then Some(0)
    else
      match IndexOf(params[1..], name)
      case None => None
      case Some(i) => Some(i + 1)
  }

  function ValueOf(params: seq<Param>, name: string): Option<string> {
    match IndexOf(params, name)
    case None => None
    case Some(i) => Some(params[i].value)
  }

  /** `update_param`: replaces the value of an existing parameter; it never adds one. */
  method UpdateParam(params: seq<Param>, name: string, value: string) returns (params': seq<Param>, ret: int)
    ensures |params'| == |params| && (ret == 0 <==> ValueOf(params, name).Some?)
    ensures ret == 0 ==> ValueOf(params', name) == Some(value)
    ensures forall i :: 0 <= i < |params| ==>
              params'[i] == if IndexOf(params, name) == Some(i) then Param(params[i].name, value) else params[i]
  {
    var i := IndexOf(params, name);
    if i.None? {
      return params, -1;
    }
    params' := params[i.value := Param(params[i.value].name, value)];
    ret := 0;
    UpdatedIsFound(params, name, value);
  }

  lemma {:induction false} UpdatedIsFound(params: seq<Param>, name: string, value: string)
    requires IndexOf(params, name).Some?
    ensures var i := IndexOf(params, name).value;
            ValueOf(params[i := Param(params[i].name, value)], name) == Some(value)
  {
    var i := IndexOf(params, name).value;
    var params' := params[i := Param(params[i].name, value)];
    if i > 0 {
      UpdatedIsFound(params[1..], name, value);
      assert params'[1..] == params[1..][i - 1 := Param(params[i].name, value)];
    }
  }

  // ---------- references ----------

  /** The name of the reference at the head of `s` stands between parentheses. */
  predicate Parenthesised(s: string)
    requires |s| >= 2
  {
    Find(s, '(') == 2 && |s| > 2 && Find(s[2..], ')') < |s| - 2
  }

  /** Name and length of the reference at the head of `s`. Between parentheses a name may hold
      blanks; otherwise it runs to the next blank. */
  function Head(s: string): (r: (string, nat))
    requires |s| >= 2 && s[0] == s[1] == '$'
    ensures 2 <= r.1 <= |s|
  {
    if Parenthesised(s) then
      var close := Find(s[2..], ')');
      (s[3..2 + close], 2 + close + 1)
    else
      (s[2..Find(s, ' ')], Find(s, ' '))
  }

  /** Where the first reference of a text lies, and what it names. */
  datatype Cut = Cut(at: nat, len: nat, name: string)

  predicate MarkAt(s: string, i: nat) {
    i + 1 < |s| && s[i] == s[i + 1] == '$'
  }

  /** `tsk_strindexOf(s, "$$")`: the first mark, or the length when there is none. */
  function FindMark(s: string, from: nat := 0): (i: nat)
    requires from <= |s|
    ensures from <= i <= |s| && (i < |s| ==> MarkAt(s, i))
    ensures forall j :: from <= j < i ==> !MarkAt(s, j)
    decreases |s| - from
  {
    if from == |s| || MarkAt(s, from) then from else FindMark(s, from + 1)
  }

  predicate IsReference(s: string, cut: Cut) {
    MarkAt(s, cut.at) && 2 <= cut.len && cut.at + cut.len <= |s|
  }

  function ReferenceAt(s: string, i: nat): (cut: Cut)
    requires MarkAt(s, i)
    ensures cut.at == i && IsReference(s, cut)
  {
    var (name, len) := Head(s[i..]);
    Cut(i, len, name)
  }

  function FirstReference(s: string): (r: Option<Cut>)
    ensures r.Some? ==> IsReference(s, r.value)
  {
    var i := FindMark(s);
    if i == |s| then None else Some(ReferenceAt(s, i))
  }

  function Before(s: string, cut: Cut): string
    requires cut.at <= |s|
  {
    s[..cut.at]
  }

  function After(s: string, cut: Cut): string
    requires cut.at + cut.len <= |s|
  {
    s[cut.at + cut.len..]
  }

  /** One turn of the loop: replace the first reference. There is nothing to do when there is none,
      when its name is unknown, and also when nothing would be left: the copy routine never
      allocates an empty string, and its null result means "not replaced". */
  function Replaced(s: string, params: seq<Param>): Option<string> {
    match FirstReference(s)
    case None => None
    case Some(cut) =>
      match ValueOf(params, cut.name)
      case None => None
      case Some(v) => var t := Before(s, cut) + v + After(s, cut); if t == "" then None else Some(t)
  }

  /** `tsk_strncat` on a destination that may still be null. */
  function Append(dest: Option<string>, source: string): (r: Option<string>)
    ensures dest.None? ==> r == if source == "" then None else Some(source)
  {
    if source == "" then dest
    else if dest.None? then Some(source) else Some(dest.value + source)
  }

  lemma AppendThree(a: string, b: string, c: string)
    ensures Append(Append(Append(None, a), b), c) == if a + b + c == "" then None else Some(a + b + c)
  {
    assert a == "" ==> a + b == b;
    assert b == "" ==> a + b == a;
    assert c == "" ==> a + b + c == a + b;
    assert a + b == "" ==> a + b + c == c;
  }

  /** Replaces the reference of `pivot` at `index1`; `index2` is where a name without parentheses
      ends. */
  method ReplaceParam(pivot: string, index1: nat, index2: nat, params: seq<Param>) returns (ret: Option<string>)
    requires index1 == FindMark(pivot) < |pivot|
    requires index2 == index1 + Find(pivot[index1..], ' ')
    ensures ret == Replaced(pivot, params)
  {
    ghost var cut := FirstReference(pivot).value;
    var pname, end := ReadName(pivot, index1, index2);
    assert cut == Cut(index1, end - index1, pname);
    hide Head, ValueOf, FirstReference;
    var value := ValueOf(params, pname);
    ret := None;
    if value.Some? {
      ret := Append(ret, pivot[..index1]);
      ret := Append(ret, value.value);
      ret := Append(ret, pivot[end..]);
      AppendThree(Before(pivot, cut), value.value, After(pivot, cut));
    }
  }

  /** The name of the reference, and where the reference ends. */
  method ReadName(pivot: string, index1: nat, index2: nat) returns (pname: string, end: nat)
    requires MarkAt(pivot, index1) && index2 == index1 + Find(pivot[index1..], ' ')
    ensures (pname, end - index1) == Head(pivot[index1..])
  {
    var tail := pivot[index1..];
    var i1 := Find(tail, '(');
    if i1 == 2 && |tail| > 2 && Find(tail[i1..], ')') < |tail| - 2 {
      var i2 := Find(tail[i1..], ')');
      assert tail[2..][0] == '(';
      pname := tail[i1 + 1..i1 + 1 + (i2 + 1 - i1)];
      end := index1 + i1 + i2 + 1;
    } else {
      pname := pivot[index1 + 2..index2];
      end := index2;
      assert pname == tail[2..Find(tail, ' ')];
    }
  }

  // ---------- texts in which nothing is left to do ----------

  /** No reference begins in `u`, whatever follows it. */
  predicate Clean(u: string) {
    forall j :: 0 <= j < |u| && u[j] == '$' ==> j + 1 < |u| && u[j + 1] != '$'
  }

  lemma CleanIsSkipped(u: string, s: string)
    requires Clean(u)
    ensures FindMark(u + s) == |u| + FindMark(s)
  {
    var r, q := FindMark(u + s), FindMark(s);
    forall j | 0 <= j < |u|
      ensures !MarkAt(u + s, j)
    {
    }
    forall j: nat
      ensures MarkAt(u + s, |u| + j) <==> MarkAt(s, j)
    {
    }
    if q < |s| {
      assert MarkAt(u + s, |u| + q);
    }
    if r < |u| + |s| {
      assert MarkAt(s, r - |u|);
    }
  }

  lemma ReferenceAfter(u: string, s: string, i: nat)
    requires MarkAt(s, i) && MarkAt(u + s, |u| + i)
    ensures ReferenceAt(u + s, |u| + i) == ReferenceAt(s, i).(at := |u| + i)
  {
    assert (u + s)[|u| + i..] == s[i..];
  }

  lemma FirstReferenceAfter(u: string, s: string)
    requires Clean(u)
    ensures FirstReference(u + s)
         == match FirstReference(s) case None => None case Some(cut) => Some(cut.(at := |u| + cut.at))
  {
    CleanIsSkipped(u, s);
    hide Clean, ReferenceAt, MarkAt;
    if FindMark(s) < |s| {
      ReferenceAfter(u, s, FindMark(s));
    }
  }

  lemma CutAfter(u: string, s: string, cut: Cut)
    requires cut.at + cut.len <= |s|
    ensures Before(u + s, cut.(at := |u| + cut.at)) == u + Before(s, cut)
    ensures After(u + s, cut.(at := |u| + cut.at)) == After(s, cut)
  {
  }

  lemma StepAfter(u: string, s: string, params: seq<Param>)
    requires Clean(u)
    ensures var first := FirstReference(s);
            Replaced(u + s, params) ==
            if first.None? || ValueOf(params, first.value.name).None? then None
            else
              var t := u + Before(s, first.value) + ValueOf(params, first.value.name).value + After(s, first.value);
              if t == "" then None else Some(t)
  {
    FirstReferenceAfter(u, s);
    hide Clean, ValueOf, FirstReference, Before, After;
    if FirstReference(s).Some? {
      CutAfter(u, s, FirstReference(s).value);
    }
  }

  lemma CleanGrows(u: string, s: string, v: string)
    requires Clean(u) && FindMark(s) < |s| && '$' !in v
    ensures Clean(u + s[..FindMark(s)] + v)
  {
    var i := FindMark(s);
    var w := u + s[..i] + v;
    forall j | 0 <= j < |w| && w[j] == '$'
      ensures j + 1 < |w| && w[j + 1] != '$'
    {
      if j < |u| {
        assert Clean(u) && u[j] == '$';
      } else {
        assert j - |u| < i;
        assert !MarkAt(s, j - |u|);
      }
    }
  }

  // ---------- what a turn does, in terms of the text ----------

  /** No reference begins in a text exactly when it holds no `$$` and does not end in `$`. */
  lemma CleanExactly(u: string)
    ensures Clean(u) <==> (u == "" || u[|u| - 1] != '$')
                          && forall i :: 0 <= i < |u| - 1 ==> !(u[i] == '$' && u[i + 1] == '$')
  {
  }

  lemma ReferenceAtMark(s: string)
    requires MarkAt(s, 0)
    ensures FirstReference(s) == Some(Cut(0, Head(s).1, Head(s).0))
  {
    assert s[0..] == s;
  }

  lemma PlainHead(name: string, rest: string)
    requires ' ' !in name && (rest == "" || rest[0] == ' ')
    requires (name + rest != "" && (name + rest)[0] == '(') ==> ')' !in name + rest
    ensures Head("$$" + name + rest) == (name, 2 + |name|)
  {
    var s := "$$" + name + rest;
    assert s == ("$$" + name) + rest && s[2..] == name + rest;
    FindAfter("$$" + name, rest, ' ');
    assert s[2..2 + |name|] == name;
    assert !Parenthesised(s) by {
      if name + rest != "" && (name + rest)[0] == '(' {
        assert Find(s[2..], ')') == |s| - 2;
      } else {
        assert name + rest == "" || s[2] == (name + rest)[0];
      }
    }
    hide Find, Parenthesised;
  }

  /** A name without parentheses ends at the first blank, or with the text. It may begin with an
      opening parenthesis that is never closed. */
  lemma PlainReference(u: string, name: string, rest: string, params: seq<Param>)
    requires Clean(u) && ' ' !in name && (rest == "" || rest[0] == ' ')
    requires (name + rest != "" && (name + rest)[0] == '(') ==> ')' !in name + rest
    ensures Replaced(u + ("$$" + name + rest), params)
         == match ValueOf(params, name)
            case None => None
            case Some(value) => if u + value + rest == "" then None else Some(u + value + rest)
  {
    var s := "$$" + name + rest;
    PlainHead(name, rest);
    ReferenceAtMark(s);
    assert s[2 + |name|..] == rest && s[..0] == "";
    hide Head, Clean, ValueOf, FirstReference;
    StepAfter(u, s, params);
    assert u + "" == u;
  }

  lemma ParenthesisedHead(name: string, rest: string)
    requires ')' !in name
    ensures Head("$$(" + name + ")" + rest) == (name, 4 + |name|)
  {
    var s := "$$(" + name + ")" + rest;
    assert s == "$$" + ("(" + name + ")" + rest) && s[2..] == ("(" + name) + (")" + rest);
    FindAfter("$$", "(" + name + ")" + rest, '(');
    FindAfter("(" + name, ")" + rest, ')');
    assert s[3..3 + |name|] == name;
    hide Find;
  }

  /** A name in parentheses ends at the first closing one; any text may follow. */
  lemma ParenthesisedReference(u: string, name: string, rest: string, params: seq<Param>)
    requires Clean(u) && ')' !in name
    ensures Replaced(u + ("$$(" + name + ")" + rest), params)
         == match ValueOf(params, name)
            case None => None
            case Some(value) => if u + value + rest == "" then None else Some(u + value + rest)
  {
    var s := "$$(" + name + ")" + rest;
    ParenthesisedHead(name, rest);
    ReferenceAtMark(s);
    assert s[4 + |name|..] == rest && s[..0] == "";
    hide Head, Clean, ValueOf, FirstReference;
    StepAfter(u, s, params);
    assert u + "" == u;
  }

  /** Without `$$` there is nothing to replace. */
  lemma NothingToReplace(s: string, params: seq<Param>)
    requires forall i :: 0 <= i < |s| - 1 ==> !(s[i] == '$' && s[i + 1] == '$')
    ensures Replaced(s, params) == None
  {
    assert FindMark(s) == |s|;
  }

  /** The value is that of the first parameter whose name agrees but for the case of its letters. */
  lemma ValueByName(params: seq<Param>, name: string, i: nat)
    requires i < |params| && name != "" && |name| == |params[i].name|
    requires forall k :: 0 <= k < |name| ==> SameLetter(params[i].name[k], name[k])
    requires forall j :: 0 <= j < i ==> !EqualIgnoringCase(params[j].name, name)
    ensures ValueOf(params, name) == Some(params[i].value)
  {
    EqualIgnoringCaseExactly(params[i].name, name);
    hide EqualIgnoringCase;
  }

  // ---------- the rewriting loop ----------

  /** The text after `k` turns; none when the loop has ended before. */
  function Turned(s: string, params: seq<Param>, k: nat): Option<string>
    decreases k
  {
    if k == 0 then Some(s)
    else
      match Replaced(s, params)
      case None => None
      case Some(t) => Turned(t, params, k - 1)
  }

  ghost predicate Ends(s: string, params: seq<Param>) {
    exists k: nat :: Turned(s, params, k) == None
  }

  ghost predicate Reaches(s: string, params: seq<Param>, r: string) {
    exists k: nat :: Turned(s, params, k) == Some(r)
  }

  lemma {:induction false} OneMoreTurn(s: string, params: seq<Param>, k: nat, r: string)
    requires Turned(s, params, k) == Some(r)
    ensures Turned(s, params, k + 1) == Replaced(r, params)
    decreases k
  {
    hide Replaced;
    if k > 0 {
      OneMoreTurn(Replaced(s, params).value, params, k - 1, r);
    }
  }

  /** The loop that replaces the parameters of an option value, on any value on which it ends. When
      that is, `EndsWhenSettled` and `EndsOnEveryTextExactly` say. */
  method ReplaceParams(value: string, params: seq<Param>) returns (r: string)
    requires Ends(value, params)
    ensures Reaches(value, params, r) && Replaced(r, params) == None
  {
    hide *;
    ghost var left: nat := Beginning(value, params);
    r := value;
    while true
      invariant Underway(value, params, r, left)
      decreases left
    {
      TurnTaken(value, params, r, left);
      var newval := NextText(r, params);
      if newval.None? {
        return;
      }
      r, left := newval.value, left - 1;
    }
  }

  /** The loop has come to `r`, and at most `left` turns are left. */
  ghost predicate Underway(s: string, params: seq<Param>, r: string, left: nat) {
    Turned(r, params, left) == None && Reaches(s, params, r)
  }

  lemma Beginning(s: string, params: seq<Param>) returns (left: nat)
    requires Ends(s, params)
    ensures Underway(s, params, s, left)
  {
    left :| Turned(s, params, left) == None;
    assert Turned(s, params, 0) == Some(s);
  }

  lemma TurnTaken(s: string, params: seq<Param>, r: string, left: nat)
    requires Underway(s, params, r, left)
    ensures left > 0 && Reaches(s, params, r)
    ensures Replaced(r, params).Some? ==> Underway(s, params, Replaced(r, params).value, left - 1)
  {
    hide Replaced;
    var done: nat :| Turned(s, params, done) == Some(r);
    OneMoreTurn(s, params, done, r);
    if Replaced(r, params).Some? {
      assert Turned(s, params, done + 1) == Some(Replaced(r, params).value);
    }
  }

  /** One turn: none when there is no mark, or nothing was replaced. */
  method NextText(s: string, params: seq<Param>) returns (newval: Option<string>)
    ensures newval == Replaced(s, params)
  {
    newval := None;
    var index1 := FindMark(s);
    if index1 < |s| {
      newval := ReplaceParam(s, index1, index1 + Find(s[index1..], ' '), params);
    }
  }

  // ---------- when the loop ends ----------

  /** Taken by itself, the value does not begin its references with a known name. */
  predicate SettledValue(params: seq<Param>, v: string) {
    FirstReference(v).Some? ==> ValueOf(params, FirstReference(v).value.name).None?
  }

  predicate Settled(params: seq<Param>) {
    forall i :: 0 <= i < |params| ==> SettledValue(params, params[i].value)
  }

  /** Values without `$$` are settled, however many single `$` they hold. */
  lemma NoMarksIsSettled(params: seq<Param>)
    requires forall i, j :: 0 <= i < |params| && 0 <= j < |params[i].value| ==> !MarkAt(params[i].value, j)
    ensures Settled(params)
  {
    forall i | 0 <= i < |params|
      ensures FirstReference(params[i].value) == None
    {
      assert FindMark(params[i].value) == |params[i].value|;
    }
  }

  lemma ValueIsSettled(params: seq<Param>, name: string)
    requires Settled(params) && ValueOf(params, name).Some?
    ensures SettledValue(params, ValueOf(params, name).value)
  {
  }

  /** Parentheses that close within the prefix `t` of a text close in `t`, and the other way round
      unless they close in what follows only. */
  lemma ParenthesesOver(t: string, w: string)
    requires |t| >= 2
    ensures Parenthesised(t) ==> Parenthesised(t + w) && Find((t + w)[2..], ')') == Find(t[2..], ')')
    ensures Parenthesised(t + w) ==> Parenthesised(t) || Find((t + w)[2..], ')') >= |t| - 2
  {
    FindOver(t, w, '(');
    assert (t + w)[2..] == t[2..] + w;
    FindOver(t[2..], w, ')');
    hide Find;
  }

  lemma PrefixSlices(t: string, w: string, i: nat, j: nat)
    requires i <= j <= |t|
    ensures (t + w)[i..j] == t[i..j]
  {
  }

  /** A reference that lies within the prefix `t` of a text is one of `t` too. */
  lemma HeadInPrefix(t: string, w: string)
    requires MarkAt(t, 0) && Head(t + w).1 <= |t|
    ensures Head(t) == Head(t + w)
  {
    ParenthesesOver(t, w);
    FindOver(t, w, ' ');
    hide Find;
    if Parenthesised(t + w) {
      PrefixSlices(t, w, 3, 2 + Find(t[2..], ')'));
    } else {
      PrefixSlices(t, w, 2, Find(t, ' '));
    }
  }

  lemma MarkInPrefix(v: string, a: string)
    ensures FindMark(v) < |v| ==> FindMark(v + a) == FindMark(v)
    ensures FindMark(v) == |v| && FindMark(v + a) < |v + a| ==> FindMark(v + a) + 1 >= |v|
  {
    var i, j := FindMark(v), FindMark(v + a);
    assert forall k :: 0 <= k && k + 1 < |v| ==> (MarkAt(v, k) <==> MarkAt(v + a, k));
    if i < |v| {
      assert MarkAt(v + a, i);
    }
  }

  /** In the text after a settled value, the next known reference uses up some of what follows. */
  lemma ReferenceReachesOn(v: string, a: string, params: seq<Param>)
    requires SettledValue(params, v) && FirstReference(v + a).Some?
    requires ValueOf(params, FirstReference(v + a).value.name).Some?
    ensures |After(v + a, FirstReference(v + a).value)| < |a|
  {
    hide ValueOf, Head, MarkAt;
    MarkInPrefix(v, a);
    var i, cut := FindMark(v), FirstReference(v + a).value;
    if i < |v| && cut.len <= |v| - i {
      assert (v + a)[i..] == v[i..] + a;
      ReferenceInPrefix(v, a);
    }
  }

  lemma ReferenceInPrefix(v: string, a: string)
    requires FindMark(v) < |v| && FindMark(v + a) == FindMark(v)
    requires FirstReference(v + a).Some? && FirstReference(v + a).value.len <= |v| - FindMark(v)
    ensures FirstReference(v) == FirstReference(v + a)
  {
    var i := FindMark(v);
    SuffixOfSum(v, a, i);
    hide Head, MarkAt;
    assert MarkAt(v, i) ==> MarkAt(v[i..], 0) by { MarkOfSuffix(v, i); }
    HeadInPrefix(v[i..], a);
    hide FindMark;
  }

  lemma SuffixOfSum(v: string, a: string, i: nat)
    requires i <= |v|
    ensures (v + a)[i..] == v[i..] + a
  {
  }

  lemma MarkOfSuffix(v: string, i: nat)
    requires MarkAt(v, i)
    ensures MarkAt(v[i..], 0)
  {
  }

  /** What a turn can still use up. */
  function Remaining(s: string, params: seq<Param>): nat {
    if Replaced(s, params).None? then 0 else 1 + |After(s, FirstReference(s).value)|
  }

  /** With settled values every turn leaves less. */
  lemma TurnsForward(s: string, params: seq<Param>)
    requires Settled(params) && Replaced(s, params).Some?
    ensures Remaining(Replaced(s, params).value, params) < Remaining(s, params)
  {
    var b, v, a := TurnParts(s, params);
    var t := b + (v + a);
    hide Replaced, Clean, ValueOf, FirstReference;
    FirstReferenceAfter(b, v + a);
    if Replaced(t, params).Some? {
      ReplacedIsKnown(t, params);
      ReferenceReachesOn(v, a, params);
    }
  }

  lemma ReplacedIsKnown(s: string, params: seq<Param>)
    requires Replaced(s, params).Some?
    ensures FirstReference(s).Some? && ValueOf(params, FirstReference(s).value.name).Some?
  {
  }

  /** A turn takes the text apart and puts it together with the value. */
  lemma TurnParts(s: string, params: seq<Param>) returns (b: string, v: string, a: string)
    requires Settled(params) && Replaced(s, params).Some?
    ensures Clean(b) && SettledValue(params, v) && Replaced(s, params) == Some(b + (v + a))
    ensures FirstReference(s).Some? && |After(s, FirstReference(s).value)| == |a|
  {
    var cut := FirstReference(s).value;
    b, v, a := Before(s, cut), ValueOf(params, cut.name).value, After(s, cut);
    BeforeIsClean(s);
    ValueIsSettled(params, cut.name);
    hide FirstReference, ValueOf, Clean, SettledValue;
    assert b + (v + a) == b + v + a;
  }

  lemma BeforeIsClean(s: string)
    requires FindMark(s) < |s|
    ensures Clean(s[..FindMark(s)])
  {
    CleanGrows("", s, "");
    assert "" + s[..FindMark(s)] + "" == s[..FindMark(s)];
  }

  /** Where the loop ends when all values are settled. */
  function Rewritten(s: string, params: seq<Param>): string
    requires Settled(params)
    decreases Remaining(s, params)
  {
    if Replaced(s, params).None? then s
    else
      TurnsForward(s, params);
      Rewritten(Replaced(s, params).value, params)
  }

  /** Then the loop ends on every text, there and nowhere else. */
  lemma {:induction false} EndsWhenSettled(s: string, params: seq<Param>)
    requires Settled(params)
    ensures Ends(s, params) && Reaches(s, params, Rewritten(s, params))
    ensures Replaced(Rewritten(s, params), params) == None
    decreases Remaining(s, params)
  {
    hide Replaced, Settled;
    if Replaced(s, params).None? {
      assert Turned(s, params, 1) == None && Turned(s, params, 0) == Some(s);
    } else {
      var t := Replaced(s, params).value;
      TurnsForward(s, params);
      EndsWhenSettled(t, params);
      var j: nat, k: nat :| Turned(t, params, j) == None && Turned(t, params, k) == Some(Rewritten(t, params));
      assert Turned(s, params, j + 1) == None && Turned(s, params, k + 1) == Some(Rewritten(t, params));
    }
  }

  /** A text the loop stops at is the only one it can stop at. */
  lemma {:induction false} EndIsUnique(s: string, params: seq<Param>, j: nat, r: string, k: nat, q: string)
    requires Turned(s, params, j) == Some(r) && Replaced(r, params) == None
    requires Turned(s, params, k) == Some(q) && Replaced(q, params) == None
    ensures r == q
    decreases j
  {
    hide Replaced;
    if j > 0 && k > 0 {
      EndIsUnique(Replaced(s, params).value, params, j - 1, r, k - 1, q);
    }
  }

  lemma ReachedIsRewritten(s: string, params: seq<Param>, r: string)
    requires Settled(params) && Reaches(s, params, r) && Replaced(r, params) == None
    ensures r == Rewritten(s, params)
  {
    hide Replaced, Settled, Turned;
    EndsWhenSettled(s, params);
    var j: nat, k: nat :| Turned(s, params, j) == Some(r) && Turned(s, params, k) == Some(Rewritten(s, params));
    EndIsUnique(s, params, j, r, k, Rewritten(s, params));
  }

  // ---------- when it does not ----------

  function Repeated(s: string, k: nat): string {
    if k == 0 then "" else s + Repeated(s, k - 1)
  }

  lemma {:induction false} RepeatedLast(s: string, k: nat)
    ensures Repeated(s, k + 1) == Repeated(s, k) + s
  {
    if k == 0 {
      assert s + "" == "" + s;
    } else {
      RepeatedLast(s, k - 1);
      assert s + (Repeated(s, k - 1) + s) == (s + Repeated(s, k - 1)) + s;
    }
  }

  lemma {:induction false} RepeatedIsClean(b: string, k: nat)
    requires Clean(b)
    ensures Clean(Repeated(b, k))
  {
    if k > 0 {
      RepeatedIsClean(b, k - 1);
      CleanSum(b, Repeated(b, k - 1));
    }
  }

  lemma CleanSum(u: string, w: string)
    requires Clean(u) && Clean(w)
    ensures Clean(u + w)
  {
    forall j | 0 <= j < |u + w| && (u + w)[j] == '$'
      ensures j + 1 < |u + w| && (u + w)[j + 1] != '$'
    {
      if j >= |u| {
        assert w[j - |u|] == '$';
      } else {
        assert u[j] == '$';
      }
    }
  }

  lemma {:induction false} RepeatedHasNoOther(s: string, k: nat, c: char)
    requires c in Repeated(s, k)
    ensures c in s
  {
    if k > 0 && c !in s {
      RepeatedHasNoOther(s, k - 1, c);
    }
  }

  lemma {:induction false} RepeatedNothing(k: nat)
    ensures Repeated("", k) == ""
  {
    if k > 0 {
      RepeatedNothing(k - 1);
    }
  }

  /** More text after a reference that is complete does not change it. */
  lemma HeadStays(t: string, w: string)
    requires MarkAt(t, 0) && Head(t).1 < |t|
    requires ')' in w ==> ')' in t[2..]
    ensures Head(t + w) == Head(t)
  {
    ParenthesesOver(t, w);
    FindOver(t, w, ' ');
    if Parenthesised(t) {
      PrefixSlices(t, w, 3, 2 + Find(t[2..], ')'));
    } else {
      PrefixSlices(t, w, 2, Find(t, ' '));
      NoParentheses(t, w);
    }
  }

  lemma NoParentheses(t: string, w: string)
    requires |t| > 2 && !Parenthesised(t) && (')' in w ==> ')' in t[2..])
    ensures !Parenthesised(t + w)
  {
    FindOver(t, w, '(');
    assert (t + w)[2..] == t[2..] + w;
    if ')' !in t[2..] {
      FindAfter(t[2..], w, ')');
    }
  }

  lemma ReferenceStays(v: string, w: string)
    requires FirstReference(v).Some?
    requires After(v, FirstReference(v).value) == "" ==> w == ""
    requires ')' in w ==> ')' in After(v, FirstReference(v).value)
    ensures FirstReference(v + w) == FirstReference(v)
  {
    if w == "" {
      assert v + w == v;
    } else {
      var i, len := FindMark(v), FirstReference(v).value.len;
      MarkInPrefix(v, w);
      assert (v + w)[i..] == v[i..] + w;
      SuffixHolds(v, i + 2, i + len, ')');
      HeadStays(v[i..], w);
      hide Head;
    }
  }

  lemma SuffixHolds(v: string, i: nat, j: nat, c: char)
    requires i <= j <= |v|
    ensures c in v[j..] ==> c in v[i..]
  {
    assert v[j..] == v[i..][j - i..];
  }

  /** The value `v` between `k` copies of what is before its first reference and `k` copies of what
      is after it. */
  function Nested(v: string, k: nat): string {
    match FirstReference(v)
    case None => v
    case Some(cut) => Repeated(Before(v, cut), k) + (v + Repeated(After(v, cut), k))
  }

  /** A value that begins its references with its own name puts itself back, one level deeper. */
  lemma SelfReferenceTurn(p: string, v: string, k: nat)
    requires !SettledValue([Param(p, v)], v)
    ensures Replaced(Nested(v, k), [Param(p, v)]) == Some(Nested(v, k + 1))
  {
    var params, cut := [Param(p, v)], FirstReference(v).value;
    var b, a := Before(v, cut), After(v, cut);
    OnlyValue(p, v, cut.name);
    BeforeIsClean(v);
    RepeatedIsClean(b, k);
    RepeatedLast(b, k);
    AfterRepeats(a, k);
    ReferenceStays(v, Repeated(a, k));
    hide ValueOf, FirstReference, Clean, Before, After;
    AroundReference(Repeated(b, k), v, Repeated(a, k), params);
  }

  lemma AfterRepeats(a: string, k: nat)
    ensures a == "" ==> Repeated(a, k) == ""
    ensures ')' in Repeated(a, k) ==> ')' in a
  {
    if a == "" {
      RepeatedNothing(k);
    }
    if ')' in Repeated(a, k) {
      RepeatedHasNoOther(a, k, ')');
    }
  }

  lemma OnlyValue(p: string, v: string, name: string)
    ensures ValueOf([Param(p, v)], name) in {None, Some(v)}
  {
  }

  /** One turn on a text around `v` whose first reference is that of `v`. */
  lemma AroundReference(u: string, v: string, w: string, params: seq<Param>)
    requires Clean(u) && FirstReference(v).Some? && FirstReference(v + w) == FirstReference(v)
    requires ValueOf(params, FirstReference(v).value.name) == Some(v)
    ensures (var cut := FirstReference(v).value;
             Replaced(u + (v + w), params) == Some((u + Before(v, cut)) + (v + (After(v, cut) + w))))
  {
    var cut := FirstReference(v).value;
    StepAfter(u, v + w, params);
    CutBefore(v, w, cut);
    var b, a := Before(v, cut), After(v, cut);
    assert v != "";
    hide *;
    Regroup(u, b, v, a, w);
  }

  lemma CutBefore(v: string, w: string, cut: Cut)
    requires cut.at + cut.len <= |v|
    ensures Before(v + w, cut) == Before(v, cut) && After(v + w, cut) == After(v, cut) + w
  {
  }

  lemma Regroup(u: string, b: string, v: string, a: string, w: string)
    ensures u + b + v + (a + w) == (u + b) + (v + (a + w))
    ensures v != "" ==> u + b + v + (a + w) != ""
  {
    var x, y := u + b, a + w;
    assert (x + v) + y == x + (v + y);
  }

  /** A chain of texts, each one turn after the one before. */
  ghost predicate Chained(texts: nat -> string, params: seq<Param>) {
    forall j: nat :: Replaced(texts(j), params) == Some(texts(j + 1))
  }

  lemma {:induction false} TurnsAlongChain(texts: nat -> string, params: seq<Param>, j: nat, k: nat)
    requires Chained(texts, params)
    ensures Turned(texts(j), params, k) == Some(texts(j + k))
    decreases k
  {
    hide Replaced;
    if k > 0 {
      TurnsAlongChain(texts, params, j + 1, k - 1);
    }
  }

  /** After `k` turns the value is nested `k` levels deep. */
  lemma SelfReferenceTurns(p: string, v: string, k: nat)
    requires !SettledValue([Param(p, v)], v)
    ensures Turned(v, [Param(p, v)], k) == Some(Nested(v, k))
  {
    var params, texts := [Param(p, v)], (j: nat) => Nested(v, j);
    NestedNot(v);
    hide *;
    forall j: nat
      ensures Replaced(texts(j), params) == Some(texts(j + 1))
    {
      SelfReferenceTurn(p, v, j);
    }
    NestedChain(texts, params);
    TurnsAlongChain(texts, params, 0, k);
  }

  lemma NestedNot(v: string)
    ensures Nested(v, 0) == v
  {
  }

  lemma NestedChain(texts: nat -> string, params: seq<Param>)
    requires forall j: nat :: Replaced(texts(j), params) == Some(texts(j + 1))
    ensures Chained(texts, params)
  {
  }

  /** So the loop never ends on such a value. */
  lemma SelfReferenceNeverEnds(p: string, v: string)
    requires !SettledValue([Param(p, v)], v)
    ensures !Ends(v, [Param(p, v)])
  {
    forall k: nat
      ensures Turned(v, [Param(p, v)], k) != None
    {
      SelfReferenceTurns(p, v, k);
    }
  }

  /** With one parameter the loop ends on every text exactly when its value does not begin its
      references with the parameter's own name. */
  lemma EndsOnEveryTextExactly(p: string, v: string)
    ensures (forall s :: Ends(s, [Param(p, v)])) <==> SettledValue([Param(p, v)], v)
  {
    var params := [Param(p, v)];
    if SettledValue(params, v) {
      assert Settled(params);
      forall s
        ensures Ends(s, params)
      {
        EndsWhenSettled(s, params);
      }
    } else {
      SelfReferenceNeverEnds(p, v);
    }
  }

  /** For instance the value `$$a` of the parameter `a`. */
  lemma RewritingMayDiverge()
    ensures !Ends("$$a", [Param("a", "$$a")])
  {
    var s := "$$a";
    HeadOfPlainName(s);
    assert s[0..] == s && FirstReference(s) == Some(Cut(0, 3, "a"));
    hide FirstReference, Head;
    SelfReferenceNeverEnds("a", s);
  }

  lemma HeadOfPlainName(s: string)
    requires |s| >= 2 && s[0] == s[1] == '$' && '(' !in s && ' ' !in s
    ensures Head(s) == (s[2..], |s|)
  {
    assert Find(s, '(') != 2 || |s| == 2;
    assert Find(s, ' ') == |s| && s[2..|s|] == s[2..];
  }

  // ---------- counting dollars ----------

  function Dollars(s: string): nat {
    multiset(s)['$']
  }

  /** Every turn trades the `$` of the reference, two at least, for those of the value. */
  lemma StepShrinks(s: string, params: seq<Param>)
    requires Replaced(s, params).Some?
    ensures (var cut := FirstReference(s).value; var text := s[cut.at..cut.at + cut.len];
             && Dollars(text) >= 2
             && Dollars(Replaced(s, params).value) + Dollars(text)
                == Dollars(s) + Dollars(ValueOf(params, cut.name).value))
  {
    hide FirstReference, ValueOf;
    var cut := FirstReference(s).value;
    var text := s[cut.at..cut.at + cut.len];
    assert text == [text[0]] + [text[1]] + text[2..];
    assert s == Before(s, cut) + text + After(s, cut);
  }

  // ---------- the single pass ----------

  /** Left to right, each reference once, up to the first unknown name. */
  function Expand(s: string, params: seq<Param>): string
    decreases |s|
  {
    match FirstReference(s)
    case None => s
    case Some(cut) =>
      match ValueOf(params, cut.name)
      case None => s
      case Some(v) => Before(s, cut) + v + Expand(After(s, cut), params)
  }

  predicate NoDollars(params: seq<Param>) {
    forall i :: 0 <= i < |params| ==> '$' !in params[i].value
  }

  /** What the next turn does when the first reference of `s` is known: `u` grows by `w`, and
      `rest` is still to be read. */
  lemma TurnAfter(u: string, s: string, params: seq<Param>) returns (w: string, rest: string)
    requires NoDollars(params) && Settled(params) && Clean(u)
    requires FirstReference(s).Some? && ValueOf(params, FirstReference(s).value.name).Some?
    ensures |rest| < |s| && Clean(u + w)
    ensures Expand(s, params) == w + Expand(rest, params)
    ensures (u + w) + rest != "" ==> Rewritten(u + s, params) == Rewritten((u + w) + rest, params)
  {
    var cut := FirstReference(s).value;
    var v := ValueOf(params, cut.name).value;
    w, rest := Before(s, cut) + v, After(s, cut);
    LookupHasNoDollars(params, cut.name);
    CleanGrows(u, s, v);
    Reassociate(u, Before(s, cut), v);
    StepAfter(u, s, params);
    hide Replaced, FirstReference, Clean, ValueOf, Before, Settled;
  }

  lemma NoTurnAfter(u: string, s: string, params: seq<Param>)
    requires Settled(params) && Clean(u)
    requires FirstReference(s).None? || ValueOf(params, FirstReference(s).value.name).None?
    ensures Expand(s, params) == s && Rewritten(u + s, params) == u + s
  {
    StepAfter(u, s, params);
    hide Replaced, FirstReference, Clean, ValueOf, Settled;
  }

  /** The loop, started on `u + s` where nothing is left to do in `u`. */
  lemma {:induction false} RewriteAfter(u: string, s: string, params: seq<Param>)
    requires NoDollars(params) && Settled(params) && Clean(u)
    requires u + Expand(s, params) != ""
    ensures Rewritten(u + s, params) == u + Expand(s, params)
    decreases |s|
  {
    hide *;
    var first := FirstReference(s);
    if first.None? || ValueOf(params, first.value.name).None? {
      NoTurnAfter(u, s, params);
    } else {
      var w, rest := TurnAfter(u, s, params);
      Reassociate(u, w, Expand(rest, params));
      ExpandNothing(params);
      RewriteAfter(u + w, rest, params);
    }
  }

  lemma Reassociate(a: string, b: string, c: string)
    ensures (a + b) + c == a + (b + c)
  {
  }

  lemma ExpandNothing(params: seq<Param>)
    ensures Expand("", params) == ""
  {
  }

  lemma LookupHasNoDollars(params: seq<Param>, name: string)
    requires NoDollars(params) && ValueOf(params, name).Some?
    ensures '$' !in ValueOf(params, name).value
  {
  }

  lemma NoDollarsIsSettled(params: seq<Param>)
    requires NoDollars(params)
    ensures Settled(params)
  {
  }

  /** `s` is one reference to an empty value and nothing else. */
  predicate LoneReference(s: string, params: seq<Param>) {
    var first := FirstReference(s);
    && first.Some? && first.value.at == 0 && first.value.len == |s|
    && ValueOf(params, first.value.name) == Some("")
  }

  /** Only references to empty values, one after the other. */
  predicate OnlyEmptyReferences(s: string, params: seq<Param>)
    decreases |s|
  {
    match FirstReference(s)
    case None => false
    case Some(cut) =>
      && cut.at == 0 && ValueOf(params, cut.name) == Some("")
      && (After(s, cut) == "" || OnlyEmptyReferences(After(s, cut), params))
  }

  lemma {:induction false} ExpandsToNothing(s: string, params: seq<Param>)
    ensures s != "" && Expand(s, params) == "" <==> OnlyEmptyReferences(s, params)
    decreases |s|
  {
    hide ValueOf;
    var first := FirstReference(s);
    if first.Some? && first.value.at == 0 && ValueOf(params, first.value.name) == Some("") {
      var rest := After(s, first.value);
      ExpandsToNothing(rest, params);
      ExpandNothing(params);
      assert "" + "" + Expand(rest, params) == Expand(rest, params);
      assert rest == "" ==> !OnlyEmptyReferences(rest, params);
      hide FirstReference;
    }
  }

  lemma EmptyExpansionStep(s: string, params: seq<Param>) returns (n: nat)
    requires Settled(params) && s != "" && Expand(s, params) == ""
    ensures 0 < n <= |s| && Expand(s[n..], params) == ""
    ensures if n == |s| then LoneReference(s, params) && Rewritten(s, params) == s
            else Rewritten(s, params) == Rewritten(s[n..], params)
  {
    hide FirstReference, ValueOf, Settled;
    var cut := FirstReference(s).value;
    n := cut.len;
    assert Before(s, cut) == "";
    assert "" + "" + After(s, cut) == After(s, cut) == s[n..];
  }

  /** When nothing at all would be left, the loop stops with the last reference still in place. */
  lemma {:induction false} EmptyLeavesLastReference(s: string, params: seq<Param>)
    requires NoDollars(params) && Settled(params) && s != "" && Expand(s, params) == ""
    ensures var r := Rewritten(s, params);
            LoneReference(r, params) && |r| <= |s| && s[|s| - |r|..] == r
    decreases |s|
  {
    hide *;
    var n := EmptyExpansionStep(s, params);
    if n < |s| {
      EmptyLeavesLastReference(s[n..], params);
    }
  }

  /** The loop and the single pass agree exactly when something is left to be said: the value is not
      made of references to empty values alone. */
  lemma RewriteIsExpand(s: string, params: seq<Param>)
    requires NoDollars(params)
    ensures Settled(params)
    ensures Rewritten(s, params) == Expand(s, params) <==> !OnlyEmptyReferences(s, params)
  {
    NoDollarsIsSettled(params);
    ExpandsToNothing(s, params);
    ExpandNothing(params);
    if Expand(s, params) != "" {
      assert "" + s == s && "" + Expand(s, params) == Expand(s, params);
      RewriteAfter("", s, params);
    } else if s != "" {
      EmptyLeavesLastReference(s, params);
      assert Rewritten(s, params) != "";
    } else {
      assert Replaced(s, params) == None;
    }
  }
}
