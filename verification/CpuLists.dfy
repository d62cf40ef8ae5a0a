/** CPU lists as the kernel prints them (`0`, `2,4-127,128-143`), read into a 32-bit mask. */
module CpuLists {
  import opened Wrappers
  import opened Text

  // ---------- the mask ----------

  /** The 32 bits of the mask, bit 0 first. */
  type Mask = bits: seq<bool> | |bits| == 32 witness seq(32, _ => false)

  const NO_BITS: Mask := seq(32, _ => false)

  function Both(a: Mask, b: Mask): Mask {
    seq(32, i requires 0 <= i < 32 => a[i] && b[i])
  }

  /** The CPUs in a mask. */
  function Members(mask: Mask): set<nat> {
    set cpu: nat | cpu < 32 && mask[cpu]
  }

  /** `__builtin_popcount`. */
  function PopCount(bits: seq<bool>): nat {
    if bits == [] then 0 else PopCount(bits[..|bits| - 1]) + (if bits[|bits| - 1] then 1 else 0)
  }

  lemma {:induction false} PopCountIsCardinality(bits: seq<bool>)
    ensures PopCount(bits) == |set cpu: nat | cpu < |bits| && bits[cpu]| <= |bits|
  {
    if bits != [] {
      var n := |bits| - 1;
      PopCountIsCardinality(bits[..n]);
      var fewer := set cpu: nat | cpu < n && bits[..n][cpu];
      assert (set cpu: nat | cpu < |bits| && bits[cpu]) == if bits[n] then fewer + {n} else fewer;
    }
  }

  // ---------- what a list means ----------

  function Range(lo: nat, hi: int): (r: set<nat>)
    ensures forall cpu: nat :: cpu in r <==> lo <= cpu <= hi
    decreases hi + 1 - lo
  {
    if hi < lo then {} else Range(lo, hi - 1) + {hi}
  }

  /** A number, or two with a dash between them. What follows is ignored, so the newline that ends
      the text is too. */
  function ItemOf(item: string): Option<(nat, nat)> {
    var n := DigitCount(item);
    if n == 0 then None
    else
      var lo := Value(item[..n]);
      if n == |item| || item[n] != '-' then Some((lo, lo))
      else
        var tail := item[n + 1..];
        var m := DigitCount(tail);
        if m == 0 then None else Some((lo, Value(tail[..m])))
  }

  /** The CPUs of all items before the first bad one. */
  function Cpus(items: seq<string>): set<nat> {
    if items == [] || ItemOf(items[0]).None? then {}
    else Range(ItemOf(items[0]).value.0, ItemOf(items[0]).value.1) + Cpus(items[1..])
  }

  function CpusOf(line: string): set<nat> {
    Cpus(Split(line, ','))
  }

  /** What fits the mask. */
  function Low(cpus: set<nat>): set<nat> {
    set cpu | cpu in cpus && cpu < 32
  }

  // ---------- the parser ----------

  /** Reads a decimal number between `input` and `limit`; none when there is no digit. */
  method ParseDecimal(line: string, input: nat, limit: nat) returns (result: Option<(nat, nat)>)
    requires input <= limit <= |line|
    ensures (var number := NumberAt(line[input..limit]);
             result == if number.None? then None else Some((number.value.0, input + number.value.1)))
  {
    var p: nat, val: nat := input, 0;
    ghost var text := line[input..limit];
    while p < limit && IsDigit(line[p])
      invariant input <= p <= limit && AllDigits(text[..p - input])
      invariant val == Value(text[..p - input])
    {
      NextDigit(text, p - input);
      assert text[p - input] == line[p];
      val := val * 10 + (line[p] as int - '0' as int);
      p := p + 1;
    }
    assert p < limit ==> text[p - input] == line[p];
    hide *;
    NumberUpTo(text, p - input);
    if p == input {
      return None;
    }
    result := Some((val, p));
  }

  lemma NextDigit(text: string, k: nat)
    requires k < |text| && AllDigits(text[..k]) && IsDigit(text[k])
    ensures AllDigits(text[..k + 1]) && Value(text[..k + 1]) == Value(text[..k]) * 10 + (text[k] as int - '0' as int)
  {
    assert text[..k + 1] == text[..k] + [text[k]];
    assert text[..k + 1][..k] == text[..k];
  }

  lemma NumberUpTo(text: string, k: nat)
    requires k <= |text| && AllDigits(text[..k]) && (k < |text| ==> !IsDigit(text[k]))
    ensures NumberAt(text) == if k == 0 then None else Some((Value(text[..k]), k))
  {
    DigitsUpTo(text, k);
  }

  lemma DigitsUpTo(s: string, n: nat)
    requires n <= |s| && AllDigits(s[..n]) && (n < |s| ==> !IsDigit(s[n]))
    ensures DigitCount(s) == n
  {
    DigitsThenOther(s[..n], s[n..]);
    assert s[..n] + s[n..] == s;
  }

  lemma Slices(line: string, p: nat, i: nat)
    requires p + i <= |line|
    ensures line[p..][..i] == line[p..p + i]
    ensures p + i < |line| ==> line[p..][i + 1..] == line[p + i + 1..]
  {
  }

  lemma NextPiece(line: string, p: nat)
    requires p <= |line|
    ensures (var q := p + Find(line[p..], ',');
             Split(line[p..], ',') == [line[p..q]] + if q < |line| then Split(line[q + 1..], ',') else [])
  {
    hide *;
    Slices(line, p, Find(line[p..], ','));
    FirstPiece(line[p..], ',');
  }

  lemma FirstItem(item: string, items: seq<string>)
    ensures Cpus([item] + items) == if ItemOf(item).None? then {}
                                    else Range(ItemOf(item).value.0, ItemOf(item).value.1) + Cpus(items)
    ensures Cpus([]) == {}
  {
    assert ([item] + items)[1..] == items;
  }

  function NumberAt(text: string): Option<(nat, nat)> {
    var n := DigitCount(text);
    if n == 0 then None else Some((Value(text[..n]), n))
  }

  /** The tests of the parser, in terms of the item between `p` and `q`. */
  lemma ItemParts(line: string, p: nat, q: nat)
    requires p <= q <= |line|
    ensures (var item := line[p..q]; var first := NumberAt(item);
             if first.None? then ItemOf(item) == None
             else
               var (lo, n) := first.value;
               && n <= q - p
               && if n == q - p || line[p + n] != '-' then ItemOf(item) == Some((lo, lo))
                  else
                    var second := NumberAt(line[p + n + 1..q]);
                    ItemOf(item) == if second.None? then None else Some((lo, second.value.0)))
  {
    var item, n := line[p..q], DigitCount(line[p..q]);
    hide DigitCount, Value;
    assert n < q - p ==> item[n] == line[p + n] && item[n + 1..] == line[p + n + 1..q];
  }

  /** When `mask` and what is left from `p` on make up `goal`, they still do after the item at `p`. */
  lemma Progress(line: string, p: nat, q: nat, item: Option<(nat, nat)>, mask: set<nat>, goal: set<nat>)
    requires p <= |line| && mask + Low(CpusOf(line[p..])) == goal
    requires q == p + Find(line[p..], ',') && item == ItemOf(line[p..q])
    ensures item.None? ==> mask == goal
    ensures item.Some? ==> (mask + Low(Range(item.value.0, item.value.1)))
                           + Low(CpusOf(line[if q < |line| then q + 1 else q..])) == goal
  {
    hide *;
    NextCpus(line, p, q, item);
    if item.Some? {
      LowSplits(mask, Range(item.value.0, item.value.1), CpusOf(line[if q < |line| then q + 1 else q..]));
    } else {
      LowSplits(mask, {}, {});
    }
  }

  lemma NextCpus(line: string, p: nat, q: nat, item: Option<(nat, nat)>)
    requires p <= |line| && q == p + Find(line[p..], ',') && item == ItemOf(line[p..q])
    ensures CpusOf(line[p..]) == if item.None? then {}
                                 else Range(item.value.0, item.value.1)
                                      + CpusOf(line[if q < |line| then q + 1 else q..])
  {
    if q < |line| {
      InnerCpus(line, p, q);
    } else {
      LastCpus(line, p);
    }
    hide *;
  }

  lemma InnerCpus(line: string, p: nat, q: nat)
    requires p <= |line| && q == p + Find(line[p..], ',') < |line|
    ensures (var item := ItemOf(line[p..q]);
             CpusOf(line[p..]) == if item.None? then {}
                                  else Range(item.value.0, item.value.1) + CpusOf(line[q + 1..]))
  {
    hide *;
    NextPiece(line, p);
    CpusOfPieces(line[p..], line[p..q], Split(line[q + 1..], ','));
    CpusOfIs(line[q + 1..]);
  }

  lemma LastCpus(line: string, p: nat)
    requires p <= |line| == p + Find(line[p..], ',')
    ensures (var item := ItemOf(line[p..|line|]);
             CpusOf(line[p..]) == if item.None? then {}
                                  else Range(item.value.0, item.value.1) + CpusOf(line[|line|..]))
  {
    hide *;
    NextPiece(line, p);
    CpusOfPieces(line[p..], line[p..|line|], []);
    NoCpus(line[|line|..]);
    FirstItem("", []);
  }

  lemma CpusOfIs(s: string)
    ensures CpusOf(s) == Cpus(Split(s, ','))
  {
  }

  lemma CpusOfPieces(s: string, piece: string, more: seq<string>)
    requires Split(s, ',') == [piece] + more
    ensures CpusOf(s) == if ItemOf(piece).None? then {}
                         else Range(ItemOf(piece).value.0, ItemOf(piece).value.1) + Cpus(more)
  {
    CpusOfIs(s);
    hide *;
    FirstItem(piece, more);
  }

  lemma NoCpus(line: string)
    requires line == "" || line[0] == '\n'
    ensures CpusOf(line) == {}
  {
    assert line != "" ==> Split(line, ',')[0][0] == '\n' by { NextPiece(line, 0); assert line[0..] == line; }
  }

  lemma LowSplits(mask: set<nat>, a: set<nat>, b: set<nat>)
    ensures mask + Low(a + b) == (mask + Low(a)) + Low(b) && Low({}) == {}
  {
  }

  lemma NothingLeft(line: string, p: nat, mask: set<nat>, goal: set<nat>)
    requires p <= |line| && (p == |line| || line[p] == '\n')
    requires mask + Low(CpusOf(line[p..])) == goal
    ensures mask == goal
  {
    NoCpus(line[p..]);
    hide CpusOf;
    assert Low({}) == {};
  }

  /** Reads the item between `p` and `q`. */
  method ParseItem(line: string, p: nat, q: nat) returns (item: Option<(nat, nat)>)
    requires p <= q <= |line|
    ensures item == ItemOf(line[p..q])
  {
    hide *;
    ItemParts(line, p, q);
    var first := ParseDecimal(line, p, q);
    if first.None? {
      return None;
    }
    var (startValue, at) := first.value;
    var endValue := startValue;
    if at < q && line[at] == '-' {
      var second := ParseDecimal(line, at + 1, q);
      if second.None? {
        return None;
      }
      endValue := second.value.0;
    }
    item := Some((startValue, endValue));
  }

  class CpuList {
    var mask: Mask

    constructor ()
      ensures Members(mask) == {}
    {
      mask := NO_BITS;
    }

    method And(other: CpuList)
      modifies this
      ensures Members(mask) == old(Members(mask)) * old(Members(other.mask))
    {
      mask := Both(mask, other.mask);
    }

    method Set(index: nat)
      modifies this
      ensures Members(mask) == old(Members(mask)) + Low({index})
    {
      if index < 32 {
        mask := mask[index := true];
      }
    }

    method Count() returns (n: nat)
      ensures n == |Members(mask)| <= 32
    {
      PopCountIsCardinality(mask);
      assert Members(mask) == set cpu: nat | cpu < |mask| && mask[cpu];
      n := PopCount(mask);
    }

    /** Adds the CPUs from `lo` to `hi`. */
    method SetRange(lo: nat, hi: nat)
      modifies this
      ensures Members(mask) == old(Members(mask)) + Low(Range(lo, hi))
    {
      var val := lo;
      while val <= hi
        invariant lo <= val && (val <= hi + 1 || val == lo)
        invariant Members(mask) == old(Members(mask)) + Low(Range(lo, val - 1))
      {
        Set(val);
        val := val + 1;
      }
    }

    /** Adds the CPUs of all items of `line` before the first bad one. */
    method Parse(line: string)
      modifies this
      ensures Members(mask) == old(Members(mask)) + Low(CpusOf(line))
    {
      ghost var goal := Members(mask) + Low(CpusOf(line));
      var p: nat := 0;
      assert line[0..] == line;
      hide *;
      while p < |line| && line[p] != '\n'
        invariant p <= |line|
        invariant Members(mask) + Low(CpusOf(line[p..])) == goal
        decreases |line| - p
      {
        var q := p + Find(line[p..], ',');
        var item := ParseItem(line, p, q);
        Progress(line, p, q, item, Members(mask), goal);
        if item.None? {
          return;
        }
        var (lo, hi) := item.value;
        SetRange(lo, hi);
        p := if q < |line| then q + 1 else q;
      }
      NothingLeft(line, p, Members(mask), goal);
    }
  }

  // ---------- counting ----------

  const SYSFS_BUFFER: nat := 64

  /** What a read of the list file delivers: nothing when it fails, its first 64 characters else. */
  function Delivered(file: Option<string>): string {
    if file.None? then "" else Truncated(file.value, SYSFS_BUFFER)
  }

  /** The first 64 characters of the file, all of a shorter one. */
  lemma DeliveredExactly(content: string)
    ensures Delivered(Some(content)) == if |content| > 64 then content[..64] else content
    ensures Delivered(None) == ""
  {
  }

  method ReadFrom(file: Option<string>) returns (list: CpuList)
    ensures fresh(list) && Members(list.mask) == Low(CpusOf(Delivered(file)))
  {
    list := new CpuList();
    if file.Some? {
      list.Parse(Delivered(file));
    } else {
      NoCpus("");
    }
  }

  /** The CPUs both present and possible. */
  method GetCpuCount(present: Option<string>, possible: Option<string>) returns (n: nat)
    ensures n == |Low(CpusOf(Delivered(present))) * Low(CpusOf(Delivered(possible)))| <= 32
  {
    var list := ReadFrom(present);
    var other := ReadFrom(possible);
    list.And(other);
    n := list.Count();
  }

  /** The count the library reports: at least one, also when `/proc/cpuinfo` cannot be read. */
  method CpuCount(cpuinfo: Option<string>, present: Option<string>, possible: Option<string>) returns (n: nat)
    ensures 1 <= n <= 32 && (present.None? || possible.None? ==> n == 1)
    ensures (var both := Low(CpusOf(Delivered(present))) * Low(CpusOf(Delivered(possible)));
             n == if cpuinfo.None? || both == {} then 1 else |both|)
  {
    n := 1;
    NoCpus("");
    if cpuinfo.Some? {
      n := GetCpuCount(present, possible);
      if n == 0 {
        n := 1;
      }
    }
  }

  // ---------- laws of the text form ----------

  predicate AllGood(items: seq<string>) {
    forall i :: 0 <= i < |items| ==> ItemOf(items[i]).Some?
  }

  function ItemCpus(item: string): set<nat> {
    match ItemOf(item)
    case None => {}
    case Some((lo, hi)) => Range(lo, hi)
  }

  ghost predicate ListedByItem(items: seq<string>, cpu: nat) {
    exists i | 0 <= i < |items| :: AllGood(items[..i]) && cpu in ItemCpus(items[i])
  }

  /** A CPU is listed by one item, with no bad item up to there. */
  lemma {:induction false} CpusByItem(items: seq<string>, cpu: nat)
    ensures cpu in Cpus(items) <==> ListedByItem(items, cpu)
  {
    if items != [] && ItemOf(items[0]).Some? {
      CpusByItem(items[1..], cpu);
      LaterItems(items, cpu);
      hide ListedByItem;
    } else {
      BadFirst(items);
    }
  }

  lemma LaterItems(items: seq<string>, cpu: nat)
    requires items != [] && ItemOf(items[0]).Some?
    ensures ListedByItem(items, cpu) <==> cpu in ItemCpus(items[0]) || ListedByItem(items[1..], cpu)
  {
    hide ItemOf, ItemCpus, AllGood;
    var rest := items[1..];
    assert AllGood(items[..0]) by { GoodPrefix(items, 0); }
    if ListedByItem(items, cpu) {
      var i :| 0 <= i < |items| && AllGood(items[..i]) && cpu in ItemCpus(items[i]);
      if i > 0 {
        GoodPrefix(items, i - 1);
        assert rest[i - 1] == items[i];
      }
    }
    if ListedByItem(rest, cpu) {
      var i :| 0 <= i < |rest| && AllGood(rest[..i]) && cpu in ItemCpus(rest[i]);
      GoodPrefix(items, i);
      assert items[i + 1] == rest[i];
    }
  }

  lemma GoodPrefix(items: seq<string>, i: nat)
    requires items != [] && ItemOf(items[0]).Some? && i < |items|
    ensures AllGood(items[1..][..i]) <==> AllGood(items[..i + 1])
    ensures AllGood(items[..0])
  {
    hide ItemOf;
    assert items[..i + 1] == [items[0]] + items[1..][..i];
  }

  lemma BadFirst(items: seq<string>)
    requires items == [] || ItemOf(items[0]).None?
    ensures forall i | 0 <= i < |items| && AllGood(items[..i]) :: ItemCpus(items[i]) == {}
  {
    forall i | 0 < i < |items|
      ensures !AllGood(items[..i])
    {
      assert items[..i][0] == items[0];
    }
  }

  lemma {:induction false} CpusAppend(xs: seq<string>, ys: seq<string>)
    ensures Cpus(xs + ys) == if AllGood(xs) then Cpus(xs) + Cpus(ys) else Cpus(xs)
  {
    if xs == [] {
      assert xs + ys == ys;
    } else {
      CpusAppend(xs[1..], ys);
      assert xs + ys == [xs[0]] + (xs[1..] + ys) && xs == [xs[0]] + xs[1..];
      FirstItem(xs[0], xs[1..] + ys);
      FirstItem(xs[0], xs[1..]);
      AllGoodFirst(xs);
    }
  }

  lemma AllGoodFirst(xs: seq<string>)
    requires xs != []
    ensures AllGood(xs) <==> ItemOf(xs[0]).Some? && AllGood(xs[1..])
  {
    hide ItemOf;
    forall i | 0 < i < |xs|
      ensures xs[i] == xs[1..][i - 1]
    {
    }
  }

  lemma {:induction false} SplitJoined(a: string, b: string)
    ensures Split(a + "," + b, ',') == Split(a, ',') + Split(b, ',')
    decreases |a|
  {
    var i := Find(a, ',');
    if i == |a| {
      JoinedWhole(a, b);
    } else {
      AroundComma(a, i);
      hide *;
      SplitJoined(a[i + 1..], b);
      SplitJoinedAfter(a[..i], a[i + 1..], b);
    }
  }

  lemma JoinedWhole(a: string, b: string)
    requires ',' !in a
    ensures Split(a + "," + b, ',') == Split(a, ',') + Split(b, ',')
  {
    hide Split;
    SplitAt(a, b, ',');
    SplitNone(a, ',');
  }

  lemma AroundComma(a: string, i: nat)
    requires i == Find(a, ',') < |a|
    ensures a == a[..i] + "," + a[i + 1..] && ',' !in a[..i]
  {
    var c := a[i];
    assert c == ',';
    hide *;
    Around(a, i);
  }

  lemma Around(a: string, i: nat)
    requires i < |a|
    ensures a == a[..i] + [a[i]] + a[i + 1..]
  {
  }

  lemma SplitJoinedAfter(first: string, rest: string, b: string)
    requires ',' !in first && Split(rest + "," + b, ',') == Split(rest, ',') + Split(b, ',')
    ensures Split((first + "," + rest) + "," + b, ',') == Split(first + "," + rest, ',') + Split(b, ',')
  {
    hide Split;
    SplitAt(first, rest, ',');
    SplitAt(first, rest + "," + b, ',');
    assert (first + "," + rest) + "," + b == first + "," + (rest + "," + b);
  }

  /** Two lists with a comma between them are their union, unless a bad item of the first one hides
      the second. */
  lemma CpusOfJoined(a: string, b: string)
    ensures CpusOf(a + "," + b) == if AllGood(Split(a, ',')) then CpusOf(a) + CpusOf(b) else CpusOf(a)
  {
    SplitJoined(a, b);
    CpusAppend(Split(a, ','), Split(b, ','));
  }

  // ---------- printing ----------

  datatype Entry = One(cpu: nat) | Span(lo: nat, hi: nat)

  function Printed(e: Entry): string {
    match e
    case One(cpu) => Decimal(cpu)
    case Span(lo, hi) => Decimal(lo) + "-" + Decimal(hi)
  }

  function Listed(e: Entry): set<nat> {
    match e
    case One(cpu) => {cpu}
    case Span(lo, hi) => Range(lo, hi)
  }

  function PrintedList(entries: seq<Entry>): string
    requires entries != []
  {
    if |entries| == 1 then Printed(entries[0]) else Printed(entries[0]) + "," + PrintedList(entries[1..])
  }

  function AllListed(entries: seq<Entry>): set<nat> {
    if entries == [] then {} else Listed(entries[0]) + AllListed(entries[1..])
  }

  lemma ItemOfNumber(s: string, tail: string)
    requires s != "" && AllDigits(s) && (tail == "" || !(IsDigit(tail[0]) || tail[0] == '-'))
    ensures ItemOf(s + tail) == Some((Value(s), Value(s)))
  {
    DigitsThenOther(s, tail);
    hide DigitCount, Value;
  }

  lemma ItemOfSpan(s: string, t: string, tail: string)
    requires s != "" && AllDigits(s) && t != "" && AllDigits(t) && (tail == "" || !IsDigit(tail[0]))
    ensures ItemOf(s + ("-" + (t + tail))) == Some((Value(s), Value(t)))
  {
    var rest := "-" + (t + tail);
    var item := s + rest;
    DigitsThenOther(s, rest);
    DigitsThenOther(t, tail);
    SpanParts(s, t + tail);
    ItemWithDash(item, |s|);
    hide *;
  }

  lemma SpanParts(s: string, t: string)
    ensures (var item := s + ("-" + t); item[|s|] == '-' && item[|s| + 1..] == t && item[..|s|] == s)
  {
  }

  lemma ItemWithDash(item: string, n: nat)
    requires 0 < n < |item| && DigitCount(item) == n && item[n] == '-'
    ensures (var tail := item[n + 1..]; var m := DigitCount(tail);
             ItemOf(item) == if m == 0 then None else Some((Value(item[..n]), Value(tail[..m]))))
  {
    hide DigitCount, Value;
  }

  lemma PrintedItem(e: Entry, tail: string)
    requires tail in {"", "\n"}
    ensures ItemOf(Printed(e) + tail) == Some(if e.One? then (e.cpu, e.cpu) else (e.lo, e.hi))
    ensures ',' !in Printed(e) + tail
  {
    hide ItemOf, Decimal;
    match e
    case One(cpu) =>
      ItemOfNumber(Decimal(cpu), tail);
    case Span(lo, hi) =>
      ItemOfSpan(Decimal(lo), Decimal(hi), tail);
      assert Printed(e) + tail == Decimal(lo) + ("-" + (Decimal(hi) + tail));
  }

  lemma ListedIsRange(e: Entry)
    ensures Listed(e) == if e.One? then Range(e.cpu, e.cpu) else Range(e.lo, e.hi)
  {
  }

  /** A printed list, with or without a final newline, is read as the union of its entries. */
  lemma {:induction false} PrintThenParse(entries: seq<Entry>, tail: string)
    requires entries != [] && tail in {"", "\n"}
    ensures CpusOf(PrintedList(entries) + tail) == AllListed(entries)
    decreases |entries|
  {
    var first, rest := entries[0], entries[1..];
    if rest == [] {
      LastEntry(first, tail);
    } else {
      InnerEntry(first, PrintedList(rest) + tail);
      assert PrintedList(entries) + tail == Printed(first) + "," + (PrintedList(rest) + tail);
      hide Printed, PrintedList, CpusOf, Listed;
      PrintThenParse(rest, tail);
    }
  }

  lemma LastEntry(e: Entry, tail: string)
    requires tail in {"", "\n"}
    ensures CpusOf(Printed(e) + tail) == Listed(e)
  {
    ListedIsRange(e);
    hide *;
    PrintedItem(e, tail);
    SplitNone(Printed(e) + tail, ',');
    assert [Printed(e) + tail] == [Printed(e) + tail] + [];
    CpusOfPieces(Printed(e) + tail, Printed(e) + tail, []);
    FirstItem("", []);
  }

  lemma InnerEntry(e: Entry, more: string)
    ensures CpusOf(Printed(e) + "," + more) == Listed(e) + CpusOf(more)
  {
    ListedIsRange(e);
    assert Printed(e) + "" == Printed(e);
    hide *;
    PrintedItem(e, "");
    SplitAt(Printed(e), more, ',');
    CpusOfPieces(Printed(e) + "," + more, Printed(e), Split(more, ','));
    CpusOfIs(more);
  }

  /** An item is bad exactly when it does not begin with a digit, or its first number is followed by
      a dash without a number. */
  lemma BadItemExactly(item: string)
    ensures ItemOf(item) == None <==>
              (item == "" || !IsDigit(item[0]))
              || exists n | 0 < n < |item| :: AllDigits(item[..n]) && item[n] == '-' && (n + 1 == |item| || !IsDigit(item[n + 1]))
  {
    var n := DigitCount(item);
    if exists k | 0 < k < |item| :: AllDigits(item[..k]) && item[k] == '-' && (k + 1 == |item| || !IsDigit(item[k + 1])) {
      var k :| 0 < k < |item| && AllDigits(item[..k]) && item[k] == '-' && (k + 1 == |item| || !IsDigit(item[k + 1]));
      DigitsUpTo(item, k);
      DigitsUpTo(item[k + 1..], 0);
    }
    if 0 < n < |item| && item[n] == '-' && DigitCount(item[n + 1..]) == 0 {
      assert AllDigits(item[..n]);
      assert n + 1 < |item| ==> item[n + 1..][0] == item[n + 1];
    }
  }

  /** The count of two printed lists that fit the read buffer. */
  lemma CountOfPrinted(present: seq<Entry>, possible: seq<Entry>, tail: string)
    requires present != [] && possible != [] && tail in {"", "\n"}
    requires |PrintedList(present) + tail| <= SYSFS_BUFFER && |PrintedList(possible) + tail| <= SYSFS_BUFFER
    ensures (var a, b := Delivered(Some(PrintedList(present) + tail)), Delivered(Some(PrintedList(possible) + tail));
             Low(CpusOf(a)) * Low(CpusOf(b)) == Low(AllListed(present) * AllListed(possible)))
  {
    PrintThenParse(present, tail);
    PrintThenParse(possible, tail);
  }
}
