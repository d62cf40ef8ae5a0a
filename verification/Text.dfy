/** C string routines the modelled code relies on, as functions on sequences of characters, and
    decimal numbers as text. */
module Text {
  import opened Wrappers

  // ---------- searching ----------

  /** `strchr`/`memchr`: index of the first `c`, or the length when there is none. */
  function Find(s: string, c: char): (i: nat)
    ensures i <= |s| && (i < |s| ==> s[i] == c)
    ensures forall j :: 0 <= j < i ==> s[j] != c
  {
    if s == [] || s[0] == c then 0 else 1 + Find(s[1..], c)
  }

  predicate OccursAt(s: string, sub: string, i: nat) {
    i + |sub| <= |s| && s[i..i + |sub|] == sub
  }

  /** `strstr`/`memmem`/`tsk_strindexOf`: the first occurrence of `sub` at or after `from`. */
  function FindFrom(s: string, sub: string, from: nat): (r: Option<nat>)
    requires from <= |s|
    ensures r.Some? ==> from <= r.value && r.value + |sub| <= |s| && OccursAt(s, sub, r.value)
    ensures sub == "" ==> r == Some(from)
    ensures r.Some? ==> forall j :: from <= j < r.value ==> !OccursAt(s, sub, j)
    ensures r.None? ==> forall j :: from <= j ==> !OccursAt(s, sub, j)
    decreases |s| - from
  {
    if OccursAt(s, sub, from) then Some(from)
    else if from == |s| then None
    else FindFrom(s, sub, from + 1)
  }

  /** What a read into a buffer of `size` characters delivers. */
  function Truncated(s: string, size: nat): (r: string)
    ensures r <= s && |r| == if |s| < size then |s| else size
  {
    if |s| <= size then s else s[..size]
  }

  /** What is found in a prefix is found in the whole. */
  lemma {:induction false} FindInPrefix(s: string, t: string, c: char)
    requires c in s
    ensures Find(s + t, c) == Find(s, c) < |s|
  {
    if s[0] != c {
      assert (s + t)[1..] == s[1..] + t;
      FindInPrefix(s[1..], t, c);
    }
  }

  lemma {:induction false} FindAfter(s: string, t: string, c: char)
    requires c !in s
    ensures Find(s + t, c) == |s| + Find(t, c)
  {
    if s == [] {
      assert s + t == t;
    } else {
      assert (s + t)[1..] == s[1..] + t;
      FindAfter(s[1..], t, c);
    }
  }

  /** Searching a longer text: the same place, or somewhere in what was added. */
  lemma FindOver(s: string, t: string, c: char)
    ensures if Find(s, c) < |s| then Find(s + t, c) == Find(s, c) else Find(s + t, c) >= |s|
  {
    if c in s {
      FindInPrefix(s, t, c);
    } else {
      FindAfter(s, t, c);
    }
  }

  // ---------- splitting ----------

  /** The pieces between separators; there is always at least one. */
  function Split(s: string, c: char): (pieces: seq<string>)
    ensures pieces != []
  {
    var i := Find(s, c);
    if i == |s| then [s] else [s[..i]] + Split(s[i + 1..], c)
  }

  lemma FirstPiece(s: string, c: char)
    ensures Split(s, c) == [s[..Find(s, c)]] + if Find(s, c) < |s| then Split(s[Find(s, c) + 1..], c) else []
  {
    assert s[..|s|] == s;
  }

  lemma SplitAt(a: string, b: string, c: char)
    requires c !in a
    ensures Split(a + [c] + b, c) == [a] + Split(b, c)
  {
    var s := a + [c] + b;
    assert s == a + ([c] + b);
    FindAfter(a, [c] + b, c);
    assert s[|a| + 1..] == b;
  }

  lemma SplitNone(a: string, c: char)
    requires c !in a
    ensures Split(a, c) == [a]
  {
  }

  // ---------- letters ----------

  function ToLower(c: char): char {
    if 'A' <= c <= 'Z' then (c as int + 32) as char else c
  }

  /** `tsk_stricmp(s, t) == 0`. */
  predicate EqualIgnoringCase(s: string, t: string) {
    |s| == |t| && forall i :: 0 <= i < |s| ==> ToLower(s[i]) == ToLower(t[i])
  }

  /** Equal, or the two cases of a letter. */
  predicate SameLetter(c: char, d: char) {
    c == d || (c as int + 32 == d as int && c in "ABCDEFGHIJKLMNOPQRSTUVWXYZ")
    || (d as int + 32 == c as int && d in "ABCDEFGHIJKLMNOPQRSTUVWXYZ")
  }

  lemma LettersAgree(c: char, d: char)
    ensures ToLower(c) == ToLower(d) <==> SameLetter(c, d)
  {
    CapitalLetters(c);
    CapitalLetters(d);
  }

  lemma CapitalLetters(c: char)
    ensures c in "ABCDEFGHIJKLMNOPQRSTUVWXYZ" <==> 65 <= c as int <= 90
  {
    var letters := "ABCDEFGHIJKLMNOPQRSTUVWXYZ";
    if 65 <= c as int <= 90 {
      assert letters[c as int - 65] == c;
    }
  }

  /** Texts agree when their letters do. */
  lemma EqualIgnoringCaseExactly(s: string, t: string)
    ensures EqualIgnoringCase(s, t) <==> |s| == |t| && forall i :: 0 <= i < |s| ==> SameLetter(s[i], t[i])
  {
    forall i | 0 <= i < |s| && |s| == |t|
      ensures ToLower(s[i]) == ToLower(t[i]) <==> SameLetter(s[i], t[i])
    {
      LettersAgree(s[i], t[i]);
    }
  }

  predicate IsSpace(c: char) {
    c == ' ' || ('\t' <= c <= '\r')
  }

  predicate IsDigit(c: char) {
    '0' <= c <= '9'
  }

  // ---------- decimal numbers ----------

  predicate AllDigits(s: string) {
    forall i :: 0 <= i < |s| ==> IsDigit(s[i])
  }

  /** Length of the longest prefix of digits. */
  function DigitCount(s: string): (n: nat)
    ensures n <= |s| && AllDigits(s[..n]) && (n < |s| ==> !IsDigit(s[n]))
  {
    if s == [] || !IsDigit(s[0]) then 0
    else
      var n := DigitCount(s[1..]);
      assert s[..n + 1] == [s[0]] + s[1..][..n];
      n + 1
  }

  function Value(s: string): nat
    requires AllDigits(s)
  {
    if s == [] then 0
    else Value(s[..|s| - 1]) * 10 + (s[|s| - 1] as int - '0' as int)
  }

  /** `sprintf("%lld")` of a non-negative number. */
  function Decimal(n: nat): (s: string)
    ensures s != [] && AllDigits(s) && Value(s) == n
  {
    var digit := [('0' as int + n % 10) as char];
    if n < 10 then digit
    else
      var s := Decimal(n / 10) + digit;
      assert s[..|s| - 1] == Decimal(n / 10);
      s
  }

  /** Digits followed by something else are exactly the leading digits. */
  lemma {:induction false} DigitsThenOther(s: string, t: string)
    requires AllDigits(s) && (t == [] || !IsDigit(t[0]))
    ensures DigitCount(s + t) == |s| && (s + t)[..|s|] == s
  {
    if s == [] {
      assert s + t == t;
    } else {
      assert (s + t)[1..] == s[1..] + t;
      DigitsThenOther(s[1..], t);
    }
  }

  /** `atoi`: blanks, a sign, digits; anything after them is ignored, and no digits mean zero. */
  function Atoi(s: string): int {
    if s != [] && IsSpace(s[0]) then Atoi(s[1..])
    else if s != [] && s[0] == '-' then -(Value(s[1..][..DigitCount(s[1..])]) as int)
    else if s != [] && s[0] == '+' then Value(s[1..][..DigitCount(s[1..])])
    else Value(s[..DigitCount(s)])
  }

  lemma AtoiOfDecimal(n: nat)
    ensures Atoi(Decimal(n)) == n
  {
    var s := Decimal(n);
    DigitsThenOther(s, []);
    assert s + [] == s && s[..|s|] == s;
    assert IsDigit(s[0]);
  }

  // ---------- laws, in terms of the characters ----------

  lemma SpacesExactly(c: char)
    ensures IsSpace(c) <==> c as int in {9, 10, 11, 12, 13, 32}
  {
  }

  lemma DigitsExactly(c: char)
    ensures IsDigit(c) <==> c in "0123456789"
    ensures IsDigit(c) ==> "0123456789"[c as int - 48] == c
  {
    var digits := "0123456789";
    if 48 <= c as int <= 57 {
      assert digits[c as int - 48] == c;
    }
  }

  /** Numbers are decimal: a further digit counts ones, the ones before count ten times as much. */
  lemma OneMoreDigit(s: string, d: nat)
    requires AllDigits(s) && d < 10
    ensures (var longer := s + ["0123456789"[d]]; AllDigits(longer) && Value(longer) == 10 * Value(s) + d)
    ensures Value("") == 0
  {
    var c := "0123456789"[d];
    assert c as int == 48 + d;
    assert (s + [c])[..|s|] == s;
  }

  /** Printing has no leading zeros. */
  lemma {:induction false} NoLeadingZero(n: nat)
    ensures n > 0 ==> Decimal(n)[0] != '0'
    ensures Decimal(0) == "0"
  {
    if n >= 10 {
      NoLeadingZero(n / 10);
    }
  }

  predicate Signed(sign: string, digits: string, rest: string) {
    && sign in {"", "-", "+"} && AllDigits(digits) && (rest == "" || !IsDigit(rest[0]))
    && (sign == "" && digits == "" && rest != "" ==> !IsSpace(rest[0]) && rest[0] != '-' && rest[0] != '+')
  }

  /** Blanks, a sign, digits, anything else: the number is that of the digits, with the sign. */
  lemma {:induction false} AtoiReads(blanks: string, sign: string, digits: string, rest: string)
    requires (forall i :: 0 <= i < |blanks| ==> IsSpace(blanks[i])) && Signed(sign, digits, rest)
    ensures Atoi(blanks + (sign + (digits + rest))) == if sign == "-" then -(Value(digits) as int) else Value(digits)
  {
    var number := sign + (digits + rest);
    if blanks == "" {
      assert blanks + number == number;
      AtoiOfNumber(sign, digits, rest);
    } else {
      assert (blanks + number)[1..] == blanks[1..] + number;
      AtoiReads(blanks[1..], sign, digits, rest);
    }
  }

  lemma AtoiOfNumber(sign: string, digits: string, rest: string)
    requires Signed(sign, digits, rest)
    ensures Atoi(sign + (digits + rest)) == if sign == "-" then -(Value(digits) as int) else Value(digits)
  {
    var tail := digits + rest;
    DigitsThenOther(digits, rest);
    if sign == "" {
      assert sign + tail == tail;
      assert digits != "" ==> IsDigit(tail[0]);
    } else {
      assert (sign + tail)[1..] == tail && (sign + tail)[0] == sign[0];
    }
    hide Value, DigitCount, AllDigits;
  }
}
