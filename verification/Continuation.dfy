/** A scenario file may end a line with a backslash to go on with it on the next line. The runner
    removes these in place before it inserts the text into its buffer. */
module Continuation {
  import opened Text

  /** Before position `k`: is a backslash waiting for its line to end? */
  predicate Waiting(s: string, k: nat)
    requires k <= |s|
  {
    k > 0 && (s[k - 1] == '\\' || (s[k - 1] != '\n' && Waiting(s, k - 1)))
  }

  function Continued(s: string): (r: string)
    ensures |r| == |s|
  {
    seq(|s|, k requires 0 <= k < |s| =>
      if s[k] == '\\' || (s[k] == '\n' && Waiting(s, k)) then ' ' else s[k])
  }

  /** The pass over the first `read` characters of the file buffer. */
  method RemoveContinuations(cmdbuf: array<char>, read: nat)
    requires read <= cmdbuf.Length
    modifies cmdbuf
    ensures cmdbuf[..read] == Continued(old(cmdbuf[..read]))
    ensures cmdbuf[read..] == old(cmdbuf[read..])
  {
    ghost var text := cmdbuf[..read];
    var removeNewline := false;
    var i := 0;
    while i < read
      invariant i <= read
      invariant removeNewline == Waiting(text, i)
      invariant cmdbuf[..i] == Continued(text)[..i]
      invariant cmdbuf[i..] == old(cmdbuf[i..])
    {
      assert cmdbuf[i] == cmdbuf[i..][0] == text[i];
      if cmdbuf[i] == '\\' {
        cmdbuf[i] := ' ';
        removeNewline := true;
      } else if cmdbuf[i] == '\n' {
        if removeNewline {
          cmdbuf[i] := ' ';
          removeNewline := false;
        }
      }
      i := i + 1;
    }
  }

  /** `Waiting` in one look: a backslash since the last newline. */
  lemma {:induction false} WaitingIsBackslashOnLine(s: string, k: nat)
    requires k <= |s|
    ensures Waiting(s, k) <==> exists b | 0 <= b < k :: s[b] == '\\' && '\n' !in s[b..k]
  {
    if k > 0 {
      WaitingIsBackslashOnLine(s, k - 1);
      forall b | 0 <= b < k
        ensures '\n' !in s[b..k] <==> '\n' !in s[b..k - 1] && s[k - 1] != '\n'
      {
        assert s[b..k] == s[b..k - 1] + [s[k - 1]];
      }
      if s[k - 1] == '\\' {
        assert s[k - 1] == '\\' && '\n' !in s[k - 1..k];
      }
    }
  }

  /** What the pass does to every character: the length stays, no backslash is left, and a newline
      becomes a blank exactly when a backslash stands between the previous newline and it. */
  lemma ContinuedCharacters(s: string)
    ensures |Continued(s)| == |s| && '\\' !in Continued(s)
    ensures forall k :: 0 <= k < |s| && s[k] == '\n' ==>
              (Continued(s)[k] == ' ' <==> exists b | 0 <= b < k :: s[b] == '\\' && '\n' !in s[b..k])
    ensures forall k :: 0 <= k < |s| && s[k] == '\n' ==> Continued(s)[k] in {'\n', ' '}
    ensures forall k :: 0 <= k < |s| && s[k] != '\n' ==> Continued(s)[k] == if s[k] == '\\' then ' ' else s[k]
  {
    forall k | 0 <= k < |s|
      ensures Waiting(s, k) <==> exists b | 0 <= b < k :: s[b] == '\\' && '\n' !in s[b..k]
    {
      WaitingIsBackslashOnLine(s, k);
    }
  }

  // ---------- in terms of lines ----------

  function Blanked(line: string): (r: string)
    ensures |r| == |line|
  {
    seq(|line|, k requires 0 <= k < |line| => if line[k] == '\\' then ' ' else line[k])
  }

  /** Every line that holds a backslash is joined, over a blank, with the line after it. */
  function Joined(lines: seq<string>): (r: seq<string>)
    requires lines != []
    ensures r != []
  {
    if |lines| == 1 then [Blanked(lines[0])]
    else
      var rest := Joined(lines[1..]);
      if '\\' in lines[0] then [Blanked(lines[0]) + " " + rest[0]] + rest[1..]
      else [Blanked(lines[0])] + rest
  }

  lemma {:induction false} WaitingInLine(s: string, k: nat)
    requires k <= |s| && '\n' !in s[..k]
    ensures Waiting(s, k) <==> '\\' in s[..k]
  {
    if k > 0 {
      assert s[..k] == s[..k - 1] + [s[k - 1]];
      WaitingInLine(s, k - 1);
    }
  }

  /** Nothing before a newline matters after it. */
  lemma {:induction false} WaitingAfterLine(line: string, rest: string, k: nat)
    requires k <= |rest|
    ensures Waiting(line + "\n" + rest, |line| + 1 + k) == Waiting(rest, k)
  {
    if k > 0 {
      WaitingAfterLine(line, rest, k - 1);
    }
  }

  lemma ContinuedLine(line: string)
    requires '\n' !in line
    ensures Continued(line) == Blanked(line)
  {
  }

  lemma ContinuedFirstLine(line: string, rest: string)
    requires '\n' !in line
    ensures Continued(line + "\n" + rest)
         == Blanked(line) + [if '\\' in line then ' ' else '\n'] + Continued(rest)
  {
    var s := line + "\n" + rest;
    assert s[..|line|] == line;
    WaitingInLine(s, |line|);
    forall k | 0 <= k < |rest|
      ensures Continued(s)[|line| + 1 + k] == Continued(rest)[k]
    {
      WaitingAfterLine(line, rest, k);
    }
  }

  lemma BlankedKeepsLine(line: string)
    requires '\n' !in line
    ensures '\n' !in Blanked(line)
  {
  }

  lemma SplitLonger(a: string, b: string, c: char)
    requires c !in a
    ensures var pieces := Split(b, c);
            Split(a + b, c) == [a + pieces[0]] + pieces[1..]
  {
    hide *;
    FindAfter(a, b, c);
    FirstPiece(a + b, c);
    FirstPiece(b, c);
    SumSlices(a, b, Find(b, c));
  }

  lemma SumSlices(a: string, b: string, i: nat)
    requires i <= |b|
    ensures (a + b)[..|a| + i] == a + b[..i]
    ensures i < |b| ==> (a + b)[|a| + i + 1..] == b[i + 1..]
  {
  }

  /** The lines of the text after the pass are the lines before it, joined. */
  lemma {:induction false} LinesOfContinued(s: string)
    ensures Split(Continued(s), '\n') == Joined(Split(s, '\n'))
    decreases |s|
  {
    var i := Find(s, '\n');
    if i == |s| {
      ContinuedLine(s);
      BlankedKeepsLine(s);
      SplitNone(Blanked(s), '\n');
    } else {
      var line, rest := s[..i], s[i + 1..];
      assert s == line + "\n" + rest;
      LinesOfContinued(rest);
      ContinuedFirstLine(line, rest);
      BlankedKeepsLine(line);
      JoinedLine(line, rest);
    }
  }

  lemma JoinedLine(line: string, rest: string)
    requires '\n' !in line && '\n' !in Blanked(line)
    requires Split(Continued(rest), '\n') == Joined(Split(rest, '\n'))
    ensures Split(Blanked(line) + [if '\\' in line then ' ' else '\n'] + Continued(rest), '\n')
         == Joined([line] + Split(rest, '\n'))
  {
    hide Blanked, Continued;
    assert ([line] + Split(rest, '\n'))[1..] == Split(rest, '\n');
    if '\\' in line {
      SplitLonger(Blanked(line) + " ", Continued(rest), '\n');
    } else {
      SplitAt(Blanked(line), Continued(rest), '\n');
    }
  }
}
