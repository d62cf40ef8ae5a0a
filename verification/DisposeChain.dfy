/** Disposing a proxy of a class with base classes: every level of the hierarchy has a pointer of its
    own, all share one ownership flag, and the `Dispose` of a level ends with the one of its base. */
module DisposeChain {

  /** A call of a native delete function: the level whose function it is, and what it was given. */
  datatype Deletion = Deletion(level: nat, handle: int)

  predicate AllNull(handles: seq<int>) {
    forall i :: 0 <= i < |handles| ==> handles[i] == 0
  }

  /** The most derived level with a pointer, counted from `level` towards the root. */
  function FirstWithHandle(handles: seq<int>, level: nat): (r: nat)
    requires level <= |handles|
    ensures level <= r <= |handles| && (r < |handles| ==> handles[r] != 0)
    ensures forall i :: level <= i < r ==> handles[i] == 0
    decreases |handles| - level
  {
    if level == |handles| || handles[level] != 0 then level else FirstWithHandle(handles, level + 1)
  }

  /** A proxy. Level 0 is the most derived class, the last level the root; a null pointer is 0. */
  class Proxy {
    var handles: seq<int>
    var own: bool
    /** The native deletes so far. */
    var deletions: seq<Deletion>

    constructor (handles: seq<int>, own: bool)
      ensures this.handles == handles && this.own == own && deletions == []
    {
      this.handles, this.own, deletions := handles, own, [];
    }

    /** `Dispose` of one level. The object is deleted at the first level that still has a pointer, if
        the proxy owns it. */
    method DisposeFrom(level: nat)
      requires level < |handles|
      modifies this
      ensures |handles| == |old(handles)| && handles[..level] == old(handles)[..level] && AllNull(handles[level..])
      ensures (var first := FirstWithHandle(old(handles), level);
               if old(own) && first < |old(handles)|
               then !own && deletions == old(deletions) + [Deletion(first, old(handles)[first])]
               else own == old(own) && deletions == old(deletions))
      decreases |handles| - level
    {
      if handles[level] != 0 {
        if own {
          own := false;
          deletions := deletions + [Deletion(level, handles[level])];
        }
        handles := handles[level := 0];
      }
      if level + 1 < |handles| {
        DisposeFrom(level + 1);
        assert handles[..level] == handles[..level + 1][..level];
        forall i | level <= i < |handles|
          ensures handles[i] == 0
        {
          if i == level {
            assert handles[i] == handles[..level + 1][i];
          } else {
            assert handles[i] == handles[level + 1..][i - level - 1];
          }
        }
      }
    }

    method Dispose()
      requires handles != []
      modifies this
      ensures Disposed(old(handles), old(own), old(deletions), handles, own, deletions)
    {
      DisposeFrom(0);
      assert handles[0..] == handles;
    }

    /** Any number of calls. */
    method DisposeTimes(n: nat)
      requires handles != []
      modifies this
      ensures n > 0 ==> Disposed(old(handles), old(own), old(deletions), handles, own, deletions)
      ensures n == 0 ==> handles == old(handles) && own == old(own) && deletions == old(deletions)
    {
      var i := 0;
      while i < n
        invariant i <= n && |handles| == |old(handles)|
        invariant i > 0 ==> Disposed(old(handles), old(own), old(deletions), handles, own, deletions)
        invariant i == 0 ==> handles == old(handles) && own == old(own) && deletions == old(deletions)
      {
        Dispose();
        i := i + 1;
      }
    }
  }

  /** What a dispose does: all pointers null; one delete, at the most derived level that had a
      pointer, exactly when the proxy owned the object and had one; the flag is down unless nothing
      could be deleted. */
  predicate Disposed(handles: seq<int>, own: bool, deletions: seq<Deletion>,
                     handles': seq<int>, own': bool, deletions': seq<Deletion>)
  {
    && |handles'| == |handles| && AllNull(handles')
    && (var first := FirstWithHandle(handles, 0);
        if own && first < |handles| then !own' && deletions' == deletions + [Deletion(first, handles[first])]
        else own' == own && deletions' == deletions)
  }

  /** A second dispose changes nothing, whatever the first one did. */
  lemma DisposedTwice(h0: seq<int>, o0: bool, d0: seq<Deletion>, h1: seq<int>, o1: bool, d1: seq<Deletion>,
                      h2: seq<int>, o2: bool, d2: seq<Deletion>)
    requires Disposed(h0, o0, d0, h1, o1, d1) && Disposed(h1, o1, d1, h2, o2, d2)
    ensures h2 == h1 && o2 == o1 && d2 == d1
    ensures Disposed(h0, o0, d0, h2, o2, d2)
  {
    assert FirstWithHandle(h1, 0) == |h1|;
    assert forall i :: 0 <= i < |h1| ==> h2[i] == h1[i];
  }

  /** A proxy is built with the same native object behind every level. The first dispose then deletes
      it exactly if it is owned, and at the most derived level. */
  lemma ConsistentProxy(handles: seq<int>, own: bool, handles': seq<int>, own': bool, deletions': seq<Deletion>)
    requires handles != [] && (forall i :: 0 <= i < |handles| ==> handles[i] != 0)
    requires Disposed(handles, own, [], handles', own', deletions')
    ensures deletions' == if own then [Deletion(0, handles[0])] else []
    ensures !own'
  {
  }
}
