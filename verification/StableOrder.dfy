/** The ordered store: a multiset of log packages compared by timestamp only, ties in insertion order. */
module StableOrder {
  import opened LogPackages
  import opened Seqs
  import opened Timestamps

  predicate Before(a: LogPackage, b: LogPackage)
  {
    Less(a.timestamp, b.timestamp)
  }

  ghost predicate Sorted(s: seq<LogPackage>)
  {
    forall i, j :: 0 <= i < j < |s| ==> !Before(s[j], s[i])
  }

  /** How many leading elements are not after `t`: the place of upper_bound. */
  function UpperBound(s: seq<LogPackage>, t: Timespec): (n: nat)
    ensures n <= |s|
  {
    if s == [] || Less(t, s[0].timestamp) then 0 else 1 + UpperBound(s[1..], t)
  }

  /** multiset::insert puts an element behind the last one it is not before. */
  function Insert(s: seq<LogPackage>, p: LogPackage): seq<LogPackage>
  {
    s[..UpperBound(s, p.timestamp)] + [p] + s[UpperBound(s, p.timestamp)..]
  }

  lemma {:induction false} UpperBoundSplits(s: seq<LogPackage>, t: Timespec)
    requires Sorted(s)
    ensures forall i :: 0 <= i < UpperBound(s, t) ==> !Less(t, s[i].timestamp)
    ensures forall i :: UpperBound(s, t) <= i < |s| ==> Less(t, s[i].timestamp)
  {
    if s != [] && !Less(t, s[0].timestamp) {
      UpperBoundSplits(s[1..], t);
      assert forall i :: 1 <= i < |s| ==> s[i] == s[1..][i - 1];
    } else if s != [] {
      forall i | 0 <= i < |s|
        ensures Less(t, s[i].timestamp)
      {
        assert i > 0 ==> !Before(s[i], s[0]);
      }
    }
  }

  lemma InsertAdds(s: seq<LogPackage>, p: LogPackage)
    ensures multiset(Insert(s, p)) == multiset(s) + multiset{p}
  {
    var k := UpperBound(s, p.timestamp);
    assert s == s[..k] + s[k..];
  }

  lemma InsertKeepsSorted(s: seq<LogPackage>, p: LogPackage)
    requires Sorted(s)
    ensures Sorted(Insert(s, p))
  {
    UpperBoundSplits(s, p.timestamp);
  }

  lemma {:induction false} UpperBoundBehind(out: seq<LogPackage>, s: seq<LogPackage>, t: Timespec)
    requires forall i :: 0 <= i < |out| ==> !Less(t, out[i].timestamp)
    ensures UpperBound(out + s, t) == |out| + UpperBound(s, t)
  {
    if out == [] {
      assert out + s == s;
    } else {
      assert (out + s)[1..] == out[1..] + s;
      UpperBoundBehind(out[1..], s, t);
    }
  }

  /** An element that is before none of the leading ones is inserted behind them. */
  lemma InsertBehind(out: seq<LogPackage>, s: seq<LogPackage>, p: LogPackage)
    requires forall i :: 0 <= i < |out| ==> !Before(p, out[i])
    ensures Insert(out + s, p) == out + Insert(s, p)
  {
    UpperBoundBehind(out, s, p.timestamp);
    hide UpperBound;
    var k := UpperBound(s, p.timestamp);
    assert (out + s)[..|out| + k] == out + s[..k] && (out + s)[|out| + k..] == s[k..];
  }

  // ----- what a stable sort is -------------------------------------------------------------

  /** Inserting one after another. */
  function StableSort(s: seq<LogPackage>): seq<LogPackage>
  {
    if s == [] then [] else Insert(StableSort(s[..|s| - 1]), s[|s| - 1])
  }

  /** The elements with one timestamp, in their order. */
  function At(t: Timespec, s: seq<LogPackage>): seq<LogPackage>
  {
    Filter((p: LogPackage) => p.timestamp == t, s)
  }

  lemma {:induction false} NoneAt(t: Timespec, s: seq<LogPackage>)
    requires forall i :: 0 <= i < |s| ==> s[i].timestamp != t
    ensures At(t, s) == []
  {
    if s != [] {
      NoneAt(t, s[1..]);
    }
  }

  lemma AtAppend(t: Timespec, a: seq<LogPackage>, b: seq<LogPackage>)
    ensures At(t, a + b) == At(t, a) + At(t, b)
  {
    FilterAppend((p: LogPackage) => p.timestamp == t, a, b);
  }

  /** Insertion puts an element behind all others with its timestamp and moves nothing else. */
  lemma InsertIsStable(s: seq<LogPackage>, p: LogPackage, t: Timespec)
    requires Sorted(s)
    ensures At(t, Insert(s, p)) == At(t, s + [p])
  {
    var k := UpperBound(s, p.timestamp);
    UpperBoundSplits(s, p.timestamp);
    var front, back := s[..k], s[k..];
    assert s == front + back;
    hide At, UpperBound, Sorted;
    AtAppend(t, front + [p], back);
    AtAppend(t, front, [p]);
    AtAppend(t, s, [p]);
    AtAppend(t, front, back);
    if t == p.timestamp {
      NoneAt(t, back);
    } else {
      NoneAt(t, [p]);
    }
    SwapEmpty(At(t, front), At(t, [p]), At(t, back));
  }

  /** The result is sorted and, timestamp by timestamp, holds the same packages in the same order. */
  lemma {:induction false} StableSortIsStable(s: seq<LogPackage>, t: Timespec)
    ensures Sorted(StableSort(s))
    ensures At(t, StableSort(s)) == At(t, s)
  {
    if s != [] {
      var init, last := s[..|s| - 1], s[|s| - 1];
      StableSortIsStable(init, t);
      InsertKeepsSorted(StableSort(init), last);
      InsertIsStable(StableSort(init), last, t);
      AtAppend(t, StableSort(init), [last]);
      AtAppend(t, init, [last]);
      assert s == init + [last];
    }
  }

  lemma {:induction false} StableSortPermutes(s: seq<LogPackage>)
    ensures multiset(StableSort(s)) == multiset(s)
  {
    if s != [] {
      StableSortPermutes(s[..|s| - 1]);
      InsertAdds(StableSort(s[..|s| - 1]), s[|s| - 1]);
      assert s == s[..|s| - 1] + [s[|s| - 1]];
    }
  }

  lemma FirstAt(s: seq<LogPackage>, t: Timespec)
    requires s != []
    ensures s[0].timestamp == t ==> At(t, s) == [s[0]] + At(t, s[1..])
    ensures s[0].timestamp != t ==> At(t, s) == At(t, s[1..])
  {
  }

  /** No other sequence is sorted and holds the same packages in the same order at every timestamp. */
  lemma {:induction false} StableSortIsUnique(a: seq<LogPackage>, b: seq<LogPackage>)
    requires Sorted(a) && Sorted(b) && forall t :: At(t, a) == At(t, b)
    ensures a == b
  {
    if a != [] && b != [] {
      FirstIsLeast(a, b);
      FirstIsLeast(b, a);
      LessIsTotalOrder(a[0].timestamp, b[0].timestamp, a[0].timestamp);
      FirstAt(a, a[0].timestamp);
      FirstAt(b, a[0].timestamp);
      assert a[0] == At(a[0].timestamp, a)[0] == b[0];
      forall t
        ensures At(t, a[1..]) == At(t, b[1..])
      {
        FirstAt(a, t);
        FirstAt(b, t);
        if t == a[0].timestamp {
          assert At(t, a[1..]) == At(t, a)[1..] && At(t, b[1..]) == At(t, b)[1..];
        }
      }
      StableSortIsUnique(a[1..], b[1..]);
    } else if a != [] {
      FirstAt(a, a[0].timestamp);
    } else if b != [] {
      FirstAt(b, b[0].timestamp);
    }
  }

  lemma FirstIsLeast(a: seq<LogPackage>, b: seq<LogPackage>)
    requires a != [] && b != [] && Sorted(b) && At(a[0].timestamp, a) == At(a[0].timestamp, b)
    ensures !Less(a[0].timestamp, b[0].timestamp)
  {
    if Less(a[0].timestamp, b[0].timestamp) {
      forall i | 0 <= i < |b|
        ensures b[i].timestamp != a[0].timestamp
      {
        assert i > 0 ==> !Before(b[i], b[0]);
      }
      FirstAt(a, a[0].timestamp);
      NoneAt(a[0].timestamp, b);
    }
  }
}
