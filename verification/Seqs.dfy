/** Concatenation and filtering of sequences, shared by the stream models. */
module Seqs {

  function Concat<T>(ss: seq<seq<T>>): seq<T>
  {
    if ss == [] then [] else ss[0] + Concat(ss[1..])
  }

  lemma SplitFirst<T>(a: seq<T>, b: seq<T>)
    requires a != []
    ensures a == [a[0]] + a[1..] && a + b == [a[0]] + (a[1..] + b)
  {
  }

  lemma Assoc<T>(a: seq<T>, b: seq<T>, c: seq<T>)
    ensures a + b + c == a + (b + c)
  {
  }

  lemma SwapEmpty<T>(a: seq<T>, b: seq<T>, c: seq<T>)
    requires b == [] || c == []
    ensures a + b + c == a + c + b
  {
  }

  lemma {:induction false} ConcatFirst<T>(x: seq<T>, rest: seq<seq<T>>)
    ensures Concat([x] + rest) == x + Concat(rest)
    ensures Concat<T>([]) == []
  {
    assert ([x] + rest)[1..] == rest;
  }

  lemma {:induction false} ConcatAppend<T>(a: seq<seq<T>>, b: seq<seq<T>>)
    ensures Concat(a + b) == Concat(a) + Concat(b)
  {
    if a == [] {
      assert a + b == b;
    } else {
      hide Concat;
      SplitFirst(a, b);
      ConcatFirst(a[0], a[1..] + b);
      ConcatFirst(a[0], a[1..]);
      ConcatAppend(a[1..], b);
      Assoc(a[0], Concat(a[1..]), Concat(b));
    }
  }

  lemma {:induction false} ConcatOne<T>(a: seq<seq<T>>, x: seq<T>)
    ensures Concat(a + [x]) == Concat(a) + x
  {
    ConcatAppend(a, [x]);
    assert [x][1..] == [];
  }

  function Filter<T>(p: T -> bool, s: seq<T>): seq<T>
  {
    if s == [] then []
    else (if p(s[0]) then [s[0]] else []) + Filter(p, s[1..])
  }

  lemma {:induction false} FilterFirst<T>(p: T -> bool, x: T, rest: seq<T>)
    ensures Filter(p, [x] + rest) == if p(x) then [x] + Filter(p, rest) else Filter(p, rest)
    ensures Filter(p, [] + rest) == Filter(p, rest)
  {
    assert ([x] + rest)[1..] == rest && [] + rest == rest;
  }

  lemma {:induction false} FilterAppend<T>(p: T -> bool, a: seq<T>, b: seq<T>)
    ensures Filter(p, a + b) == Filter(p, a) + Filter(p, b)
  {
    if a == [] {
      assert a + b == b;
    } else {
      hide Filter;
      SplitFirst(a, b);
      FilterFirst(p, a[0], a[1..] + b);
      FilterFirst(p, a[0], a[1..]);
      FilterAppend(p, a[1..], b);
      Assoc([a[0]], Filter(p, a[1..]), Filter(p, b));
    }
  }

  lemma {:induction false} FilterTwice<T>(p: T -> bool, q: T -> bool, s: seq<T>)
    ensures Filter(p, Filter(q, s)) == Filter(q, Filter(p, s))
  {
    if s != [] {
      assert s == [s[0]] + s[1..];
      hide Filter;
      FilterFirst(p, s[0], s[1..]);
      FilterFirst(q, s[0], s[1..]);
      FilterFirst(p, s[0], Filter(q, s[1..]));
      FilterFirst(q, s[0], Filter(p, s[1..]));
      FilterTwice(p, q, s[1..]);
    } else {
      NothingToFilter(p);
      NothingToFilter(q);
    }
  }

  lemma NothingToFilter<T>(p: T -> bool)
    ensures Filter(p, []) == []
  {
  }

  /** What is filtered are the elements with the property. */
  lemma {:induction false} InFilter<T>(p: T -> bool, s: seq<T>)
    ensures forall x :: x in Filter(p, s) <==> x in s && p(x)
  {
    if s != [] {
      InFilter(p, s[1..]);
      assert s == [s[0]] + s[1..];
    }
  }

  lemma {:induction false} InConcat<T>(ss: seq<seq<T>>, i: nat)
    requires i < |ss|
    ensures forall x :: x in ss[i] ==> x in Concat(ss)
  {
    if i > 0 {
      InConcat(ss[1..], i - 1);
    }
  }

  lemma {:induction false} FilterPrefix<T>(p: T -> bool, a: seq<T>, b: seq<T>)
    requires a <= b
    ensures Filter(p, a) <= Filter(p, b)
  {
    assert b == a + b[|a|..];
    FilterAppend(p, a, b[|a|..]);
  }

  lemma SliceOfSlice<T>(s: seq<T>, lo: nat, hi: nat, i: nat, j: nat)
    requires lo + j <= hi <= |s| && i <= j
    ensures s[lo..hi][i..j] == s[lo + i..lo + j]
  {
    forall k | 0 <= k < j - i
      ensures s[lo..hi][i..j][k] == s[lo + i..lo + j][k]
    {
      assert s[lo..hi][i + k] == s[lo + i + k];
    }
  }
}
