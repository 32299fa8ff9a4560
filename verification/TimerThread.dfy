/** The timer loop of the thread pool (proxy/thread_pool.cpp): jobs sorted by their next time point, run when
    due, and put back at the next point of their period. Times are microseconds; periods are not negative. */
module TimerThread {
  import opened Wrappers

  /** `id` only tells jobs apart in the history. A period of 0 makes a one-shot job. */
  datatype Job = Job(id: nat, point: int, period: nat, hasCallback: bool)

  /** One call of a job's callback, the time of the pass, and what the callback returned. */
  datatype Call = Call(job: Job, at: int, again: bool)

  datatype State = State(queue: seq<Job>, jobs: seq<Job>, calls: seq<Call>, nextId: nat)

  ghost predicate Sorted(s: seq<Job>)
  {
    forall i, j :: 0 <= i < j < |s| ==> s[i].point <= s[j].point
  }

  // ----- what one pass does to one job -------------------------------------------------------

  /** The do-while loop that skips the missed periods. */
  function NextPoint(point: int, period: nat, now: int): (p: int)
    requires period > 0
    ensures p > now && p > point
    decreases now - point
  {
    if point + period > now then point + period else NextPoint(point + period, period, now)
  }

  /** Taking a new job over: overdue periodic jobs move on, to a full period from now if one period is not
      enough; an overdue one-shot job and a job without a callback are discarded. */
  function Admit(now: int, j: Job): (r: seq<Job>)
    ensures |r| <= 1 && forall i :: 0 <= i < |r| ==> r[i].point > now && r[i].id == j.id
  {
    if !j.hasCallback then []
    else if j.point > now then [j]
    else if j.period == 0 then []
    else if j.point + j.period > now then [j.(point := j.point + j.period)]
    else [j.(point := now + j.period)]
  }

  /** A pending job after a pass at `now` in which its callback would return `again(id)`. */
  function AfterPass(now: int, again: nat -> bool, j: Job): (r: seq<Job>)
    ensures |r| <= 1 && forall i :: 0 <= i < |r| ==> r[i].point > now && r[i].id == j.id
  {
    if j.point > now then [j]
    else if again(j.id) && j.period != 0 then [j.(point := NextPoint(j.point, j.period, now))]
    else []
  }

  function After(now: int, again: nat -> bool): Job -> seq<Job>
  {
    (j: Job) => AfterPass(now, again, j)
  }

  function IfDue(now: int): Job -> seq<Job>
  {
    (j: Job) => if j.point <= now then [j] else []
  }

  function FlatMap<T>(f: Job -> seq<T>, s: seq<Job>): seq<T>
  {
    if s == [] then [] else f(s[0]) + FlatMap(f, s[1..])
  }

  lemma {:induction false} FlatMapAppend<T>(f: Job -> seq<T>, a: seq<Job>, b: seq<Job>)
    ensures FlatMap(f, a + b) == FlatMap(f, a) + FlatMap(f, b)
  {
    if a == [] {
      assert a + b == b;
    } else {
      assert (a + b)[1..] == a[1..] + b;
      FlatMapAppend(f, a[1..], b);
    }
  }

  lemma FlatMapOne<T>(f: Job -> seq<T>, j: Job)
    ensures FlatMap(f, [j]) == f(j)
  {
    assert [j][1..] == [];
  }

  lemma MultisetSplit<T>(a: seq<T>, x: seq<T>, b: seq<T>)
    ensures multiset(a + (x + b)) == multiset(x) + multiset(a + b)
  {
  }

  lemma MultisetCancel<T>(x: T, m: multiset<T>, n: multiset<T>)
    requires multiset{x} + m == multiset{x} + n
    ensures m == n
  {
    forall e
      ensures m[e] == n[e]
    {
      assert (multiset{x} + m)[e] == (multiset{x} + n)[e];
    }
  }

  lemma Without<T>(t: seq<T>, k: nat)
    requires k < |t|
    ensures multiset(t) == multiset{t[k]} + multiset(t[..k] + t[k + 1..])
  {
    assert t == t[..k] + ([t[k]] + t[k + 1..]);
    MultisetSplit(t[..k], [t[k]], t[k + 1..]);
  }

  lemma {:induction false} FlatMapWithout<T>(f: Job -> seq<T>, t: seq<Job>, k: nat)
    requires k < |t|
    ensures multiset(FlatMap(f, t)) == multiset(f(t[k])) + multiset(FlatMap(f, t[..k] + t[k + 1..]))
  {
    hide FlatMap;
    var a, x, b := t[..k], [t[k]], t[k + 1..];
    assert t == a + (x + b);
    FlatMapAppend(f, a, x + b);
    FlatMapAppend(f, x, b);
    FlatMapAppend(f, a, b);
    FlatMapOne(f, t[k]);
    MultisetSplit(FlatMap(f, a), f(t[k]), FlatMap(f, b));
  }

  lemma Partner(s: seq<Job>, t: seq<Job>) returns (k: nat)
    requires s != [] && multiset(s) == multiset(t)
    ensures k < |t| && t[k] == s[0]
    ensures multiset(s[1..]) == multiset(t[..k] + t[k + 1..])
  {
    assert s[0] in multiset(t);
    k :| k < |t| && t[k] == s[0];
    Without(s, 0);
    Without(t, k);
    assert s[..0] + s[1..] == s[1..];
    MultisetCancel(s[0], multiset(s[1..]), multiset(t[..k] + t[k + 1..]));
  }

  /** std::sort may order ties as it likes: only the multiset matters. */
  lemma {:induction false} FlatMapPermuted<T>(f: Job -> seq<T>, s: seq<Job>, t: seq<Job>)
    requires multiset(s) == multiset(t)
    ensures multiset(FlatMap(f, s)) == multiset(FlatMap(f, t))
  {
    if s == [] {
      assert |multiset(t)| == 0;
    } else {
      var k := Partner(s, t);
      FlatMapPermuted(f, s[1..], t[..k] + t[k + 1..]);
      FlatMapWithout(f, t, k);
    }
  }

  // ----- one pass ------------------------------------------------------------------------------

  function JobsOf(calls: seq<Call>): (r: seq<Job>)
    ensures |r| == |calls| && forall i :: 0 <= i < |r| ==> r[i] == calls[i].job
  {
    seq(|calls|, i requires 0 <= i < |calls| => calls[i].job)
  }

  /** From one loop head to the next: at most one new job is taken over, the due jobs are called once each
      in the order of their points, and what stays pending is sorted. */
  ghost predicate Pass(a: State, now: int, again: nat -> bool, b: State)
  {
    && b.queue == (if a.queue == [] then [] else a.queue[1..]) && b.nextId == a.nextId
    && Sorted(b.jobs)
    && multiset(b.jobs) == multiset(FlatMap(After(now, again), a.jobs)
                                    + if a.queue == [] then [] else Admit(now, a.queue[0]))
    && a.calls <= b.calls
    && Called(b.calls[|a.calls|..], FlatMap(IfDue(now), a.jobs), now, again)
  }

  ghost predicate Called(calls: seq<Call>, due: seq<Job>, now: int, again: nat -> bool)
  {
    && multiset(JobsOf(calls)) == multiset(due)
    && Sorted(JobsOf(calls))
    && forall i :: 0 <= i < |calls| ==> calls[i].at == now && calls[i].again == again(calls[i].job.id)
  }

  /** The calls so far came in the order of their points, none after a job that still waits. */
  ghost predicate Ordered(ran: seq<Call>, jobs: seq<Job>)
  {
    && Sorted(JobsOf(ran))
    && forall i, j :: 0 <= i < |ran| && 0 <= j < |jobs| ==> ran[i].job.point <= jobs[j].point
  }

  /** `next` is what remains of `jobs` after the call of its first job. */
  ghost predicate FirstCalled(jobs: seq<Job>, next: seq<Job>, now: int, again: nat -> bool)
  {
    && jobs != [] && jobs[0].point <= now
    && multiset(next) == multiset(jobs[1..] + AfterPass(now, again, jobs[0]))
  }

  lemma {:induction false} FlatMapNext<T>(f: Job -> seq<T>, jobs: seq<Job>, next: seq<Job>, put: seq<Job>)
    requires jobs != [] && multiset(next) == multiset(jobs[1..] + put)
    ensures multiset(FlatMap(f, next)) == multiset(FlatMap(f, jobs[1..])) + multiset(FlatMap(f, put))
    ensures multiset(FlatMap(f, jobs)) == multiset(f(jobs[0])) + multiset(FlatMap(f, jobs[1..]))
  {
    FlatMapPermuted(f, next, jobs[1..] + put);
    FlatMapAppend(f, jobs[1..], put);
  }

  lemma {:induction false} FirstMovesOn(jobs: seq<Job>, next: seq<Job>, now: int, again: nat -> bool)
    requires FirstCalled(jobs, next, now, again)
    ensures multiset(FlatMap(After(now, again), next)) == multiset(FlatMap(After(now, again), jobs))
  {
    hide FlatMap, AfterPass;
    var put := AfterPass(now, again, jobs[0]);
    FlatMapNext(After(now, again), jobs, next, put);
    NothingDue(put, now, again);
  }

  lemma {:induction false} FirstNoLongerDue(jobs: seq<Job>, next: seq<Job>, now: int, again: nat -> bool)
    requires FirstCalled(jobs, next, now, again)
    ensures multiset(FlatMap(IfDue(now), jobs)) == multiset{jobs[0]} + multiset(FlatMap(IfDue(now), next))
  {
    hide FlatMap, AfterPass;
    var put := AfterPass(now, again, jobs[0]);
    FlatMapNext(IfDue(now), jobs, next, put);
    NothingDue(put, now, again);
  }

  lemma {:induction false} CallFirst(jobs: seq<Job>, next: seq<Job>, now: int, again: nat -> bool)
    requires FirstCalled(jobs, next, now, again)
    ensures multiset(FlatMap(After(now, again), next)) == multiset(FlatMap(After(now, again), jobs))
    ensures multiset(FlatMap(IfDue(now), jobs)) == multiset{jobs[0]} + multiset(FlatMap(IfDue(now), next))
    ensures |FlatMap(IfDue(now), next)| < |FlatMap(IfDue(now), jobs)|
  {
    hide FlatMap, AfterPass, After, IfDue;
    FirstMovesOn(jobs, next, now, again);
    FirstNoLongerDue(jobs, next, now, again);
    assert |multiset(FlatMap(IfDue(now), jobs))| == 1 + |multiset(FlatMap(IfDue(now), next))|;
  }

  lemma RanOneMore(ran: seq<Call>, c: Call, jobs: seq<Job>, next: seq<Job>, now: int, again: nat -> bool)
    requires FirstCalled(jobs, next, now, again) && Sorted(jobs) && Ordered(ran, jobs) && c.job == jobs[0]
    ensures Ordered(ran + [c], next)
    ensures multiset(JobsOf(ran + [c])) == multiset(JobsOf(ran)) + multiset{jobs[0]}
  {
    var put := AfterPass(now, again, jobs[0]);
    assert JobsOf(ran + [c]) == JobsOf(ran) + [jobs[0]];
    forall j | 0 <= j < |next|
      ensures jobs[0].point <= next[j].point
    {
      assert next[j] in multiset(next);
      assert next[j] in jobs[1..] || next[j] in put;
    }
  }

  lemma {:induction false} NothingDue(jobs: seq<Job>, now: int, again: nat -> bool)
    requires forall i :: 0 <= i < |jobs| ==> jobs[i].point > now
    ensures FlatMap(After(now, again), jobs) == jobs
    ensures FlatMap(IfDue(now), jobs) == []
  {
    if jobs != [] {
      NothingDue(jobs[1..], now, again);
      assert jobs == [jobs[0]] + jobs[1..];
    }
  }

  lemma {:induction false} AdmittedWait(jobs: seq<Job>, admitted: seq<Job>, mid: seq<Job>, now: int, again: nat -> bool)
    requires multiset(mid) == multiset(jobs + admitted)
    requires admitted == [] || exists j :: admitted == Admit(now, j)
    ensures multiset(FlatMap(After(now, again), mid)) == multiset(FlatMap(After(now, again), jobs) + admitted)
    ensures multiset(FlatMap(IfDue(now), mid)) == multiset(FlatMap(IfDue(now), jobs))
  {
    hide FlatMap, AfterPass, Admit;
    FlatMapBoth(After(now, again), jobs, admitted, mid);
    FlatMapBoth(IfDue(now), jobs, admitted, mid);
    NothingDue(admitted, now, again);
  }

  lemma {:induction false} FlatMapBoth<T>(f: Job -> seq<T>, a: seq<Job>, b: seq<Job>, mid: seq<Job>)
    requires multiset(mid) == multiset(a + b)
    ensures multiset(FlatMap(f, mid)) == multiset(FlatMap(f, a) + FlatMap(f, b))
  {
    FlatMapPermuted(f, mid, a + b);
    FlatMapAppend(f, a, b);
  }

  lemma CalledPermuted(calls: seq<Call>, due: seq<Job>, due': seq<Job>, now: int, again: nat -> bool)
    requires Called(calls, due, now, again) && multiset(due) == multiset(due')
    ensures Called(calls, due', now, again)
  {
  }

  lemma SortedAround(r: seq<Job>, x: Job, k: nat)
    requires Sorted(r) && k <= |r| && (k > 0 ==> r[k - 1].point <= x.point)
    requires forall j :: k <= j < |r| ==> x.point < r[j].point
    ensures Sorted(r[..k] + ([x] + r[k..]))
  {
    var q := r[..k] + ([x] + r[k..]);
    forall i, j | 0 <= i < j < |q|
      ensures q[i].point <= q[j].point
    {
      assert q[i] == (if i < k then r[i] else if i == k then x else r[i - 1]);
      assert q[j] == (if j < k then r[j] else if j == k then x else r[j - 1]);
    }
  }

  /** `x` is `j` at another of its points: the same timer, moved on by whole periods. */
  ghost predicate SameTimer(j: Job, x: Job)
  {
    && x.id == j.id && x.period == j.period && x.hasCallback == j.hasCallback
    && x.point >= j.point && j.period > 0 && (x.point - j.point) % j.period == 0
  }

  class TimerPool {
    var queue: seq<Job>
    var jobs: seq<Job>
    ghost var calls: seq<Call>
    ghost var nextId: nat

    ghost function Value(): State
      reads this
    {
      State(queue, jobs, calls, nextId)
    }

    constructor ()
      ensures Value() == State([], [], [], 0)
    {
      queue, jobs, calls, nextId := [], [], [], 0;
    }

    method SetTimer(tj: Job)
      requires tj.id == nextId
      modifies this
      ensures Value() == State(old(queue) + [tj], old(jobs), old(calls), old(nextId) + 1)
    {
      queue := queue + [tj];
      nextId := nextId + 1;
    }

    static method InsertSorted(r: seq<Job>, x: Job) returns (q: seq<Job>)
      requires Sorted(r)
      ensures Sorted(q) && multiset(q) == multiset{x} + multiset(r)
    {
      var k := |r|;
      while k > 0 && r[k - 1].point > x.point
        invariant 0 <= k <= |r|
        invariant forall j :: k <= j < |r| ==> x.point < r[j].point
      {
        k := k - 1;
      }
      q := r[..k] + ([x] + r[k..]);
      SortedAround(r, x, k);
      MultisetSplit(r[..k], [x], r[k..]);
      assert r == r[..k] + r[k..];
    }

    /** std::sort. */
    static method Sort(s: seq<Job>) returns (r: seq<Job>)
      ensures Sorted(r) && multiset(r) == multiset(s)
    {
      r := [];
      for i := 0 to |s|
        invariant Sorted(r) && multiset(r) == multiset(s[..i])
      {
        assert s[..i + 1] == s[..i] + [s[i]];
        r := InsertSorted(r, s[i]);
      }
      assert s[..|s|] == s;
    }

    /** do { point += period } while (point <= now). */
    static method Coalesce(point: int, period: nat, now: int) returns (p: int)
      requires period > 0
      ensures p == NextPoint(point, period, now)
    {
      p := point + period;
      while p <= now
        invariant NextPoint(point, period, now) == if p <= now then NextPoint(p, period, now) else p
        decreases now - p
      {
        p := p + period;
      }
    }

    method AdmitFirst(now: int)
      requires Sorted(jobs)
      modifies this`queue, this`jobs
      ensures queue == if old(queue) == [] then [] else old(queue)[1..]
      ensures Sorted(jobs)
      ensures multiset(jobs) == multiset(old(jobs) + if old(queue) == [] then [] else Admit(now, old(queue)[0]))
    {
      if queue != [] {
        var tj := queue[0];
        queue := queue[1..];
        if tj.hasCallback {
          if tj.point > now {
            jobs := jobs + [tj];
          } else if tj.period != 0 {
            tj := tj.(point := tj.point + tj.period);
            if tj.point > now {
              jobs := jobs + [tj];
            } else {
              tj := tj.(point := now + tj.period);
              jobs := jobs + [tj];
            }
          }
          assert jobs == old(jobs) + Admit(now, old(queue)[0]);
          jobs := Sort(jobs);
        } else {
          assert jobs == old(jobs) + Admit(now, old(queue)[0]);
        }
      }
    }

    /** A job that asks for it and has a period goes back, the same timer at the least later point of its phase. */
    method Reschedule(tj: Job, now: int, r: bool, ghost again: nat -> bool) returns (ghost x: Job)
      requires Sorted(jobs) && tj.point <= now && r == again(tj.id)
      modifies this`jobs
      ensures Sorted(jobs) && multiset(jobs) == multiset(old(jobs) + AfterPass(now, again, tj))
      ensures !r || tj.period == 0 ==> jobs == old(jobs)
      ensures r && tj.period > 0 ==>
                && multiset(jobs) == multiset(old(jobs) + [x])
                && SameTimer(tj, x) && x.point > now && x.point - tj.period <= now
    {
      x := tj;
      if r && tj.period != 0 {
        var p := Coalesce(tj.point, tj.period, now);
        jobs := Sort(jobs + [tj.(point := p)]);
        x := PutBack(now, again, tj);
      }
    }

    /** Popping and calling the first due job; `again` is what each job's callback returns. */
    method CallFront(now: int, again: nat -> bool) returns (ghost c: Call)
      requires Sorted(jobs) && jobs != [] && jobs[0].point <= now
      modifies this`jobs, this`calls
      ensures Sorted(jobs) && FirstCalled(old(jobs), jobs, now, again)
      ensures c == Call(old(jobs)[0], now, again(old(jobs)[0].id)) && calls == old(calls) + [c]
    {
      hide AfterPass;
      var tj := jobs[0];
      jobs := jobs[1..];
      var r := again(tj.id);
      c := Call(tj, now, r);
      calls := calls + [c];
      ghost var x := Reschedule(tj, now, r, again);
    }

    /** The loop over the due jobs. */
    method RunDue(now: int, again: nat -> bool) returns (ghost ran: seq<Call>)
      requires Sorted(jobs)
      modifies this`jobs, this`calls
      ensures Sorted(jobs) && multiset(jobs) == multiset(FlatMap(After(now, again), old(jobs)))
      ensures calls == old(calls) + ran && Called(ran, FlatMap(IfDue(now), old(jobs)), now, again)
    {
      hide FlatMap, IfDue, AfterPass, After, FirstCalled;
      ran := [];
      while jobs != [] && jobs[0].point <= now
        invariant Sorted(jobs)
        invariant multiset(FlatMap(After(now, again), jobs)) == multiset(FlatMap(After(now, again), old(jobs)))
        invariant multiset(JobsOf(ran)) + multiset(FlatMap(IfDue(now), jobs)) == multiset(FlatMap(IfDue(now), old(jobs)))
        invariant Ordered(ran, jobs)
        invariant forall i :: 0 <= i < |ran| ==> ran[i].at == now && ran[i].again == again(ran[i].job.id)
        invariant calls == old(calls) + ran
        decreases |FlatMap(IfDue(now), jobs)|
      {
        ghost var before := jobs;
        ghost var c := CallFront(now, again);
        CallFirst(before, jobs, now, again);
        RanOneMore(ran, c, before, jobs, now, again);
        ran := ran + [c];
      }
      NothingDue(jobs, now, again);
    }

    /** One iteration of the thread's loop, from the wake-up to the next wait. */
    method RunPass(now: int, again: nat -> bool)
      requires Sorted(jobs)
      modifies this
      ensures Pass(old(Value()), now, again, Value())
    {
      hide FlatMap, AfterPass, After, IfDue, Admit, Called;
      AdmitFirst(now);
      ghost var admitted := if old(queue) == [] then [] else Admit(now, old(queue)[0]);
      ghost var mid := jobs;
      ghost var ran := RunDue(now, again);
      AdmittedWait(old(jobs), admitted, mid, now, again);
      CalledPermuted(ran, FlatMap(IfDue(now), mid), FlatMap(IfDue(now), old(jobs)), now, again);
      assert calls[|old(calls)|..] == ran;
    }
  }

  // ----- one job over one pass ------------------------------------------------------------------------

  /** The next point keeps the phase and is the least such point after `now`. */
  lemma {:induction false} NextPointIsLeast(point: int, period: nat, now: int) returns (k: nat)
    requires period > 0
    ensures k >= 1 && NextPoint(point, period, now) == point + k * period
    ensures forall i: nat {:trigger i * period} :: i >= 1 && point + i * period > now ==> i >= k
    decreases now - point
  {
    if point + period > now {
      k := 1;
    } else {
      var n := NextPointIsLeast(point + period, period, now);
      k := n + 1;
      assert k * period == n * period + period;
      assert 1 * period == period;
      forall i: nat {:trigger i * period} | i > 1 && point + i * period > now
        ensures i >= k
      {
        assert i * period == (i - 1) * period + period;
      }
    }
  }

  lemma {:induction false} WholePeriods(k: nat, period: nat)
    requires period > 0
    ensures k * period % period == 0 && (k > 0 ==> (k - 1) * period == k * period - period)
  {
    EuclidUnique(k * period, k, 0, period);
  }

  /** Putting back moves to the least later point of the phase and changes nothing else. */
  lemma {:induction false} PutBack(now: int, again: nat -> bool, j: Job) returns (x: Job)
    requires j.point <= now && again(j.id) && j.period > 0
    ensures AfterPass(now, again, j) == [x]
    ensures SameTimer(j, x) && x.point > now && x.point - j.period <= now
  {
    var k := NextPointIsLeast(j.point, j.period, now);
    WholePeriods(k, j.period);
    x := AfterPass(now, again, j)[0];
    if k > 1 {
      var i: nat := k - 1;
      assert !(i >= 1 && j.point + i * j.period > now);
    }
  }

  lemma SamePhase(point: int, k: int, period: nat)
    requires period > 0
    ensures (point + k * period) % period == point % period
  {
    assert point == point / period * period + point % period;
    assert point + k * period == (point / period + k) * period + point % period;
    EuclidUnique(point + k * period, point / period + k, point % period, period);
  }

  lemma EuclidUnique(n: int, q: int, r: int, d: int)
    requires d > 0 && n == q * d + r && 0 <= r < d
    ensures n % d == r
  {
    assert (n / d - q) * d == r - n % d;
    assert n / d == q by {
      if n / d > q {
        MulAtLeast(n / d - q, d);
      } else if n / d < q {
        MulAtLeast(q - n / d, d);
      }
    }
  }

  lemma MulAtLeast(a: int, d: int)
    requires a >= 1 && d > 0
    ensures a * d >= d
  {
    assert a * d == d + (a - 1) * d;
  }

  /** A job taken over late is called at once by nobody, and a periodic one keeps its phase only when one
      period brings it past the present, or when the present happens to be one of its points. */
  lemma LateJobKeepsPhaseIff(now: int, j: Job)
    requires j.hasCallback && j.point <= now && j.period > 0
    ensures |Admit(now, j)| == 1
    ensures Admit(now, j)[0].point % j.period == j.point % j.period <==>
            j.point + j.period > now || now % j.period == j.point % j.period
  {
    SamePhase(j.point, 1, j.period);
    SamePhase(now, 1, j.period);
  }

  /** After a pass everything pending lies strictly in the future. */
  lemma PendingIsFuture(a: State, now: int, again: nat -> bool, b: State)
    requires Pass(a, now, again, b)
    ensures forall i :: 0 <= i < |b.jobs| ==> b.jobs[i].point > now
  {
    forall i | 0 <= i < |b.jobs|
      ensures b.jobs[i].point > now
    {
      var j := WhereFrom(a, now, again, b, i);
    }
  }

  lemma {:induction false} InFlatMap<T>(f: Job -> seq<T>, s: seq<Job>, x: T) returns (j: Job)
    requires x in FlatMap(f, s)
    ensures j in s && x in f(j)
  {
    if x in f(s[0]) {
      j := s[0];
    } else {
      j := InFlatMap(f, s[1..], x);
    }
  }

  /** The job that a pending one was before the pass. */
  lemma WhereFrom(a: State, now: int, again: nat -> bool, b: State, i: nat) returns (j: Job)
    requires Pass(a, now, again, b) && i < |b.jobs|
    ensures || (j in a.jobs && b.jobs[i] in AfterPass(now, again, j))
            || (a.queue != [] && j == a.queue[0] && b.jobs[i] in Admit(now, j))
  {
    hide FlatMap, AfterPass, Called, Admit;
    var x := b.jobs[i];
    assert x in multiset(b.jobs);
    if x in FlatMap(After(now, again), a.jobs) {
      j := InFlatMap(After(now, again), a.jobs, x);
    } else {
      j := a.queue[0];
    }
  }

  /** The job of a call of this pass: one that was pending and due. */
  lemma WhichDue(a: State, now: int, again: nat -> bool, b: State, i: nat)
    requires Pass(a, now, again, b) && |a.calls| <= i < |b.calls|
    ensures b.calls[i].job in a.jobs && b.calls[i].job.point <= now == b.calls[i].at
    ensures b.calls[i].again == again(b.calls[i].job.id)
  {
    hide FlatMap;
    var ran := b.calls[|a.calls|..];
    var k := i - |a.calls|;
    assert ran[k] == b.calls[i] && JobsOf(ran)[k] == b.calls[i].job;
    assert b.calls[i].job in multiset(JobsOf(ran));
    assert b.calls[i].job in FlatMap(IfDue(now), a.jobs);
    var j := InFlatMap(IfDue(now), a.jobs, b.calls[i].job);
  }

  // ----- the history of calls over a run ---------------------------------------------------------------

  function WithId(id: nat): Job -> seq<Job>
  {
    (j: Job) => if j.id == id then [j] else []
  }

  /** How many of the jobs carry an id. */
  function Count(s: seq<Job>, id: nat): nat
  {
    |FlatMap(WithId(id), s)|
  }

  lemma CountPermuted(s: seq<Job>, t: seq<Job>, id: nat)
    requires multiset(s) == multiset(t)
    ensures Count(s, id) == Count(t, id)
  {
    FlatMapPermuted(WithId(id), s, t);
    assert |multiset(FlatMap(WithId(id), s))| == |multiset(FlatMap(WithId(id), t))|;
  }

  lemma CountAppend(a: seq<Job>, b: seq<Job>, id: nat)
    ensures Count(a + b, id) == Count(a, id) + Count(b, id)
  {
    FlatMapAppend(WithId(id), a, b);
  }

  lemma CountFirst(s: seq<Job>, id: nat)
    requires s != []
    ensures Count(s, id) == (if s[0].id == id then 1 else 0) + Count(s[1..], id)
  {
  }

  lemma {:induction false} CountPresent(s: seq<Job>, i: nat)
    requires i < |s|
    ensures Count(s, s[i].id) >= 1
  {
    hide Count;
    CountFirst(s, s[i].id);
    if i > 0 {
      CountPresent(s[1..], i - 1);
    }
  }

  lemma {:induction false} CountTwice(s: seq<Job>, i: nat, k: nat)
    requires i < k < |s| && s[i].id == s[k].id
    ensures Count(s, s[k].id) >= 2
  {
    hide Count;
    CountFirst(s, s[k].id);
    if i > 0 {
      CountTwice(s[1..], i - 1, k - 1);
    } else {
      CountPresent(s[1..], k - 1);
    }
  }

  lemma {:induction false} CountShrinks(f: Job -> seq<Job>, s: seq<Job>, id: nat)
    requires forall j :: |f(j)| <= 1 && forall i :: 0 <= i < |f(j)| ==> f(j)[i].id == j.id
    ensures Count(FlatMap(f, s), id) <= Count(s, id)
  {
    if s != [] {
      CountShrinks(f, s[1..], id);
      CountAppend(f(s[0]), FlatMap(f, s[1..]), id);
      if f(s[0]) != [] {
        assert f(s[0])[1..] == [];
      }
    }
  }

  function Known(s: State, id: nat): nat
  {
    Count(s.jobs, id) + Count(s.queue, id)
  }

  /** Ids are unique and older than the next one. */
  ghost predicate Unique(s: State)
  {
    && (forall id: nat :: Known(s, id) <= 1)
    && (forall id: nat :: Known(s, id) > 0 ==> id < s.nextId)
  }

  /** A call came when the job was due, its job was not new, and if the job is still pending then the
      callback asked for it, the job has a period, and it waits for a time after the call. */
  ghost predicate GoodCall(s: State, c: Call)
  {
    && c.job.point <= c.at
    && c.job.id < s.nextId
    && Count(s.queue, c.job.id) == 0
    && forall i :: 0 <= i < |s.jobs| && s.jobs[i].id == c.job.id ==>
         c.again && c.job.period > 0 && s.jobs[i].point > c.at
  }

  /** Between two calls of one job: the first asked for it, and the second was due only after the first. */
  ghost predicate InTurn(c: Call, d: Call)
  {
    c.job.id == d.job.id ==> c.again && c.job.period > 0 && c.at < d.job.point
  }

  ghost predicate History(s: State)
  {
    && Unique(s)
    && (forall i :: 0 <= i < |s.calls| ==> GoodCall(s, s.calls[i]))
    && (forall i, k :: 0 <= i < k < |s.calls| ==> InTurn(s.calls[i], s.calls[k]))
  }

  lemma PassDropsNoId(a: State, now: int, again: nat -> bool, b: State, id: nat)
    requires Pass(a, now, again, b)
    ensures Known(b, id) <= Known(a, id) && Count(b.queue, id) <= Count(a.queue, id)
  {
    hide FlatMap, AfterPass, Count, Admit, Called;
    var kept, put := FlatMap(After(now, again), a.jobs), if a.queue == [] then [] else Admit(now, a.queue[0]);
    CountPermuted(b.jobs, kept + put, id);
    CountAppend(kept, put, id);
    CountShrinks(After(now, again), a.jobs, id);
    CountNone(id);
    if a.queue != [] {
      CountFirst(a.queue, id);
      if put != [] {
        CountFirst(put, id);
        assert put[1..] == [];
      }
    }
  }

  lemma CountNone(id: nat)
    ensures Count([], id) == 0
  {
  }

  lemma PassKeepsUnique(a: State, now: int, again: nat -> bool, b: State)
    requires Unique(a) && Pass(a, now, again, b)
    ensures Unique(b)
    ensures forall id: nat :: Known(b, id) <= Known(a, id)
    ensures forall id: nat :: Count(b.queue, id) <= Count(a.queue, id)
  {
    hide FlatMap, Count;
    forall id: nat
      ensures Known(b, id) <= Known(a, id) && Count(b.queue, id) <= Count(a.queue, id)
    {
      PassDropsNoId(a, now, again, b, id);
    }
    assert forall id: nat :: Known(b, id) > 0 ==> Known(a, id) > 0;
  }

  lemma SameIdSameJob(s: seq<Job>, j: Job, k: Job)
    requires j in s && k in s && j.id == k.id && Count(s, j.id) <= 1
    ensures j == k
  {
    var i :| 0 <= i < |s| && s[i] == j;
    var h :| 0 <= h < |s| && s[h] == k;
    if i < h {
      CountTwice(s, i, h);
    } else if h < i {
      CountTwice(s, h, i);
    }
  }

  /** A pass never moves a pending job's point back. */
  lemma PendingMovesOn(now: int, again: nat -> bool, j: Job, x: Job)
    requires x in AfterPass(now, again, j)
    ensures x.id == j.id && x.point >= j.point
  {
  }

  lemma AdmittedWasQueued(queue: seq<Job>, now: int, x: Job)
    requires queue != [] && x in Admit(now, queue[0])
    ensures Count(queue, x.id) >= 1
  {
    CountPresent(queue, 0);
  }

  lemma StillAfterCall(a: State, c: Call, j: Job)
    requires GoodCall(a, c) && j in a.jobs && j.id == c.job.id
    ensures c.again && c.job.period > 0 && j.point > c.at
  {
    var k :| 0 <= k < |a.jobs| && a.jobs[k] == j;
  }

  lemma OldCallStaysGood(a: State, now: int, again: nat -> bool, b: State, c: Call)
    requires History(a) && Pass(a, now, again, b) && GoodCall(a, c)
    ensures GoodCall(b, c)
  {
    PassKeepsUnique(a, now, again, b);
    assert b.nextId == a.nextId;
    forall i | 0 <= i < |b.jobs| && b.jobs[i].id == c.job.id
      ensures c.again && c.job.period > 0 && b.jobs[i].point > c.at
    {
      var j := WhereFrom(a, now, again, b, i);
      hide Pass, Count, FlatMap, AfterPass, Admit, History, Unique;
      if j in a.jobs && b.jobs[i] in AfterPass(now, again, j) {
        PendingMovesOn(now, again, j, b.jobs[i]);
        StillAfterCall(a, c, j);
      } else {
        AdmittedWasQueued(a.queue, now, b.jobs[i]);
      }
    }
  }

  lemma DueJobGoesOn(now: int, again: nat -> bool, j: Job, x: Job)
    requires j.point <= now && x in AfterPass(now, again, j)
    ensures again(j.id) && j.period > 0 && x.point > now
  {
  }

  /** A called job was pending under its id alone, so what is pending under that id afterwards is that job. */
  lemma CalledJobIsAlone(a: State, now: int, again: nat -> bool, b: State, n: nat)
    requires Unique(a) && Pass(a, now, again, b) && |a.calls| <= n < |b.calls|
    ensures b.calls[n].job.id < a.nextId && Count(a.queue, b.calls[n].job.id) == 0
    ensures Count(a.jobs, b.calls[n].job.id) == 1
  {
    hide Pass, FlatMap, Count;
    WhichDue(a, now, again, b, n);
    var id := b.calls[n].job.id;
    var at :| 0 <= at < |a.jobs| && a.jobs[at] == b.calls[n].job;
    CountPresent(a.jobs, at);
    assert Known(a, id) <= 1 && Known(a, id) > 0;
  }

  lemma NewCallIsGood(a: State, now: int, again: nat -> bool, b: State, n: nat)
    requires History(a) && Pass(a, now, again, b) && |a.calls| <= n < |b.calls|
    ensures GoodCall(b, b.calls[n])
  {
    var c := b.calls[n];
    WhichDue(a, now, again, b, n);
    PassKeepsUnique(a, now, again, b);
    CalledJobIsAlone(a, now, again, b, n);
    assert b.nextId == a.nextId;
    forall i | 0 <= i < |b.jobs| && b.jobs[i].id == c.job.id
      ensures c.again && c.job.period > 0 && b.jobs[i].point > c.at
    {
      var j := WhereFrom(a, now, again, b, i);
      hide Pass, Count, FlatMap, AfterPass, Admit, History, Unique;
      if a.queue != [] {
        CountPresent(a.queue, 0);
      }
      SameIdSameJob(a.jobs, j, c.job);
      DueJobGoesOn(now, again, c.job, b.jobs[i]);
    }
  }

  lemma NewCallsDiffer(a: State, now: int, again: nat -> bool, b: State, i: nat, k: nat)
    requires Unique(a) && Pass(a, now, again, b) && |a.calls| <= i < k < |b.calls|
    ensures b.calls[i].job.id != b.calls[k].job.id
  {
    hide FlatMap, Count, Unique;
    var n, id := |a.calls|, b.calls[k].job.id;
    var ran := JobsOf(b.calls[n..]);
    CountPermuted(ran, FlatMap(IfDue(now), a.jobs), id);
    CountShrinks(IfDue(now), a.jobs, id);
    CalledJobIsAlone(a, now, again, b, k);
    assert ran[i - n] == b.calls[i].job && ran[k - n] == b.calls[k].job;
    if ran[i - n].id == id {
      CountTwice(ran, i - n, k - n);
    }
  }

  lemma CallsTakeTurns(a: State, now: int, again: nat -> bool, b: State, i: nat, k: nat)
    requires History(a) && Pass(a, now, again, b) && i < k < |b.calls|
    ensures InTurn(b.calls[i], b.calls[k])
  {
    hide FlatMap, Count, Called;
    var n := |a.calls|;
    if k < n {
      assert b.calls[i] == a.calls[i] && b.calls[k] == a.calls[k];
    } else if i < n {
      assert b.calls[i] == a.calls[i] && GoodCall(a, a.calls[i]);
      WhichDue(a, now, again, b, k);
    } else {
      NewCallsDiffer(a, now, again, b, i, k);
    }
  }

  lemma PassKeepsHistory(a: State, now: int, again: nat -> bool, b: State)
    requires History(a) && Pass(a, now, again, b)
    ensures History(b)
  {
    PassKeepsUnique(a, now, again, b);
    forall i | 0 <= i < |b.calls|
      ensures GoodCall(b, b.calls[i])
    {
      if i < |a.calls| {
        assert b.calls[i] == a.calls[i];
        OldCallStaysGood(a, now, again, b, a.calls[i]);
      } else {
        NewCallIsGood(a, now, again, b, i);
      }
    }
    forall i, k | 0 <= i < k < |b.calls|
      ensures InTurn(b.calls[i], b.calls[k])
    {
      CallsTakeTurns(a, now, again, b, i, k);
    }
  }

  ghost predicate TimerSet(a: State, j: Job, b: State)
  {
    j.id == a.nextId && b == a.(queue := a.queue + [j], nextId := a.nextId + 1)
  }

  lemma TimerSetKeepsHistory(a: State, j: Job, b: State)
    requires History(a) && TimerSet(a, j, b)
    ensures History(b)
  {
    forall id: nat
      ensures Count(b.queue, id) == Count(a.queue, id) + if id == j.id then 1 else 0
      ensures Known(b, id) == Known(a, id) + if id == j.id then 1 else 0
    {
      CountAppend(a.queue, [j], id);
      FlatMapOne(WithId(id), j);
    }
    assert Known(a, j.id) == 0;
  }

  /** A run: every state follows from the one before by a pass at some time or by a new timer. */
  ghost predicate IsRun(states: seq<State>)
  {
    && states != [] && states[0] == State([], [], [], 0)
    && forall i :: 0 < i < |states| ==> Follows(states[i - 1], states[i])
  }

  ghost predicate Follows(a: State, b: State)
  {
    || (exists now, again :: Pass(a, now, again, b))
    || (exists j :: TimerSet(a, j, b))
  }

  /** Over every run: no call before its job is due; a job whose callback returned false, and a one-shot
      job, is never called again and no longer pending; and of two calls of one job the second came due
      only after the first was made, so a pass calls no job twice. */
  lemma {:induction false} RunKeepsHistory(states: seq<State>)
    requires IsRun(states)
    ensures History(states[|states| - 1])
    decreases |states|
  {
    var n := |states| - 1;
    if n > 0 {
      RunKeepsHistory(states[..n]);
      var a, b := states[n - 1], states[n];
      assert Follows(a, b);
      if j :| TimerSet(a, j, b) {
        TimerSetKeepsHistory(a, j, b);
      } else {
        var now, again :| Pass(a, now, again, b);
        PassKeepsHistory(a, now, again, b);
      }
    } else {
      assert forall id: nat :: Known(states[0], id) == 0;
    }
  }

  // ----- which one-shot jobs are called -------------------------------------------------------------------

  ghost predicate WasCalled(s: State, id: nat)
  {
    exists i :: 0 <= i < |s.calls| && s.calls[i].job.id == id
  }

  /** Nobody holds the job any more, and it was not called. */
  ghost predicate Lost(s: State, id: nat)
  {
    Known(s, id) == 0 && id < s.nextId && !WasCalled(s, id)
  }

  lemma NotPendingNotCalled(a: State, now: int, again: nat -> bool, b: State, id: nat)
    requires Pass(a, now, again, b) && Count(a.jobs, id) == 0 && !WasCalled(a, id)
    ensures !WasCalled(b, id)
  {
    forall i | 0 <= i < |b.calls|
      ensures b.calls[i].job.id != id
    {
      if i < |a.calls| {
        assert b.calls[i] == a.calls[i];
      } else {
        WhichDue(a, now, again, b, i);
        var k :| 0 <= k < |a.jobs| && a.jobs[k] == b.calls[i].job;
        CountPresent(a.jobs, k);
      }
    }
  }

  /** A job that cannot be called, or a one-shot job that is overdue: taking it over discards it. */
  predicate Discarded(now: int, j: Job)
  {
    !j.hasCallback || (j.point <= now && j.period == 0)
  }

  /** A discarded job is lost. */
  lemma DiscardedIsLost(a: State, now: int, again: nat -> bool, b: State)
    requires History(a) && Pass(a, now, again, b)
    requires a.queue != [] && Discarded(now, a.queue[0])
    ensures Lost(b, a.queue[0].id)
  {
    var id, kept := a.queue[0].id, FlatMap(After(now, again), a.jobs);
    CountPresent(a.queue, 0);
    assert Known(a, id) <= 1;
    CountPermuted(b.jobs, kept + Admit(now, a.queue[0]), id);
    assert kept + [] == kept;
    CountShrinks(After(now, again), a.jobs, id);
    CountFirst(a.queue, id);
    hide FlatMap, Count, Called;
    NotPendingNotCalled(a, now, again, b, id);
  }

  lemma LostStaysLost(a: State, b: State, id: nat)
    requires Lost(a, id) && Follows(a, b)
    ensures Lost(b, id)
  {
    hide Count;
    if j :| TimerSet(a, j, b) {
      CountAppend(a.queue, [j], id);
      CountFirst([j], id);
      CountNone(id);
      assert [j][1..] == [];
    } else {
      var now, again :| Pass(a, now, again, b);
      PassDropsNoId(a, now, again, b, id);
      NotPendingNotCalled(a, now, again, b, id);
    }
  }

  lemma {:induction false} FlatMapHas<T>(f: Job -> seq<T>, s: seq<Job>, j: Job, x: T)
    requires j in s && x in f(j)
    ensures x in FlatMap(f, s)
  {
    if s[0] != j {
      FlatMapHas(f, s[1..], j, x);
    }
  }

  /** A pass calls a pending job that is due and keeps one that is not. */
  lemma PassServesPending(a: State, now: int, again: nat -> bool, b: State, j: Job)
    requires Pass(a, now, again, b) && j in a.jobs
    ensures j.point <= now ==> WasCalled(b, j.id)
    ensures j.point > now ==> j in b.jobs
  {
    hide FlatMap;
    if j.point <= now {
      FlatMapHas(IfDue(now), a.jobs, j, j);
      var ran := b.calls[|a.calls|..];
      assert j in multiset(JobsOf(ran));
      var k :| 0 <= k < |ran| && JobsOf(ran)[k] == j;
      assert b.calls[|a.calls| + k].job == j;
    } else {
      FlatMapHas(After(now, again), a.jobs, j, j);
      assert j in multiset(b.jobs);
    }
  }

  lemma PendingOrCalled(a: State, b: State, j: Job)
    requires Follows(a, b) && (j in a.jobs || WasCalled(a, j.id))
    ensures j in b.jobs || WasCalled(b, j.id)
  {
    if k :| TimerSet(a, k, b) {
    } else {
      var now, again :| Pass(a, now, again, b);
      if WasCalled(a, j.id) {
        var i :| 0 <= i < |a.calls| && a.calls[i].job.id == j.id;
        assert b.calls[i] == a.calls[i];
      } else {
        PassServesPending(a, now, again, b, j);
      }
    }
  }

  lemma CalledStaysCalled(a: State, b: State, id: nat)
    requires Follows(a, b) && WasCalled(a, id)
    ensures WasCalled(b, id)
  {
    var i :| 0 <= i < |a.calls| && a.calls[i].job.id == id;
    assert b.calls[i] == a.calls[i];
  }

  lemma {:induction false} LostForGood(states: seq<State>, id: nat, first: nat, last: nat)
    requires IsRun(states) && first <= last < |states| && Lost(states[first], id)
    ensures Lost(states[last], id)
  {
    hide Lost, Follows;
    if first < last {
      assert Follows(states[last - 1], states[last]);
      LostForGood(states, id, first, last - 1);
      LostStaysLost(states[last - 1], states[last], id);
    }
  }

  lemma {:induction false} CalledForGood(states: seq<State>, id: nat, first: nat, last: nat)
    requires IsRun(states) && first <= last < |states| && WasCalled(states[first], id)
    ensures WasCalled(states[last], id)
  {
    hide WasCalled, Follows;
    if first < last {
      assert Follows(states[last - 1], states[last]);
      CalledForGood(states, id, first, last - 1);
      CalledStaysCalled(states[last - 1], states[last], id);
    }
  }

  lemma {:induction false} WaitsOrWasCalled(states: seq<State>, j: Job, first: nat, last: nat)
    requires IsRun(states) && first <= last < |states| && j in states[first].jobs
    ensures j in states[last].jobs || WasCalled(states[last], j.id)
  {
    hide WasCalled, Follows;
    if first < last {
      assert Follows(states[last - 1], states[last]);
      WaitsOrWasCalled(states, j, first, last - 1);
      PendingOrCalled(states[last - 1], states[last], j);
    }
  }

  lemma CalledByPass(a: State, later: int, again: nat -> bool, b: State, j: Job)
    requires Pass(a, later, again, b) && (j in a.jobs || WasCalled(a, j.id)) && j.point <= later
    ensures WasCalled(b, j.id)
  {
    if WasCalled(a, j.id) {
      var i :| 0 <= i < |a.calls| && a.calls[i].job.id == j.id;
      assert b.calls[i] == a.calls[i];
    } else {
      PassServesPending(a, later, again, b, j);
    }
  }

  lemma AdmittedInTime(a: State, now: int, again: nat -> bool, b: State)
    requires Pass(a, now, again, b) && a.queue != [] && a.queue[0].hasCallback && a.queue[0].point > now
    ensures a.queue[0] in b.jobs
  {
    hide FlatMap, Called;
    assert a.queue[0] in multiset(b.jobs);
  }

  /** A job that a pass discards is not called in any run. */
  lemma DiscardedIsNeverCalled(states: seq<State>, i: nat, now: int, again: nat -> bool)
    requires IsRun(states) && i < |states| - 1 && Pass(states[i], now, again, states[i + 1])
    requires states[i].queue != [] && Discarded(now, states[i].queue[0])
    ensures !WasCalled(states[|states| - 1], states[i].queue[0].id)
  {
    hide Pass, Follows, History;
    RunKeepsHistory(states[..i + 1]);
    DiscardedIsLost(states[i], now, again, states[i + 1]);
    LostForGood(states, states[i].queue[0].id, i + 1, |states| - 1);
  }

  /** Over every run: a one-shot job with a callback that a pass at `now` takes over has been called, once
      a later pass has come at or after its point, exactly when it was not overdue at `now`. */
  lemma OneShotCalledIff(states: seq<State>, i: nat, now: int, again: nat -> bool,
                         m: nat, later: int, again': nat -> bool)
    requires IsRun(states) && i < m < |states| - 1
    requires Pass(states[i], now, again, states[i + 1]) && Pass(states[m], later, again', states[m + 1])
    requires states[i].queue != [] && states[i].queue[0].period == 0 && states[i].queue[0].hasCallback
    requires states[i].queue[0].point <= later
    ensures WasCalled(states[|states| - 1], states[i].queue[0].id) <==> states[i].queue[0].point > now
  {
    hide Pass, IsRun, WasCalled;
    var j := states[i].queue[0];
    if j.point <= now {
      DiscardedIsNeverCalled(states, i, now, again);
    } else {
      AdmittedInTime(states[i], now, again, states[i + 1]);
      WaitsOrWasCalled(states, j, i + 1, m);
      CalledByPass(states[m], later, again', states[m + 1], j);
      CalledForGood(states, j.id, m + 1, |states| - 1);
    }
  }
}
