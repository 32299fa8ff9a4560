/** Periodic timers over whole runs of the timer thread (proxy/thread_pool.cpp): what is put back is the same
    job, and it is called by every pass that comes at or after its point for as long as its callback asks. */
module TimerRuns {
  import opened TimerThread

  /** `x` is the only pending job with its id. */
  ghost predicate Alone(jobs: seq<Job>, x: Job)
  {
    && x in jobs
    && (forall y :: y in jobs && y.id == x.id ==> y == x)
    && forall i, k :: 0 <= i < k < |jobs| ==> !(jobs[i].id == x.id && jobs[k].id == x.id)
  }

  lemma {:induction false} PeriodsAddUp(a: int, b: int, period: nat)
    requires period > 0 && a % period == 0 && b % period == 0
    ensures (a + b) % period == 0
  {
    var m, n := a / period, b / period;
    assert a == m * period && b == n * period;
    assert a + b == (m + n) * period;
    EuclidUnique(a + b, m + n, 0, period);
  }

  lemma {:induction false} AloneByCount(jobs: seq<Job>, x: Job)
    requires x in jobs && Count(jobs, x.id) <= 1
    ensures Alone(jobs, x)
  {
    forall y | y in jobs && y.id == x.id
      ensures y == x
    {
      SameIdSameJob(jobs, y, x);
    }
    forall i, k | 0 <= i < k < |jobs| && jobs[i].id == x.id && jobs[k].id == x.id
      ensures false
    {
      CountTwice(jobs, i, k);
    }
  }

  lemma {:induction false} PendingAlone(s: State, x: Job)
    requires Unique(s) && x in s.jobs
    ensures Alone(s.jobs, x)
  {
    hide Count, Alone;
    assert Known(s, x.id) <= 1;
    AloneByCount(s.jobs, x);
  }

  /** After a pass in which a due periodic job's callback asked for more, exactly one job with its id is pending:
      the same timer at the least later point of its phase. */
  lemma {:induction false} PutBackOverAPass(a: State, now: int, again: nat -> bool, b: State, j: Job) returns (x: Job)
    requires Unique(a) && Pass(a, now, again, b) && j in a.jobs
    requires j.point <= now && again(j.id) && j.period > 0
    ensures Alone(b.jobs, x) && SameTimer(j, x) && x.point > now && x.point - j.period <= now
  {
    x := PutBack(now, again, j);
    hide AfterPass, NextPoint;
    FlatMapHas(After(now, again), a.jobs, j, x);
    assert x in multiset(b.jobs);
    StaysUnique(a, now, again, b);
    PendingAlone(b, x);
  }

  lemma {:induction false} AdmittedIsPending(a: State, now: int, again: nat -> bool, b: State, x: Job)
    requires Pass(a, now, again, b) && a.queue != [] && x in Admit(now, a.queue[0])
    ensures x in b.jobs
  {
    hide FlatMap, Admit, After, Called, Sorted;
    assert x in multiset(b.jobs);
  }

  /** A job that is taken over is pending afterwards with its period and callback: at its own point, one period
      later when it was overdue by less than that, or a full period from now. */
  lemma {:induction false} TakenOver(a: State, now: int, again: nat -> bool, b: State) returns (x: Job)
    requires Unique(a) && Pass(a, now, again, b) && a.queue != [] && a.queue[0].hasCallback
    requires a.queue[0].point > now || a.queue[0].period > 0
    ensures Alone(b.jobs, x) && x.point > now
    ensures var j := a.queue[0];
            && x.id == j.id && x.period == j.period && x.hasCallback
            && x.point == if j.point > now then j.point
                          else if j.point + j.period > now then j.point + j.period
                          else now + j.period
  {
    hide *;
    x := WhatIsAdmitted(now, a.queue[0]);
    AdmittedIsPending(a, now, again, b, x);
    StaysUnique(a, now, again, b);
    PendingAlone(b, x);
  }

  lemma {:induction false} WhatIsAdmitted(now: int, j: Job) returns (x: Job)
    requires j.hasCallback && (j.point > now || j.period > 0)
    ensures Admit(now, j) == [x] && x.point > now && x.id == j.id && x.period == j.period && x.hasCallback
    ensures x.point == if j.point > now then j.point
                       else if j.point + j.period > now then j.point + j.period
                       else now + j.period
  {
    x := Admit(now, j)[0];
  }

  lemma {:induction false} StaysUnique(a: State, now: int, again: nat -> bool, b: State)
    requires Unique(a) && Pass(a, now, again, b)
    ensures Unique(b)
  {
    hide Unique, Pass;
    PassKeepsUnique(a, now, again, b);
  }

  /** The call that a pass makes of a due job. */
  lemma {:induction false} CalledNow(a: State, now: int, again: nat -> bool, b: State, j: Job) returns (n: nat)
    requires Pass(a, now, again, b) && j in a.jobs && j.point <= now
    ensures |a.calls| <= n < |b.calls| && b.calls[n] == Call(j, now, again(j.id))
  {
    hide FlatMap, Sorted, After, Admit;
    FlatMapHas(IfDue(now), a.jobs, j, j);
    var ran := b.calls[|a.calls|..];
    assert j in multiset(JobsOf(ran));
    var k :| 0 <= k < |ran| && JobsOf(ran)[k] == j;
    n := |a.calls| + k;
    assert b.calls[n] == ran[k];
  }

  /** Every call of `id` from the `from`-th call on has asked for more. */
  ghost predicate AlwaysAgain(s: State, id: nat, from: nat)
  {
    forall n :: from <= n < |s.calls| && s.calls[n].job.id == id ==> s.calls[n].again
  }

  lemma {:induction false} SameTimerStep(j: Job, x: Job, y: Job)
    requires SameTimer(j, x) && SameTimer(x, y)
    ensures SameTimer(j, y)
  {
    PeriodsAddUp(x.point - j.point, y.point - x.point, j.period);
  }

  lemma {:induction false} TimerOverOneStep(a: State, b: State, j: Job, from: nat) returns (x: Job)
    requires History(a) && Follows(a, b) && j in a.jobs && j.period > 0
    requires from <= |a.calls| && AlwaysAgain(b, j.id, from)
    ensures x in b.jobs && SameTimer(j, x) && |a.calls| <= |b.calls|
  {
    if k :| TimerSet(a, k, b) {
      x := j;
    } else {
      var now, again :| Pass(a, now, again, b);
      if j.point <= now {
        var n := CalledNow(a, now, again, b, j);
        assert b.calls[n].again;
        x := PutBackOverAPass(a, now, again, b, j);
      } else {
        PassServesPending(a, now, again, b, j);
        x := j;
      }
    }
  }

  lemma {:induction false} FewerCalls(a: State, b: State, id: nat, from: nat)
    requires a.calls <= b.calls && AlwaysAgain(b, id, from)
    ensures AlwaysAgain(a, id, from)
  {
  }

  lemma {:induction false} CallsGrow(a: State, b: State)
    requires Follows(a, b)
    ensures a.calls <= b.calls
  {
  }

  /** Over every run: a periodic job that was pending is pending for as long as its callback asks for more. */
  lemma {:induction false} PeriodicGoesOn(states: seq<State>, i: nat, m: nat, j: Job) returns (x: Job)
    requires IsRun(states) && i <= m < |states| && j in states[i].jobs && j.period > 0
    requires AlwaysAgain(states[m], j.id, |states[i].calls|)
    ensures x in states[m].jobs && SameTimer(j, x)
    ensures |states[i].calls| <= |states[m].calls|
    decreases m
  {
    hide History, Follows, SameTimer, IsRun, AlwaysAgain;
    if m == i {
      SameTimerItself(j);
      x := j;
    } else {
      StepOfRun(states, m);
      CallsGrow(states[m - 1], states[m]);
      FewerCalls(states[m - 1], states[m], j.id, |states[i].calls|);
      var y := PeriodicGoesOn(states, i, m - 1, j);
      SameTimerFields(j, y);
      x := TimerOverOneStep(states[m - 1], states[m], y, |states[i].calls|);
      SameTimerStep(j, y, x);
    }
  }

  lemma {:induction false} StepOfRun(states: seq<State>, m: nat)
    requires IsRun(states) && 0 < m < |states|
    ensures Follows(states[m - 1], states[m]) && History(states[m - 1])
  {
    hide Follows, History;
    RunKeepsHistory(states[..m]);
  }

  lemma SameTimerItself(j: Job)
    requires j.period > 0
    ensures SameTimer(j, j)
  {
  }

  lemma {:induction false} SameTimerFields(j: Job, x: Job)
    requires SameTimer(j, x)
    ensures x.id == j.id && x.period == j.period > 0
  {
  }

  /** And every pass at or after its point calls it, at the time of the pass, and puts it back when its callback
      asks for more. */
  lemma {:induction false} EveryDuePassCallsIt(states: seq<State>, i: nat, m: nat, j: Job, now: int, again: nat -> bool)
    returns (x: Job, n: nat, y: Job)
    requires IsRun(states) && i <= m < |states| - 1 && j in states[i].jobs && j.period > 0
    requires AlwaysAgain(states[m], j.id, |states[i].calls|)
    requires Pass(states[m], now, again, states[m + 1])
    ensures x in states[m].jobs && SameTimer(j, x)
    ensures x.point > now ==> x in states[m + 1].jobs
    ensures x.point <= now ==> |states[m].calls| <= n < |states[m + 1].calls|
    ensures x.point <= now ==> states[m + 1].calls[n] == Call(x, now, again(j.id))
    ensures x.point <= now && again(j.id) ==>
              Alone(states[m + 1].jobs, y) && SameTimer(j, y) && y.point > now && y.point - j.period <= now
  {
    hide Pass, IsRun, AlwaysAgain, History, Unique, SameTimer, Alone;
    x := PeriodicGoesOn(states, i, m, j);
    SameTimerFields(j, x);
    n, y := 0, x;
    if x.point > now {
      PassServesPending(states[m], now, again, states[m + 1], x);
    } else {
      n := CalledNow(states[m], now, again, states[m + 1], x);
      if again(j.id) {
        RunIsUnique(states, m);
        y := PutBackOverAPass(states[m], now, again, states[m + 1], x);
        SameTimerStep(j, x, y);
      }
    }
  }

  lemma {:induction false} RunIsUnique(states: seq<State>, m: nat)
    requires IsRun(states) && m < |states|
    ensures Unique(states[m])
  {
    hide Follows, Unique;
    RunKeepsHistory(states[..m + 1]);
  }

  /** Over every run: the job that a pass takes over. */
  lemma {:induction false} TakenOverInARun(states: seq<State>, m: nat, now: int, again: nat -> bool) returns (x: Job)
    requires IsRun(states) && m < |states| - 1 && Pass(states[m], now, again, states[m + 1])
    requires states[m].queue != [] && states[m].queue[0].hasCallback
    requires states[m].queue[0].point > now || states[m].queue[0].period > 0
    ensures Alone(states[m + 1].jobs, x) && x.point > now
    ensures var j := states[m].queue[0];
            && x.id == j.id && x.period == j.period && x.hasCallback
            && x.point == if j.point > now then j.point
                          else if j.point + j.period > now then j.point + j.period
                          else now + j.period
  {
    hide Pass, Unique, IsRun, Alone;
    RunIsUnique(states, m);
    x := TakenOver(states[m], now, again, states[m + 1]);
  }
}
