/** The work queue of the thread pool (proxy/thread_pool.cpp): units of work, threads created on submission,
    and an allowance of threads for short units. Units do not throw. */
module WorkQueue {
  import opened Wrappers
  import Runs

  /** `id` is the unit's place in the order of submission. */
  datatype Unit = Unit(id: nat, long: bool)

  /** One entry of `workers` per created thread: the unit it runs, if any. */
  datatype Pool = Pool(initial: nat, available: nat, queue: seq<Unit>, workers: seq<Option<Unit>>,
                       submitted: seq<Unit>, started: seq<Unit>)

  /** The constructor takes the number of hardware threads, or 3 when it is unknown. */
  function Init(hardwareConcurrency: nat): Pool
  {
    var n := if hardwareConcurrency == 0 then 3 else hardwareConcurrency;
    Pool(n, n, [], [], [], [])
  }

  datatype Event = Submit(u: Unit) | Take(worker: nat) | Finish(worker: nat)

  function Submitted(p: Pool, u: Unit): Pool
  {
    var q := p.(queue := p.queue + [u], submitted := p.submitted + [u]);
    if u.long then q.(workers := p.workers + [None])
    else if p.available > 0 && |p.queue| > 0 then q.(workers := p.workers + [None], available := p.available - 1)
    else q
  }

  function Step(p: Pool, e: Event): Option<Pool>
  {
    match e
    case Submit(u) =>
      if u.id == |p.submitted| then Some(Submitted(p, u)) else None
    case Take(w) =>
      if w < |p.workers| && p.workers[w].None? && p.queue != [] then
        Some(p.(queue := p.queue[1..], workers := p.workers[w := Some(p.queue[0])], started := p.started + [p.queue[0]]))
      else None
    case Finish(w) =>
      if w < |p.workers| && p.workers[w].Some? then Some(p.(workers := p.workers[w := None])) else None
  }

  // ----- counting ---------------------------------------------------------------------------

  function Longs(us: seq<Unit>): (n: nat)
    ensures n <= |us|
  {
    if us == [] then 0 else Longs(us[..|us| - 1]) + if us[|us| - 1].long then 1 else 0
  }

  function BusyLong(ws: seq<Option<Unit>>): (n: nat)
    ensures n <= |ws|
  {
    if ws == [] then 0
    else (if ws[0].Some? && ws[0].value.long then 1 else 0) + BusyLong(ws[1..])
  }

  lemma {:induction false} BusyLongUpdate(ws: seq<Option<Unit>>, w: nat, x: Option<Unit>)
    requires w < |ws|
    ensures BusyLong(ws[w := x]) + (if ws[w].Some? && ws[w].value.long then 1 else 0) ==
            BusyLong(ws) + if x.Some? && x.value.long then 1 else 0
  {
    if w > 0 {
      assert ws[w := x][1..] == ws[1..][w - 1 := x];
      BusyLongUpdate(ws[1..], w - 1, x);
    } else {
      assert ws[w := x][1..] == ws[1..];
    }
  }

  lemma {:induction false} BusyLongIdle(ws: seq<Option<Unit>>)
    ensures BusyLong(ws + [None]) == BusyLong(ws)
  {
    if ws == [] {
      assert (ws + [None])[1..] == [];
    } else {
      assert (ws + [None])[1..] == ws[1..] + [None];
      BusyLongIdle(ws[1..]);
    }
  }

  lemma {:induction false} SomeWorkerFree(ws: seq<Option<Unit>>) returns (w: nat)
    requires BusyLong(ws) < |ws|
    ensures w < |ws| && !(ws[w].Some? && ws[w].value.long)
  {
    if ws[0].Some? && ws[0].value.long {
      w := SomeWorkerFree(ws[1..]);
      w := w + 1;
    } else {
      w := 0;
    }
  }

  lemma {:induction false} LongsAppend(us: seq<Unit>, u: Unit)
    ensures Longs(us + [u]) == Longs(us) + if u.long then 1 else 0
  {
    assert (us + [u])[..|us|] == us;
  }

  lemma {:induction false} LongsPrefix(a: seq<Unit>, b: seq<Unit>)
    ensures Longs(a) <= Longs(a + b)
  {
    if b == [] {
      assert a + b == a;
    } else {
      var u := b[|b| - 1];
      assert a + b == a + b[..|b| - 1] + [u];
      LongsAppend(a + b[..|b| - 1], u);
      LongsPrefix(a, b[..|b| - 1]);
    }
  }

  // ----- invariant ------------------------------------------------------------------------------

  ghost predicate Inv(p: Pool)
  {
    && p.available <= p.initial && p.initial > 0
    && |p.workers| == Longs(p.submitted) + (p.initial - p.available)
    && p.submitted == p.started + p.queue
    && (forall i :: 0 <= i < |p.submitted| ==> p.submitted[i].id == i)
    && BusyLong(p.workers) <= Longs(p.started)
    && (p.workers == [] ==> p.started == [] && |p.submitted| <= 1)
    && (p.submitted == [] || (|p.submitted| == 1 && !p.submitted[0].long) ==> p.workers == [])
  }

  lemma SubmitKeepsInv(p: Pool, u: Unit)
    requires Inv(p) && u.id == |p.submitted|
    ensures Inv(Submitted(p, u))
  {
    hide Longs, BusyLong;
    LongsAppend(p.submitted, u);
    BusyLongIdle(p.workers);
    assert p.submitted + [u] == p.started + (p.queue + [u]);
    assert |p.submitted| == |p.started| + |p.queue|;
  }

  lemma TakeKeepsInv(p: Pool, w: nat)
    requires Inv(p) && Step(p, Take(w)).Some?
    ensures Inv(Step(p, Take(w)).value)
  {
    hide Longs, BusyLong;
    BusyLongUpdate(p.workers, w, Some(p.queue[0]));
    LongsAppend(p.started, p.queue[0]);
    assert p.started + [p.queue[0]] + p.queue[1..] == p.submitted;
  }

  lemma StepKeepsInv(p: Pool, e: Event)
    requires Inv(p) && Step(p, e).Some?
    ensures Inv(Step(p, e).value)
  {
    hide Longs, BusyLong;
    match e {
      case Submit(u) => SubmitKeepsInv(p, u);
      case Take(w) => TakeKeepsInv(p, w);
      case Finish(w) => BusyLongUpdate(p.workers, w, None);
    }
  }

  lemma {:induction false} RunKeepsInv(hardware: nat, es: seq<Event>)
    ensures var r := Runs.Exec(Step, Init(hardware), es); r.Some? ==> Inv(r.value)
  {
    forall p, e | Inv(p) && Step(p, e).Some?
      ensures Inv(Step(p, e).value)
    {
      StepKeepsInv(p, e);
    }
    Runs.InvariantOverRuns(Step, Inv, Init(hardware), es);
  }

  // ----- main results ----------------------------------------------------------------------------

  /** In every reachable state the threads are one per long submission plus the spent allowance, and the
      units have started in submission order, each at most once. */
  lemma {:induction false} Accounting(hardware: nat, es: seq<Event>, p: Pool)
    requires Runs.Exec(Step, Init(hardware), es) == Some(p)
    ensures |p.workers| == Longs(p.submitted) + (p.initial - p.available)
    ensures p.submitted == p.started + p.queue
    ensures forall i :: 0 <= i < |p.started| ==> p.started[i].id == i
  {
    RunKeepsInv(hardware, es);
    assert forall i :: 0 <= i < |p.started| ==> p.submitted[i] == p.started[i];
  }

  // ----- counted from the run -----------------------------------------------------------------------

  function Takes(es: seq<Event>): nat
  {
    if es == [] then 0 else Takes(es[..|es| - 1]) + if es[|es| - 1].Take? then 1 else 0
  }

  function Submissions(es: seq<Event>): nat
  {
    if es == [] then 0 else Submissions(es[..|es| - 1]) + if es[|es| - 1].Submit? then 1 else 0
  }

  function LongSubmissions(es: seq<Event>): nat
  {
    if es == [] then 0
    else LongSubmissions(es[..|es| - 1]) + if es[|es| - 1].Submit? && es[|es| - 1].u.long then 1 else 0
  }

  /** The short submissions that came while more units had been submitted than taken. */
  function Behind(es: seq<Event>): nat
  {
    if es == [] then 0
    else
      var before, last := es[..|es| - 1], es[|es| - 1];
      Behind(before) + if last.Submit? && !last.u.long && Submissions(before) > Takes(before) then 1 else 0
  }

  function Min(a: nat, b: nat): nat
  {
    if a <= b then a else b
  }

  function Allowance(hardware: nat): nat
  {
    if hardware == 0 then 3 else hardware
  }

  /** Over every run: what is queued are the submissions not yet taken, and each short submission that found the
      queue nonempty has spent one thread of the allowance, until there was none left. */
  lemma {:induction false} SpentAllowance(hardware: nat, es: seq<Event>, p: Pool)
    requires Runs.Exec(Step, Init(hardware), es) == Some(p)
    ensures |p.queue| == Submissions(es) - Takes(es) && |p.started| == Takes(es)
    ensures p.initial == Allowance(hardware)
    ensures p.initial - p.available == Min(Allowance(hardware), Behind(es))
    ensures |p.workers| == LongSubmissions(es) + Min(Allowance(hardware), Behind(es))
  {
    if es != [] {
      var before := es[..|es| - 1];
      SpentAllowance(hardware, before, Runs.Exec(Step, Init(hardware), before).value);
    }
  }

  /** So a submission adds one idle thread exactly when it is long, or finds the queue nonempty while fewer short
      ones than the allowance have done so before; and the unit is queued behind all others. */
  lemma {:induction false} EachSubmission(hardware: nat, es: seq<Event>, p: Pool, u: Unit, q: Pool)
    requires Runs.Exec(Step, Init(hardware), es) == Some(p) && Step(p, Submit(u)) == Some(q)
    ensures var more := u.long || (Submissions(es) > Takes(es) && Behind(es) < Allowance(hardware));
            q.workers == p.workers + if more then [None] else []
    ensures q.queue == p.queue + [u] && q.started == p.started
  {
    SpentAllowance(hardware, es, p);
  }

  /** The number of the take after whose unit the worker has not finished: its last event, if that is a take. */
  function LastTake(es: seq<Event>, w: nat): Option<nat>
  {
    if es == [] then None
    else
      var before, last := es[..|es| - 1], es[|es| - 1];
      if last == Take(w) then Some(Takes(before))
      else if last == Finish(w) then None
      else LastTake(before, w)
  }

  /** Over every run: a worker is busy exactly from a take until it finishes, with the unit whose place in the order
      of submission is the number of that take. */
  lemma {:induction false} WorkerRunsWhatItTook(hardware: nat, es: seq<Event>, p: Pool, w: nat)
    requires Runs.Exec(Step, Init(hardware), es) == Some(p)
    ensures w < |p.workers| && p.workers[w].Some? <==> LastTake(es, w).Some?
    ensures LastTake(es, w).Some? ==> p.workers[w].value.id == LastTake(es, w).value
  {
    if es != [] {
      var before, last := es[..|es| - 1], es[|es| - 1];
      var b := Runs.Exec(Step, Init(hardware), before).value;
      WorkerRunsWhatItTook(hardware, before, b, w);
      if last.Take? {
        SpentAllowance(hardware, before, b);
        Accounting(hardware, before, b);
        RunKeepsInv(hardware, before);
        assert b.submitted[|b.started|] == b.queue[0];
      }
    }
  }

  /** Once a short unit was queued behind another, part of the allowance is spent for good. */
  lemma AllowanceStaysSpent(p: Pool, e: Event)
    requires Inv(p) && Step(p, e).Some?
    requires p.available < p.initial || (e.Submit? && !e.u.long && p.queue != [])
    ensures var q := Step(p, e).value; q.available < q.initial
  {
  }

  /** Then some worker runs no long unit, in whatever way the long units are taken. */
  lemma {:induction false} ShortUnitsKeepAWorker(
      hardware: nat, es: seq<Event>, p: Pool, u: Unit, more: seq<Event>, q: Pool)
    requires Runs.Exec(Step, Init(hardware), es) == Some(p) && !u.long && p.queue != [] && u.id == |p.submitted|
    requires Runs.Exec(Step, Submitted(p, u), more) == Some(q)
    ensures exists w :: 0 <= w < |q.workers| && !(q.workers[w].Some? && q.workers[w].value.long)
  {
    RunKeepsInv(hardware, es);
    var inv := (r: Pool) => Inv(r) && r.available < r.initial;
    forall r, e | inv(r) && Step(r, e).Some?
      ensures inv(Step(r, e).value)
    {
      StepKeepsInv(r, e);
      AllowanceStaysSpent(r, e);
    }
    StepKeepsInv(p, Submit(u));
    AllowanceStaysSpent(p, Submit(u));
    Runs.InvariantOverRuns(Step, inv, Submitted(p, u), more);
    LongsPrefix(q.started, q.queue);
    var w := SomeWorkerFree(q.workers);
  }

  /** Queued work without any thread to do it: exactly when one short unit is all that was submitted. */
  lemma {:induction false} NoThreadForQueuedWorkIff(hardware: nat, es: seq<Event>, p: Pool)
    requires Runs.Exec(Step, Init(hardware), es) == Some(p)
    ensures p.queue != [] && p.workers == [] <==> |p.submitted| == 1 && !p.submitted[0].long
  {
    RunKeepsInv(hardware, es);
    hide Longs, BusyLong, Step;
    if p.queue != [] && p.workers == [] {
      assert p.submitted == p.queue;
      LongsAppend([], p.submitted[0]);
      assert p.submitted == [] + [p.submitted[0]];
    }
  }

  // ----- the object --------------------------------------------------------------------------------

  class ThreadPool {
    const initialThreads: nat
    var availableThreads: nat
    var wtQueue: seq<Unit>
    var threads: seq<Option<Unit>>
    ghost var submitted: seq<Unit>
    ghost var started: seq<Unit>

    ghost function State(): Pool
      reads this
    {
      Pool(initialThreads, availableThreads, wtQueue, threads, submitted, started)
    }

    constructor (hardwareConcurrency: nat)
      ensures State() == Init(hardwareConcurrency)
      ensures availableThreads == initialThreads == if hardwareConcurrency == 0 then 3 else hardwareConcurrency
    {
      initialThreads := if hardwareConcurrency == 0 then 3 else hardwareConcurrency;
      availableThreads := hardwareConcurrency;
      if hardwareConcurrency == 0 {
        availableThreads := 3;
      }
      wtQueue, threads, submitted, started := [], [], [], [];
    }

    method SetWorkUnit(wu: Unit, isLongWorkedThread: bool)
      requires wu.long == isLongWorkedThread
      modifies this
      ensures State() == Submitted(old(State()), wu)
      ensures wtQueue == old(wtQueue) + [wu]
      ensures var behind := !isLongWorkedThread && old(wtQueue) != [] && old(availableThreads) > 0;
              && threads == old(threads) + (if isLongWorkedThread || behind then [None] else [])
              && availableThreads == old(availableThreads) - if behind then 1 else 0
    {
      if isLongWorkedThread {
        threads := threads + [None];
      } else if availableThreads > 0 && |wtQueue| > 0 {
        threads := threads + [None];
        availableThreads := availableThreads - 1;
      }
      wtQueue := wtQueue + [wu];
      submitted := submitted + [wu];
    }

    /** The locked part of work_thread, when the wait is over. */
    method TakeUnit(worker: nat) returns (unit: Unit)
      requires worker < |threads| && threads[worker].None? && wtQueue != []
      modifies this
      ensures Some(State()) == Step(old(State()), Take(worker)) && unit == old(wtQueue)[0]
    {
      unit := wtQueue[0];
      wtQueue := wtQueue[1..];
      threads := threads[worker := Some(unit)];
      started := started + [unit];
    }

    method UnitDone(worker: nat)
      requires worker < |threads| && threads[worker].Some?
      modifies this
      ensures Some(State()) == Step(old(State()), Finish(worker))
    {
      threads := threads[worker := None];
    }
  }
}
