/** CLogger as an object: Push, one whole serial invocation of LogMultiplexer, and the end of a Write job
    (proxy/logger.cpp, proxy/sink.cpp). */
module LoggerObject {
  import opened LogPackages
  import opened StableOrder
  import opened Timestamps
  import opened Wrappers
  import opened Logger
  import Runs

  function JobsFor(todo: seq<nat>, batch: nat): (jobs: seq<Job>)
    ensures |jobs| == |todo| && forall i :: 0 <= i < |jobs| ==> jobs[i] == Job(todo[i], batch)
  {
    seq(|todo|, i requires 0 <= i < |todo| => Job(todo[i], batch))
  }

  /** All pending dispatches done. */
  function DispatchAll(l: Logger): Logger
    requires l.mux.Dispatching? && l.batches != []
  {
    l.(mux := Idle, jobCounter := l.jobCounter + |l.mux.todo|, jobs := l.jobs + JobsFor(l.mux.todo, |l.batches| - 1))
  }

  /** One invocation of the multiplexer without interruption. */
  function Multiplexed(l: Logger): Logger
    requires ClockTime(l.clock)
  {
    if l.jobCounter != 0 || l.store == [] then l
    else
      var m := Extract(l, Cut(l.clock));
      if m.mux.Dispatching? then DispatchAll(m) else m
  }

  lemma MultiplexedCases(l: Logger)
    requires ClockTime(l.clock) && l.mux.Idle?
    ensures l.jobCounter != 0 || l.store == [] ==> Multiplexed(l) == l
    ensures l.jobCounter == 0 && l.store != [] ==>
              var n := UpperBound(l.store, Cut(l.clock));
              var todo := Interested(l.sinks, l.store[..n], 0);
              Multiplexed(l) == if n == 0 then l
                                else l.(store := l.store[n..], batches := l.batches + [l.store[..n]],
                                        jobCounter := |todo|, jobs := l.jobs + JobsFor(todo, |l.batches|))
  {
    hide Cut, UpperBound, Interested, JobsFor, HasChannel;
  }

  lemma JobsStep(jobs: seq<Job>, todo: seq<nat>, batch: nat)
    requires todo != []
    ensures jobs + JobsFor(todo, batch) == jobs + [Job(todo[0], batch)] + JobsFor(todo[1..], batch)
  {
    assert JobsFor(todo, batch) == [Job(todo[0], batch)] + JobsFor(todo[1..], batch);
  }

  lemma InterestedStep(jobs: seq<Job>, sinks: seq<Int8>, batch: seq<LogPackage>, i: nat, number: nat)
    requires i < |sinks|
    ensures var left, next := Interested(sinks, batch, i), Interested(sinks, batch, i + 1);
            && |left| == |next| + (if HasChannel(batch, sinks[i]) then 1 else 0)
            && jobs + JobsFor(left, number) ==
               jobs + (if HasChannel(batch, sinks[i]) then [Job(i, number)] else []) + JobsFor(next, number)
  {
    hide HasChannel, JobsFor;
    if HasChannel(batch, sinks[i]) {
      var left := Interested(sinks, batch, i);
      assert left[0] == i && left[1..] == Interested(sinks, batch, i + 1);
      JobsStep(jobs, left, number);
    }
  }

  lemma {:induction false} NoneLeft(sinks: seq<Int8>, batch: seq<LogPackage>)
    ensures Interested(sinks, batch, |sinks|) == []
  {
  }

  lemma {:induction false} DispatchStep(l: Logger)
    requires l.mux.Dispatching? && l.batches != [] && l.mux.todo != []
    ensures Step(l, MuxDispatch).Some?
    ensures var m := Step(l, MuxDispatch).value;
            m.mux == Dispatching(l.mux.todo[1..]) && m.batches == l.batches && DispatchAll(m) == DispatchAll(l)
  {
    JobsStep(l.jobs, l.mux.todo, |l.batches| - 1);
    hide JobsFor;
  }

  lemma {:induction false} DispatchAllIsARun(l: Logger)
    requires l.mux.Dispatching? && l.batches != []
    ensures Runs.Exec(Step, l, seq(|l.mux.todo| + 1, _ => MuxDispatch)) == Some(DispatchAll(l))
    decreases |l.mux.todo|
  {
    var n := |l.mux.todo|;
    Runs.ExecOne(Step, l, MuxDispatch);
    if n == 0 {
      assert seq(n + 1, _ => MuxDispatch) == [MuxDispatch];
      assert DispatchAll(l) == l.(mux := Idle);
    } else {
      DispatchStep(l);
      hide DispatchAll, Step;
      var rest := seq(n, _ => MuxDispatch);
      DispatchAllIsARun(Step(l, MuxDispatch).value);
      Runs.ExecAppend(Step, l, [MuxDispatch], rest);
      assert seq(n + 1, _ => MuxDispatch) == [MuxDispatch] + rest;
    }
  }

  lemma {:induction false} BeginAndExtract(l: Logger)
    requires l.mux.Idle? && ClockTime(l.clock) && l.jobCounter == 0 && l.store != []
    ensures Runs.Exec(Step, l, [MuxBegin, MuxExtract]) == Some(Extract(l, Cut(l.clock)))
  {
    hide Cut, Interested, UpperBound, HasChannel;
    var start := [MuxBegin, MuxExtract];
    assert start[..1] == [MuxBegin];
    Runs.ExecOne(Step, l, MuxBegin);
  }

  lemma ExtractedHasBatch(l: Logger, at: Timespec)
    ensures Extract(l, at).mux.Dispatching? ==> Extract(l, at).batches != []
  {
    hide Interested, UpperBound;
  }

  /** The uninterrupted invocation is one of the interleavings. */
  lemma {:induction false} MultiplexedIsARun(l: Logger)
    requires l.mux.Idle? && ClockTime(l.clock)
    ensures exists es :: Runs.Exec(Step, l, es) == Some(Multiplexed(l))
  {
    hide Step, Extract, Cut, DispatchAll;
    if l.jobCounter != 0 || l.store == [] {
      assert Runs.Exec(Step, l, []) == Some(l);
    } else {
      var m := Extract(l, Cut(l.clock));
      BeginAndExtract(l);
      ExtractedHasBatch(l, Cut(l.clock));
      if m.mux.Dispatching? {
        DispatchAllIsARun(m);
        Runs.ExecAppend(Step, l, [MuxBegin, MuxExtract], seq(|m.mux.todo| + 1, _ => MuxDispatch));
      }
    }
  }

  /** With no job unfinished, one invocation leaves only records after the cut-off; otherwise it does nothing. */
  lemma {:induction false} MultiplexerTakesAllDue(l: Logger)
    requires ClockTime(l.clock) && Sorted(l.store)
    ensures l.jobCounter == 0 ==>
              forall i :: 0 <= i < |Multiplexed(l).store| ==> Less(Cut(l.clock), Multiplexed(l).store[i].timestamp)
    ensures l.jobCounter != 0 ==> Multiplexed(l) == l
  {
    hide UpperBound, Interested, JobsFor, HasChannel, Cut, Sorted;
    ExtractTakesExactlyTheDue(l, Cut(l.clock));
  }

  class CLogger {
    var logRecords: seq<LogPackage>
    const sinks: seq<Int8>
    var jobCounter: nat
    var jobs: seq<Job>
    ghost var clock: Timespec
    ghost var accepted: seq<LogPackage>
    var batches: seq<seq<LogPackage>>
    ghost var written: seq<seq<nat>>
    ghost var steady: bool
    ghost var punctual: bool

    ghost function State(): Logger
      reads this
    {
      Logger(sinks, logRecords, Idle, jobCounter, jobs, clock, accepted, batches, written, steady, punctual)
    }

    constructor (sinks: seq<Int8>, ghost now: Timespec)
      ensures State() == Init(sinks, now)
    {
      this.sinks := sinks;
      logRecords, jobCounter, jobs, clock := [], 0, [], now;
      accepted, batches, written, steady, punctual := [], [], seq(|sinks|, _ => []), true, true;
    }

    method Push(p: LogPackage)
      requires ClockTime(clock)
      modifies this
      ensures Some(State()) == Step(old(State()), Event.Push(p))
    {
      if p.channel != LOG_UNKNOWN_CHANNEL {
        logRecords := Insert(logRecords, p);
        accepted := accepted + [p];
        punctual := punctual && !Less(p.timestamp, Cut(clock));
      }
    }

    /** std::find_if over the batch. */
    static method FindChannel(batch: seq<LogPackage>, channel: Int8) returns (found: bool)
      ensures found <==> HasChannel(batch, channel)
    {
      for i := 0 to |batch|
        invariant forall j :: 0 <= j < i ==> batch[j].channel != channel
      {
        if batch[i].channel == channel {
          return true;
        }
      }
      return false;
    }

    /** upper_bound on the ordered store. */
    static method FindUpperBound(s: seq<LogPackage>, t: Timespec) returns (n: nat)
      ensures n == UpperBound(s, t)
    {
      n := 0;
      while n < |s| && !Less(t, s[n].timestamp)
        invariant n <= |s| && UpperBound(s, t) == n + UpperBound(s[n..], t)
      {
        assert s[n..][1..] == s[n + 1..];
        n := n + 1;
      }
    }

    /** One turn of the loop over the sinks. */
    method QueueJob(i: nat, outRecords: seq<LogPackage>, number: nat)
      requires i < |sinks|
      modifies this`jobs, this`jobCounter
      ensures jobs == old(jobs) + if HasChannel(outRecords, sinks[i]) then [Job(i, number)] else []
      ensures jobCounter == old(jobCounter) + if HasChannel(outRecords, sinks[i]) then 1 else 0
    {
      hide HasChannel;
      var found := FindChannel(outRecords, sinks[i]);
      if found {
        jobCounter := jobCounter + 1;
        jobs := jobs + [Job(i, number)];
      }
    }

    /** The loop over the sinks. */
    method QueueJobs(outRecords: seq<LogPackage>, number: nat)
      modifies this`jobs, this`jobCounter
      ensures jobs == old(jobs) + JobsFor(Interested(sinks, outRecords, 0), number)
      ensures jobCounter == old(jobCounter) + |Interested(sinks, outRecords, 0)|
    {
      hide HasChannel, JobsFor, Interested;
      ghost var todo := Interested(sinks, outRecords, 0);
      for i := 0 to |sinks|
        invariant jobs + JobsFor(Interested(sinks, outRecords, i), number) == old(jobs) + JobsFor(todo, number)
        invariant jobCounter + |Interested(sinks, outRecords, i)| == old(jobCounter) + |todo|
      {
        InterestedStep(jobs, sinks, outRecords, i, number);
        QueueJob(i, outRecords, number);
      }
      NoneLeft(sinks, outRecords);
    }

    method LogMultiplexer(now: Timespec)
      requires ClockTime(now) && now == clock
      modifies this
      ensures State() == Multiplexed(old(State()))
    {
      hide Cut, UpperBound, Interested, JobsFor, HasChannel, Multiplexed;
      MultiplexedCases(State());
      if jobCounter == 0 && |logRecords| > 0 {
        var at := Cut(now);
        var n := FindUpperBound(logRecords, at);
        var outRecords := logRecords[..n];
        logRecords := logRecords[n..];
        if |outRecords| > 0 {
          batches := batches + [outRecords];
          QueueJobs(outRecords, |batches| - 1);
        }
      }
    }

    /** The end of a Write: DecrementJobCounter. */
    method WriteFinished(k: nat)
      requires k < |jobs| && jobs[k].sink < |written| && jobCounter > 0
      modifies this
      ensures Some(State()) == Step(old(State()), Finish(k))
    {
      var j := jobs[k];
      written := written[j.sink := written[j.sink] + [j.batch]];
      jobs := jobs[..k] + jobs[k + 1..];
      jobCounter := jobCounter - 1;
    }
  }
}
