/** The logger (proxy/logger.cpp, and the job counter of proxy/sink.cpp): an ordered store, batches cut off
    at a delay behind the clock, and write jobs fanned out to the sinks behind a gate. One invocation of the
    multiplexer runs at a time; pushes, finishing jobs and the clock interleave with its steps. */
module Logger {
  import opened LogPackages
  import opened Seqs
  import opened StableOrder
  import opened Timestamps
  import opened Wrappers
  import Runs

  const LOG_UNKNOWN_CHANNEL: Int8 := -1

  /** The delay is named in milliseconds but applied in microseconds. */
  const LOG_OUTPUT_DELAY_MS: int := 2500

  datatype Multiplexer = Idle | CutOff(at: Timespec) | Dispatching(todo: seq<nat>)

  /** A Write job: a sink's index and the number of the batch it writes. */
  datatype Job = Job(sink: nat, batch: nat)

  /** `sinks` holds each sink's channel, `written` the batches each sink has written so far. `steady` and
      `punctual` say whether the clock never went back and every push came within the delay. */
  datatype Logger = Logger(
    sinks: seq<Int8>, store: seq<LogPackage>, mux: Multiplexer, jobCounter: nat, jobs: seq<Job>, clock: Timespec,
    accepted: seq<LogPackage>, batches: seq<seq<LogPackage>>, written: seq<seq<nat>>, steady: bool, punctual: bool)

  predicate ClockTime(t: Timespec)
  {
    t.sec >= 0 && Normalised(t)
  }

  function Cut(now: Timespec): Timespec
    requires ClockTime(now)
  {
    Adjust(now, -LOG_OUTPUT_DELAY_MS)
  }

  function Init(sinks: seq<Int8>, now: Timespec): Logger
  {
    Logger(sinks, [], Idle, 0, [], now, [], [], seq(|sinks|, _ => []), true, true)
  }

  // ----- pieces of the multiplexer -----------------------------------------------------------

  predicate HasChannel(batch: seq<LogPackage>, channel: Int8)
  {
    exists i :: 0 <= i < |batch| && batch[i].channel == channel
  }

  /** The sinks from index `from` on whose channel occurs in the batch. */
  function Interested(sinks: seq<Int8>, batch: seq<LogPackage>, from: nat): (r: seq<nat>)
    requires from <= |sinks|
    ensures forall i :: 0 <= i < |r| ==> from <= r[i] < |sinks| && HasChannel(batch, sinks[r[i]])
    ensures forall i, j :: 0 <= i < j < |r| ==> r[i] < r[j]
    ensures forall k :: from <= k < |sinks| && HasChannel(batch, sinks[k]) ==> k in r
    decreases |sinks| - from
  {
    if from == |sinks| then []
    else if HasChannel(batch, sinks[from]) then [from] + Interested(sinks, batch, from + 1)
    else Interested(sinks, batch, from + 1)
  }

  /** Everything not after the cut-off leaves the store; an empty batch is forgotten. */
  function Extract(l: Logger, at: Timespec): Logger
  {
    var n := UpperBound(l.store, at);
    if n == 0 then l.(mux := Idle)
    else l.(store := l.store[n..], batches := l.batches + [l.store[..n]],
            mux := Dispatching(Interested(l.sinks, l.store[..n], 0)))
  }

  datatype Event =
    | Tick(now: Timespec)
    | Push(p: LogPackage)
    | MuxBegin
    | MuxExtract
    | MuxDispatch
    | Finish(job: nat)

  function Step(l: Logger, e: Event): Option<Logger>
  {
    match e
    case Tick(now) =>
      if ClockTime(now) then Some(l.(clock := now, steady := l.steady && !Less(now, l.clock))) else None
    case Push(p) =>
      if p.channel == LOG_UNKNOWN_CHANNEL then Some(l)
      else if !ClockTime(l.clock) then None
      else Some(l.(store := Insert(l.store, p), accepted := l.accepted + [p],
                   punctual := l.punctual && !Less(p.timestamp, Cut(l.clock))))
    case MuxBegin =>
      if l.mux != Idle || !ClockTime(l.clock) then None
      else if l.jobCounter == 0 && l.store != [] then Some(l.(mux := CutOff(Cut(l.clock))))
      else Some(l)
    case MuxExtract =>
      if l.mux.CutOff? then Some(Extract(l, l.mux.at)) else None
    case MuxDispatch =>
      if !l.mux.Dispatching? then None
      else if l.mux.todo == [] then Some(l.(mux := Idle))
      else if l.batches == [] then None
      else Some(l.(mux := Dispatching(l.mux.todo[1..]), jobCounter := l.jobCounter + 1,
                   jobs := l.jobs + [Job(l.mux.todo[0], |l.batches| - 1)]))
    case Finish(k) =>
      if k < |l.jobs| && l.jobs[k].sink < |l.written| && l.jobCounter > 0 then
        var j := l.jobs[k];
        Some(l.(jobs := l.jobs[..k] + l.jobs[k + 1..], jobCounter := l.jobCounter - 1,
                written := l.written[j.sink := l.written[j.sink] + [j.batch]]))
      else None
  }

  // ----- conservation and order ----------------------------------------------------------------

  /** Everything extracted so far, followed by the store. */
  function OutAndStore(l: Logger): seq<LogPackage>
  {
    Concat(l.batches) + l.store
  }

  ghost predicate Conserved(l: Logger)
  {
    && Sorted(l.store)
    && multiset(OutAndStore(l)) == multiset(l.accepted)
    && forall t :: At(t, OutAndStore(l)) == At(t, l.accepted)
  }

  lemma ExtractKeepsOutAndStore(l: Logger, at: Timespec)
    ensures OutAndStore(Extract(l, at)) == OutAndStore(l)
  {
    hide UpperBound, Concat, Interested;
    var n := UpperBound(l.store, at);
    ConcatOne(l.batches, l.store[..n]);
    Assoc(Concat(l.batches), l.store[..n], l.store[n..]);
    assert l.store == l.store[..n] + l.store[n..];
  }

  lemma PushConserves(l: Logger, p: LogPackage)
    requires Conserved(l) && p.channel != LOG_UNKNOWN_CHANNEL && ClockTime(l.clock)
    ensures Conserved(Step(l, Push(p)).value)
  {
    hide UpperBound, Filter;
    var m := Step(l, Push(p)).value;
    var out := Concat(l.batches);
    InsertKeepsSorted(l.store, p);
    InsertAdds(l.store, p);
    forall t
      ensures At(t, OutAndStore(m)) == At(t, m.accepted)
    {
      hide Insert, Sorted, At;
      InsertIsStable(l.store, p, t);
      AtAppend(t, out, m.store);
      AtAppend(t, l.store, [p]);
      AtAppend(t, out, l.store);
      AtAppend(t, l.accepted, [p]);
    }
  }

  lemma ExtractConserves(l: Logger)
    requires Conserved(l) && l.mux.CutOff?
    ensures Conserved(Extract(l, l.mux.at))
  {
    hide UpperBound, Filter, At;
    ExtractKeepsOutAndStore(l, l.mux.at);
  }

  lemma {:induction false} StepConserves(l: Logger, e: Event)
    requires Conserved(l) && Step(l, e).Some?
    ensures Conserved(Step(l, e).value)
  {
    hide Concat, At, Filter, Insert, UpperBound, Sorted;
    match e {
      case Push(p) => if p.channel != LOG_UNKNOWN_CHANNEL { PushConserves(l, p); }
      case MuxExtract => ExtractConserves(l);
      case _ =>
    }
  }

  // ----- sorted output ---------------------------------------------------------------------------

  ghost predicate NoneAfter(s: seq<LogPackage>, t: Timespec)
  {
    forall i :: 0 <= i < |s| ==> !Less(t, s[i].timestamp)
  }

  /** While the clock is steady and pushes are punctual, nothing extracted is after the present cut-off. */
  ghost predicate Ordered(l: Logger)
  {
    && Conserved(l)
    && ClockTime(l.clock)
    && (l.steady && l.punctual ==>
          && OutAndStore(l) == StableSort(l.accepted)
          && NoneAfter(Concat(l.batches), Cut(l.clock))
          && (l.mux.CutOff? ==> !Less(Cut(l.clock), l.mux.at)))
  }

  lemma {:induction false} TickKeepsOrdered(l: Logger, now: Timespec)
    requires Ordered(l) && ClockTime(now)
    ensures Ordered(Step(l, Tick(now)).value)
  {
    if l.steady && l.punctual && !Less(now, l.clock) {
      AdjustKeepsOrder(now, l.clock, -LOG_OUTPUT_DELAY_MS);
      forall t: Timespec
        ensures !Less(Cut(l.clock), t) ==> !Less(Cut(now), t)
      {
        LessIsTotalOrder(Cut(now), Cut(l.clock), t);
      }
    }
  }

  lemma {:induction false} PushKeepsOrdered(l: Logger, p: LogPackage)
    requires Ordered(l) && p.channel != LOG_UNKNOWN_CHANNEL
    ensures Ordered(Step(l, Push(p)).value)
  {
    hide Concat, At, UpperBound, Insert, Cut, Sorted;
    StepConserves(l, Push(p));
    if l.steady && l.punctual && !Less(p.timestamp, Cut(l.clock)) {
      var out := Concat(l.batches);
      forall i | 0 <= i < |out|
        ensures !Before(p, out[i])
      {
        LessIsTotalOrder(p.timestamp, Cut(l.clock), out[i].timestamp);
      }
      InsertBehind(out, l.store, p);
      assert (l.accepted + [p])[..|l.accepted|] == l.accepted;
    }
  }

  lemma {:induction false} BatchNotAfter(store: seq<LogPackage>, at: Timespec, cut: Timespec)
    requires Sorted(store) && !Less(cut, at)
    ensures NoneAfter(store[..UpperBound(store, at)], cut)
  {
    UpperBoundSplits(store, at);
    forall i | 0 <= i < UpperBound(store, at)
      ensures !Less(cut, store[i].timestamp)
    {
      LessIsTotalOrder(cut, at, store[i].timestamp);
    }
  }

  lemma {:induction false} ExtractKeepsOrdered(l: Logger)
    requires Ordered(l) && l.mux.CutOff?
    ensures Ordered(Extract(l, l.mux.at))
  {
    hide UpperBound, Concat, StableSort, Less, Cut, At, Filter, Interested;
    ExtractConserves(l);
    ExtractKeepsOutAndStore(l, l.mux.at);
    if l.steady && l.punctual {
      BatchNotAfter(l.store, l.mux.at, Cut(l.clock));
      ConcatOne(l.batches, l.store[..UpperBound(l.store, l.mux.at)]);
    }
  }

  lemma BeginKeepsOrdered(l: Logger)
    requires Ordered(l) && Step(l, MuxBegin).Some?
    ensures Ordered(Step(l, MuxBegin).value)
  {
    hide Concat, StableSort, At, Cut;
    LessIsTotalOrder(Cut(l.clock), Cut(l.clock), Cut(l.clock));
  }

  lemma StepKeepsOrdered(l: Logger, e: Event)
    requires Ordered(l) && Step(l, e).Some?
    ensures Ordered(Step(l, e).value)
  {
    hide Concat, StableSort, At, Less, Cut;
    match e {
      case Tick(now) => TickKeepsOrdered(l, now);
      case Push(p) => if p.channel != LOG_UNKNOWN_CHANNEL { PushKeepsOrdered(l, p); }
      case MuxBegin => BeginKeepsOrdered(l);
      case MuxExtract => ExtractKeepsOrdered(l);
      case _ =>
    }
  }

  // ----- gated fan-out -------------------------------------------------------------------------------

  /** The batches in which a channel occurs: what the sink of that channel has to write, in order. */
  function Due(channel: Int8, batches: seq<seq<LogPackage>>): (r: seq<nat>)
    ensures forall i :: 0 <= i < |r| ==> r[i] < |batches|
  {
    if batches == [] then [] else
    var n := |batches| - 1;
    Due(channel, batches[..n]) + if HasChannel(batches[n], channel) then [n] else []
  }

  ghost predicate InFlight(l: Logger, s: nat)
  {
    (l.mux.Dispatching? && s in l.mux.todo) || exists i :: 0 <= i < |l.jobs| && l.jobs[i].sink == s
  }

  ghost predicate Gated(l: Logger)
  {
    && l.jobCounter == |l.jobs|
    && |l.written| == |l.sinks|
    && (l.mux.CutOff? ==> l.jobs == [])
    && (forall i :: 0 <= i < |l.jobs| ==> l.jobs[i].sink < |l.sinks| && l.jobs[i].batch == |l.batches| - 1)
    && (forall i, j :: 0 <= i < j < |l.jobs| ==> l.jobs[i].sink != l.jobs[j].sink)
    && (l.mux.Dispatching? ==>
          && l.batches != []
          && (forall i :: 0 <= i < |l.mux.todo| ==> l.mux.todo[i] < |l.sinks|)
          && (forall i, j :: 0 <= i < j < |l.mux.todo| ==> l.mux.todo[i] < l.mux.todo[j])
          && (forall i :: 0 <= i < |l.jobs| ==> l.jobs[i].sink !in l.mux.todo))
    && (forall s :: 0 <= s < |l.sinks| ==> Ledger(l, s))
  }

  /** What a sink has written, with the batch it still has to write, is what it was due. */
  ghost predicate Ledger(l: Logger, s: nat)
    requires s < |l.sinks| && s < |l.written|
  {
    l.written[s] + (if InFlight(l, s) then [|l.batches| - 1] else []) == Due(l.sinks[s], l.batches)
  }

  lemma {:induction false} DueSnoc(channel: Int8, batches: seq<seq<LogPackage>>, b: seq<LogPackage>)
    ensures Due(channel, batches + [b]) == Due(channel, batches) + if HasChannel(b, channel) then [|batches|] else []
  {
    assert (batches + [b])[..|batches|] == batches;
  }

  lemma ExtractKeepsGated(l: Logger)
    requires Gated(l) && l.mux.CutOff?
    ensures Gated(Extract(l, l.mux.at))
  {
    hide Due, HasChannel, UpperBound;
    var m := Extract(l, l.mux.at);
    var n := UpperBound(l.store, l.mux.at);
    forall s | 0 <= s < |l.sinks|
      ensures Ledger(m, s)
    {
      assert Ledger(l, s);
      DueSnoc(l.sinks[s], l.batches, l.store[..n]);
    }
  }

  lemma SameLedger(l: Logger, m: Logger)
    requires |l.written| == |l.sinks| && m.sinks == l.sinks && m.batches == l.batches && m.written == l.written
    requires forall s :: InFlight(m, s) <==> InFlight(l, s)
    ensures forall s :: 0 <= s < |l.sinks| && Ledger(l, s) ==> Ledger(m, s)
  {
    hide InFlight, Due;
  }

  lemma DispatchKeepsGated(l: Logger)
    requires Gated(l) && l.mux.Dispatching? && l.mux.todo != []
    ensures Gated(Step(l, MuxDispatch).value)
  {
    hide Due, HasChannel, Ledger;
    var m := Step(l, MuxDispatch).value;
    var head := l.mux.todo[0];
    assert m.jobs[|l.jobs|].sink == head;
    assert l.mux.todo == [head] + m.mux.todo;
    forall s | 0 <= s < |l.sinks|
      ensures InFlight(m, s) <==> InFlight(l, s)
    {
      assert forall i :: 0 <= i < |l.jobs| ==> m.jobs[i] == l.jobs[i];
    }
    SameLedger(l, m);
  }

  lemma {:induction false} FinishedNotInFlight(l: Logger, k: nat)
    requires Gated(l) && k < |l.jobs|
    ensures Step(l, Finish(k)).Some?
    ensures forall s :: InFlight(Step(l, Finish(k)).value, s) <==> InFlight(l, s) && s != l.jobs[k].sink
  {
    hide Due, HasChannel, Ledger;
    var m := Step(l, Finish(k)).value;
    forall s
      ensures InFlight(m, s) <==> InFlight(l, s) && s != l.jobs[k].sink
    {
      forall i | 0 <= i < |l.jobs| && i != k
        ensures l.jobs[i] == m.jobs[if i < k then i else i - 1]
      {
      }
    }
  }

  lemma {:induction false} FinishKeepsGated(l: Logger, k: nat)
    requires Gated(l) && k < |l.jobs|
    ensures Step(l, Finish(k)).Some? && Gated(Step(l, Finish(k)).value)
  {
    hide Due, HasChannel;
    var m := Step(l, Finish(k)).value;
    FinishedNotInFlight(l, k);
    assert InFlight(l, l.jobs[k].sink);
    hide InFlight;
    forall s | 0 <= s < |l.sinks|
      ensures Ledger(m, s)
    {
      assert Ledger(l, s);
    }
  }

  lemma {:induction false} StepKeepsGated(l: Logger, e: Event)
    requires Gated(l) && Step(l, e).Some?
    ensures Gated(Step(l, e).value)
  {
    match e {
      case MuxExtract => ExtractKeepsGated(l);
      case MuxDispatch =>
        if l.mux.todo != [] {
          DispatchKeepsGated(l);
        } else {
          SameJobsStayGated(l, Step(l, e).value);
        }
      case Finish(k) => FinishKeepsGated(l, k);
      case _ => SameJobsStayGated(l, Step(l, e).value);
    }
  }

  lemma SameJobsStayGated(l: Logger, m: Logger)
    requires Gated(l) && m.jobs == l.jobs && m.jobCounter == l.jobCounter && m.sinks == l.sinks
    requires m.batches == l.batches && m.written == l.written
    requires m.mux == l.mux || (l.mux.Idle? && m.mux.CutOff? && l.jobs == [])
             || (l.mux == Dispatching([]) && m.mux == Idle)
    ensures Gated(m)
  {
    hide Due, HasChannel, Ledger;
    assert forall s :: InFlight(m, s) <==> InFlight(l, s);
    SameLedger(l, m);
  }

  // ----- main results ---------------------------------------------------------------------------------

  ghost predicate Inv(l: Logger)
  {
    Ordered(l) && Gated(l)
  }

  lemma {:induction false} RunKeepsInv(sinks: seq<Int8>, now: Timespec, es: seq<Event>)
    requires ClockTime(now)
    ensures var r := Runs.Exec(Step, Init(sinks, now), es); r.Some? ==> Inv(r.value)
  {
    forall l, e | Inv(l) && Step(l, e).Some?
      ensures Inv(Step(l, e).value)
    {
      StepKeepsOrdered(l, e);
      StepKeepsGated(l, e);
    }
    InitInv(sinks, now);
    hide Ordered, Gated;
    Runs.InvariantOverRuns(Step, Inv, Init(sinks, now), es);
  }

  lemma {:induction false} InitInv(sinks: seq<Int8>, now: Timespec)
    requires ClockTime(now)
    ensures Inv(Init(sinks, now))
  {
    var l := Init(sinks, now);
    assert OutAndStore(l) == [];
  }

  lemma PrefixSorted(a: seq<LogPackage>, b: seq<LogPackage>)
    requires Sorted(a + b)
    ensures Sorted(a)
  {
    assert forall i :: 0 <= i < |a| ==> (a + b)[i] == a[i];
  }

  /** What punctual means for a normalised timestamp: at most 2500 microseconds have passed. */
  lemma PunctualMeans(t: Timespec, now: Timespec)
    requires ClockTime(now) && Normalised(t)
    ensures !Less(t, Cut(now)) <==> now.sec * 1_000_000 + now.nsec <= t.sec * 1_000_000 + t.nsec + 2500
  {
    OrderIsIntegerOrder(t, Cut(now));
  }

  // ----- the assumptions, counted from the run ---------------------------------------------------------

  function ClockAfter(now: Timespec, es: seq<Event>): Timespec
  {
    if es == [] then now
    else if es[|es| - 1].Tick? then es[|es| - 1].now
    else ClockAfter(now, es[..|es| - 1])
  }

  /** The records pushed, without those of channel -1. */
  function PushedIn(es: seq<Event>): seq<LogPackage>
  {
    if es == [] then []
    else
      var e := es[|es| - 1];
      PushedIn(es[..|es| - 1]) + if e.Push? && e.p.channel != -1 then [e.p] else []
  }

  /** No tick sets the clock back. */
  ghost predicate ClockNeverBack(now: Timespec, es: seq<Event>)
  {
    es != [] ==>
      var before, e := es[..|es| - 1], es[|es| - 1];
      && ClockNeverBack(now, before)
      && (e.Tick? ==> var c := ClockAfter(now, before);
                      e.now.sec * 1_000_000 + e.now.nsec >= c.sec * 1_000_000 + c.nsec)
  }

  /** A time is at most 2500 microseconds before the clock's, in the order of seconds, then microseconds. */
  ghost predicate InTime(t: Timespec, c: Timespec)
  {
    var earliest := c.sec * 1_000_000 + c.nsec - 2500;
    t.sec > earliest / 1_000_000 || (t.sec == earliest / 1_000_000 && t.nsec >= earliest % 1_000_000)
  }

  ghost predicate PushesInTime(now: Timespec, es: seq<Event>)
  {
    es != [] ==>
      var before, e := es[..|es| - 1], es[|es| - 1];
      && PushesInTime(now, before)
      && (e.Push? && e.p.channel != -1 ==> InTime(e.p.timestamp, ClockAfter(now, before)))
  }

  lemma {:induction false} InTimeIs(t: Timespec, c: Timespec)
    requires ClockTime(c)
    ensures InTime(t, c) <==> !Less(t, Cut(c))
  {
  }

  lemma {:induction false} NotBackIs(a: Timespec, b: Timespec)
    requires ClockTime(a) && ClockTime(b)
    ensures b.sec * 1_000_000 + b.nsec >= a.sec * 1_000_000 + a.nsec <==> !Less(b, a)
  {
  }

  lemma {:induction false} HistoryGrows(now: Timespec, es: seq<Event>, e: Event)
    ensures ClockAfter(now, es + [e]) == if e.Tick? then e.now else ClockAfter(now, es)
    ensures PushedIn(es + [e]) == PushedIn(es) + if e.Push? && e.p.channel != -1 then [e.p] else []
    ensures ClockNeverBack(now, es + [e]) <==>
            && ClockNeverBack(now, es)
            && (e.Tick? ==> var c := ClockAfter(now, es);
                            e.now.sec * 1_000_000 + e.now.nsec >= c.sec * 1_000_000 + c.nsec)
    ensures PushesInTime(now, es + [e]) <==>
            && PushesInTime(now, es)
            && (e.Push? && e.p.channel != -1 ==> InTime(e.p.timestamp, ClockAfter(now, es)))
  {
    hide InTime;
    assert (es + [e])[..|es|] == es;
  }

  lemma {:induction false} OneEventTells(now: Timespec, es: seq<Event>, l: Logger, e: Event, m: Logger)
    requires ClockTime(l.clock) && Step(l, e) == Some(m)
    requires l.clock == ClockAfter(now, es) && l.accepted == PushedIn(es)
    requires (l.steady <==> ClockNeverBack(now, es)) && (l.punctual <==> PushesInTime(now, es))
    ensures ClockTime(m.clock) && m.sinks == l.sinks
    ensures m.clock == ClockAfter(now, es + [e]) && m.accepted == PushedIn(es + [e])
    ensures m.steady <==> ClockNeverBack(now, es + [e])
    ensures m.punctual <==> PushesInTime(now, es + [e])
  {
    hide Cut, Less, InTime, Insert, UpperBound, Interested, ClockAfter, PushedIn, ClockNeverBack, PushesInTime;
    HistoryGrows(now, es, e);
    match e {
      case Tick(t) => NotBackIs(l.clock, t);
      case Push(p) => InTimeIs(p.timestamp, l.clock);
      case _ =>
    }
  }

  /** Over every run: clock, accepted records and the two assumptions are what the run's ticks and pushes say. */
  lemma {:induction false} RunTells(sinks: seq<Int8>, now: Timespec, es: seq<Event>, l: Logger)
    requires ClockTime(now) && Runs.Exec(Step, Init(sinks, now), es) == Some(l)
    ensures ClockTime(l.clock) && l.clock == ClockAfter(now, es) && l.accepted == PushedIn(es) && l.sinks == sinks
    ensures l.steady <==> ClockNeverBack(now, es)
    ensures l.punctual <==> PushesInTime(now, es)
  {
    if es != [] {
      hide *;
      var n := |es| - 1;
      Runs.LastStep(Step, Init(sinks, now), es);
      var before := Runs.Exec(Step, Init(sinks, now), es[..n]).value;
      RunTells(sinks, now, es[..n], before);
      OneEventTells(now, es[..n], before, es[n], l);
    }
  }

  /** Sorted output over whole runs: if the clock never goes back and every record is pushed within the delay, all
      batches together, followed by the store, are the stable sort of the records pushed. */
  lemma {:induction false} OutputIsSorted(sinks: seq<Int8>, now: Timespec, es: seq<Event>, l: Logger)
    requires ClockTime(now) && Runs.Exec(Step, Init(sinks, now), es) == Some(l)
    requires ClockNeverBack(now, es) && PushesInTime(now, es)
    ensures Concat(l.batches) + l.store == StableSort(PushedIn(es))
    ensures Sorted(Concat(l.batches)) && Sorted(Concat(l.batches) + l.store)
    ensures forall t :: At(t, Concat(l.batches) + l.store) == At(t, PushedIn(es))
  {
    hide Step, ClockNeverBack, PushesInTime, PushedIn;
    RunKeepsInv(sinks, now, es);
    RunTells(sinks, now, es, l);
    StableSortIsStable(l.accepted, now);
    PrefixSorted(Concat(l.batches), l.store);
  }

  /** Without these assumptions the output stays sorted over a push exactly when the record is not before
      the last one that has left. */
  lemma {:induction false} PushKeepsOutputSortedIff(l: Logger, p: LogPackage)
    requires Sorted(OutAndStore(l)) && ClockTime(l.clock) && p.channel != LOG_UNKNOWN_CHANNEL
    ensures var out := Concat(l.batches);
            Sorted(OutAndStore(Step(l, Push(p)).value)) <==> out == [] || !Before(p, out[|out| - 1])
  {
    var out := Concat(l.batches);
    var m := Step(l, Push(p)).value;
    var all := OutAndStore(m);
    if out == [] || !Before(p, out[|out| - 1]) {
      forall i | 0 <= i < |out|
        ensures !Before(p, out[i])
      {
        assert OutAndStore(l)[i] == out[i] && OutAndStore(l)[|out| - 1] == out[|out| - 1];
        LessIsTotalOrder(p.timestamp, out[|out| - 1].timestamp, out[i].timestamp);
      }
      InsertBehind(out, l.store, p);
      InsertKeepsSorted(OutAndStore(l), p);
    } else {
      var k := |out| + UpperBound(l.store, p.timestamp);
      assert all[k] == p && all[|out| - 1] == out[|out| - 1];
    }
  }

  /** A batch takes exactly the records that are not after the cut-off. */
  lemma {:induction false} ExtractTakesExactlyTheDue(l: Logger, at: Timespec)
    requires Sorted(l.store)
    ensures var m := Extract(l, at);
            && (forall i :: 0 <= i < |m.store| ==> Less(at, m.store[i].timestamp))
            && (m.batches == l.batches <==> forall i :: 0 <= i < |l.store| ==> Less(at, l.store[i].timestamp))
            && (m.batches != l.batches ==>
                  |m.batches| == |l.batches| + 1 && m.batches[|l.batches|] + m.store == l.store
                  && forall p :: p in m.batches[|l.batches|] ==> !Less(at, p.timestamp))
  {
    UpperBoundSplits(l.store, at);
    if UpperBound(l.store, at) > 0 {
      assert |Extract(l, at).batches| != |l.batches|;
      assert !Less(at, l.store[0].timestamp);
    }
  }

  /** Conservation over every run: each accepted record is in the store or in exactly one batch. */
  lemma {:induction false} NothingLostOrDoubled(sinks: seq<Int8>, now: Timespec, es: seq<Event>, l: Logger)
    requires ClockTime(now) && Runs.Exec(Step, Init(sinks, now), es) == Some(l)
    ensures multiset(l.accepted) == multiset(Concat(l.batches)) + multiset(l.store)
    ensures forall t :: At(t, Concat(l.batches)) + At(t, l.store) == At(t, l.accepted)
  {
    RunKeepsInv(sinks, now, es);
    forall t
      ensures At(t, Concat(l.batches)) + At(t, l.store) == At(t, l.accepted)
    {
      AtAppend(t, Concat(l.batches), l.store);
    }
  }

  /** The gate over every run: the counter is the number of unfinished jobs, these all belong to the one
      last batch and to different sinks, and none is left when the next batch is cut off. */
  lemma {:induction false} OneBatchInFlight(sinks: seq<Int8>, now: Timespec, es: seq<Event>, l: Logger)
    requires ClockTime(now) && Runs.Exec(Step, Init(sinks, now), es) == Some(l)
    ensures l.jobCounter == |l.jobs|
    ensures forall i, j :: 0 <= i < j < |l.jobs| ==>
              l.jobs[i].batch == l.jobs[j].batch == |l.batches| - 1 && l.jobs[i].sink != l.jobs[j].sink
    ensures l.mux.CutOff? ==> l.jobs == []
  {
    RunKeepsInv(sinks, now, es);
  }

  // ----- what a sink sees -----------------------------------------------------------------------------

  function Pick<T>(batches: seq<seq<T>>, which: seq<nat>): (r: seq<seq<T>>)
    requires forall i :: 0 <= i < |which| ==> which[i] < |batches|
  {
    seq(|which|, i requires 0 <= i < |which| => batches[which[i]])
  }

  function OfChannel(channel: Int8, s: seq<LogPackage>): seq<LogPackage>
  {
    Filter((p: LogPackage) => p.channel == channel, s)
  }

  lemma {:induction false} NoneOfChannel(channel: Int8, s: seq<LogPackage>)
    requires !HasChannel(s, channel)
    ensures OfChannel(channel, s) == []
  {
    if s != [] {
      assert s[0].channel != channel;
      NoneOfChannel(channel, s[1..]);
    }
  }

  lemma OfChannelPrefix(channel: Int8, a: seq<LogPackage>, b: seq<LogPackage>)
    requires a <= b
    ensures OfChannel(channel, a) <= OfChannel(channel, b)
  {
    FilterPrefix((p: LogPackage) => p.channel == channel, a, b);
  }

  lemma {:induction false} OfChannelSnoc(channel: Int8, bs: seq<seq<LogPackage>>, b: seq<LogPackage>)
    ensures OfChannel(channel, Concat(bs + [b])) == OfChannel(channel, Concat(bs)) + OfChannel(channel, b)
  {
    ConcatOne(bs, b);
    FilterAppend((p: LogPackage) => p.channel == channel, Concat(bs), b);
  }

  lemma PickSnoc<T>(init: seq<seq<T>>, last: seq<T>, due: seq<nat>)
    requires forall i :: 0 <= i < |due| ==> due[i] < |init|
    ensures Pick(init + [last], due) == Pick(init, due)
    ensures Pick(init + [last], due + [|init|]) == Pick(init, due) + [last]
  {
  }

  /** The batches due to a channel hold all its records. */
  lemma {:induction false} DueHoldsAll(channel: Int8, batches: seq<seq<LogPackage>>)
    ensures OfChannel(channel, Concat(Pick(batches, Due(channel, batches)))) == OfChannel(channel, Concat(batches))
  {
    if batches != [] {
      var n := |batches| - 1;
      var init, last, due := batches[..n], batches[n], Due(channel, batches[..n]);
      DueHoldsAll(channel, init);
      assert batches == init + [last];
      hide OfChannel, Concat, HasChannel, Pick;
      PickSnoc(init, last, due);
      OfChannelSnoc(channel, init, last);
      OfChannelSnoc(channel, Pick(init, due), last);
      if !HasChannel(last, channel) {
        NoneOfChannel(channel, last);
        assert Due(channel, batches) == due;
      }
    }
  }

  lemma {:induction false} InDue(channel: Int8, batches: seq<seq<LogPackage>>, k: nat)
    ensures k in Due(channel, batches) <==> k < |batches| && HasChannel(batches[k], channel)
  {
    hide HasChannel;
    if batches != [] {
      var n := |batches| - 1;
      var init := Due(channel, batches[..n]);
      InDue(channel, batches[..n], k);
      assert k in Due(channel, batches) <==> k in init || (HasChannel(batches[n], channel) && k == n);
    }
  }

  /** Each number once, in order. */
  ghost predicate Increasing(s: seq<nat>)
  {
    forall i, j :: 0 <= i < j < |s| ==> s[i] < s[j]
  }

  lemma IncreasingOneMore(s: seq<nat>, n: nat)
    requires Increasing(s) && forall i :: 0 <= i < |s| ==> s[i] < n
    ensures Increasing(s + [n]) && s + [] == s
  {
  }

  lemma {:induction false} DueGrows(channel: Int8, batches: seq<seq<LogPackage>>)
    ensures Increasing(Due(channel, batches))
  {
    hide HasChannel, Increasing;
    if batches == [] {
      NoneIncrease();
    } else {
      var n := |batches| - 1;
      DueGrows(channel, batches[..n]);
      IncreasingOneMore(Due(channel, batches[..n]), n);
    }
  }

  lemma NoneIncrease()
    ensures Increasing([])
  {
  }

  /** Due are exactly the batches with a record of the channel, each once, in order. */
  lemma {:induction false} DueIs(channel: Int8, batches: seq<seq<LogPackage>>)
    ensures Increasing(Due(channel, batches))
    ensures forall k: nat :: k in Due(channel, batches) <==>
              k < |batches| && exists p :: p in batches[k] && p.channel == channel
  {
    DueGrows(channel, batches);
    hide Due, HasChannel;
    forall k: nat
      ensures k in Due(channel, batches) <==> k < |batches| && exists p :: p in batches[k] && p.channel == channel
    {
      InDue(channel, batches, k);
      if k < |batches| {
        HasChannelIs(batches[k], channel);
      }
    }
  }

  lemma {:induction false} HasChannelIs(batch: seq<LogPackage>, channel: Int8)
    ensures HasChannel(batch, channel) <==> exists p :: p in batch && p.channel == channel
  {
    if p :| p in batch && p.channel == channel {
      var i :| 0 <= i < |batch| && batch[i] == p;
    }
  }

  /** Over every run: a sink for which no job waits has written exactly the batches in which its channel occurs, each
      once and in order. */
  lemma {:induction false} SinkIsGivenExactly(sinks: seq<Int8>, now: Timespec, es: seq<Event>, l: Logger, s: nat)
    requires ClockTime(now) && Runs.Exec(Step, Init(sinks, now), es) == Some(l) && s < |sinks|
    requires !l.mux.Dispatching? && forall i :: 0 <= i < |l.jobs| ==> l.jobs[i].sink != s
    ensures s < |l.written| && Increasing(l.written[s])
    ensures forall k: nat :: k in l.written[s] <==>
              k < |l.batches| && exists p :: p in l.batches[k] && p.channel == sinks[s]
  {
    hide Step, Ordered, Due;
    RunKeepsInv(sinks, now, es);
    RunTells(sinks, now, es, l);
    assert Ledger(l, s) && !InFlight(l, s);
    assert l.written[s] + [] == l.written[s] == Due(sinks[s], l.batches);
    DueIs(sinks[s], l.batches);
  }

  /** Over every run each sink has been given its channel's extracted records, all of them once and in
      batch order, as soon as no job of it is in flight. */
  lemma {:induction false} SinkSeesItsRecords(sinks: seq<Int8>, now: Timespec, es: seq<Event>, l: Logger, s: nat)
    requires ClockTime(now) && Runs.Exec(Step, Init(sinks, now), es) == Some(l)
    requires s < |l.sinks| && !InFlight(l, s)
    ensures s < |l.written| && l.written[s] == Due(l.sinks[s], l.batches)
    ensures OfChannel(l.sinks[s], Concat(Pick(l.batches, l.written[s]))) == OfChannel(l.sinks[s], Concat(l.batches))
  {
    RunKeepsInv(sinks, now, es);
    assert Ledger(l, s);
    DueHoldsAll(l.sinks[s], l.batches);
  }
}
