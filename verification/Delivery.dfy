/** The whole way of a log record: pushed by a client thread, framed, sent, reassembled, decoded by the
    adaptor, pushed into the logger, sorted, batched and written by a sink. */
module Delivery {
  import opened Bytes
  import opened FileSink
  import opened LogPackages
  import opened Pipeline
  import opened Seqs
  import opened Sessions
  import opened StableOrder
  import opened Timestamps
  import opened Wrappers
  import Deframer
  import FlapParser
  import L = Logger
  import LogClient
  import OscarLogger
  import Runs
  import Transport

  /** `home` is the channel id of the adaptor's log channel. `arrived` lists what the adaptor has pushed into
      the logger, `local` what the server itself and its other adaptors have pushed. */
  datatype System = System(link: Transport.Link, logger: L.Logger, home: Int8,
                           arrived: seq<LogPackage>, local: seq<LogPackage>)

  /** The package that the adaptor pushes. A new-file or stop package has an unset severity, and a package
      without a channel gets the one of the adaptor's log channel (proxy/log_channel.cpp). */
  function Rebuilt(log: Logged, home: Int8, unset: Byte): LogPackage
  {
    match log
    case LoggedMessage(tag, severity, message, channel, ts) =>
      LogPackage(message, tag, ts, Message, severity, Routed(channel, home))
    case LoggedNewFile(prefix, suffix, channel, ts) =>
      LogPackage(prefix, suffix, ts, ChangeFile, unset, Routed(channel, home))
    case LoggedStop(channel, ts) => LogPackage([], [], ts, Stop, unset, Routed(channel, home))
  }

  function Routed(channel: Int8, home: Int8): Int8
  {
    if channel == L.LOG_UNKNOWN_CHANNEL then home else channel
  }

  /** Net: a step of client, stream or deframer. Adapt: the next emitted frame goes through the adaptor, with
      any bytes behind it in memory. Local: another record is pushed. Work: a step of the logger's multiplexer,
      sinks or clock. */
  datatype Event =
    | Net(t: Transport.Event)
    | Adapt(unset: Byte, beyond: seq<Byte>)
    | Local(p: LogPackage)
    | Work(e: L.Event)

  function Init(sinks: seq<Int8>, home: Int8, now: Timespec): System
  {
    System(Transport.INITIAL, L.Init(sinks, now), home, [], [])
  }

  function PushInto(s: System, p: LogPackage): Option<System>
  {
    match L.Step(s.logger, L.Push(p))
    case None => None
    case Some(logger) => Some(s.(logger := logger))
  }

  function Step(s: System, e: Event): Option<System>
  {
    match e
    case Net(t) =>
      (match Transport.Step(s.link, t)
       case None => None
       case Some(link) => Some(s.(link := link)))
    case Adapt(unset, beyond) =>
      var k := |s.arrived|;
      if k >= |s.link.child.emitted| || |beyond| < FlapParser.SLACK then None else
      var outcome := OscarLogger.DecodeMemory(s.link.child.emitted[k], beyond);
      if !outcome.Emitted? then None else
      var p := Rebuilt(outcome.log, s.home, unset);
      PushInto(s.(arrived := s.arrived + [p]), p)
    case Local(p) => PushInto(s.(local := s.local + [p]), p)
    case Work(w) =>
      if w.Push? then None else
      match L.Step(s.logger, w)
      case None => None
      case Some(logger) => Some(s.(logger := logger))
  }

  // ----- a run of the system is a run of each part -----------------------------------------------

  lemma {:induction false} ExecSnoc<S, E>(step: (S, E) -> Option<S>, s: S, es: seq<E>, e: E)
    ensures Runs.Exec(step, s, es + [e]) ==
            match Runs.Exec(step, s, es) case None => None case Some(t) => step(t, e)
  {
    assert (es + [e])[..|es|] == es;
  }

  lemma {:induction false} Parts(sinks: seq<Int8>, home: Int8, now: Timespec, es: seq<Event>, s: System)
    returns (ts: seq<Transport.Event>, ls: seq<L.Event>)
    requires Runs.Exec(Step, Init(sinks, home, now), es) == Some(s)
    ensures Runs.Exec(Transport.Step, Transport.INITIAL, ts) == Some(s.link)
    ensures Runs.Exec(L.Step, L.Init(sinks, now), ls) == Some(s.logger)
    ensures s.home == home
  {
    hide Transport.Step, L.Step, OscarLogger.DecodeMemory;
    ts, ls := [], [];
    if es != [] {
      var e := es[|es| - 1];
      var before := Runs.Exec(Step, Init(sinks, home, now), es[..|es| - 1]).value;
      ts, ls := Parts(sinks, home, now, es[..|es| - 1], before);
      match e {
        case Net(t) =>
          ExecSnoc(Transport.Step, Transport.INITIAL, ts, t);
          ts := ts + [t];
        case Adapt(_, _) =>
          ls := Pushed(sinks, now, before.logger, ls, s.arrived[|before.arrived|], s.logger);
        case Local(p) =>
          ls := Pushed(sinks, now, before.logger, ls, p, s.logger);
        case Work(w) =>
          ExecSnoc(L.Step, L.Init(sinks, now), ls, w);
          ls := ls + [w];
      }
    }
  }

  lemma {:induction false} Pushed(
      sinks: seq<Int8>, now: Timespec, l: L.Logger, ls: seq<L.Event>, p: LogPackage, m: L.Logger)
    returns (more: seq<L.Event>)
    requires Runs.Exec(L.Step, L.Init(sinks, now), ls) == Some(l) && L.Step(l, L.Push(p)) == Some(m)
    ensures Runs.Exec(L.Step, L.Init(sinks, now), more) == Some(m)
  {
    ExecSnoc(L.Step, L.Init(sinks, now), ls, L.Push(p));
    more := ls + [L.Push(p)];
  }

  // ----- what arrives --------------------------------------------------------------------------------

  /** `s` holds the elements of `a` and of `b`, each in their order. */
  ghost predicate Merged(a: seq<LogPackage>, b: seq<LogPackage>, s: seq<LogPackage>)
    decreases |s|
  {
    if s == [] then a == [] && b == []
    else
      var n := |s| - 1;
      || (a != [] && a[|a| - 1] == s[n] && Merged(a[..|a| - 1], b, s[..n]))
      || (b != [] && b[|b| - 1] == s[n] && Merged(a, b[..|b| - 1], s[..n]))
  }

  lemma {:induction false} MergeOneMore(a: seq<LogPackage>, b: seq<LogPackage>, s: seq<LogPackage>, p: LogPackage)
    requires Merged(a, b, s)
    ensures Merged(a + [p], b, s + [p]) && Merged(a, b + [p], s + [p])
  {
    assert (a + [p])[..|a|] == a && (b + [p])[..|b|] == b && (s + [p])[..|s|] == s;
  }

  lemma {:induction false} MergedAlone(a: seq<LogPackage>, s: seq<LogPackage>)
    requires Merged(a, [], s)
    ensures s == a
  {
    if s != [] {
      MergedAlone(a[..|a| - 1], s[..|s| - 1]);
      assert s == s[..|s| - 1] + [s[|s| - 1]] && a == a[..|a| - 1] + [a[|a| - 1]];
    }
  }

  /** What a package becomes on the way: equal in every field that its command carries, on its own channel, or on
      that of the adaptor's log channel when it has none (-1). */
  ghost predicate Becomes(p: LogPackage, home: Int8, q: LogPackage)
  {
    && !p.command.Other? && q.command == p.command && q.timestamp == p.timestamp
    && (p.channel != -1 ==> q.channel == p.channel)
    && (p.channel == -1 ==> q.channel == home)
    && (p.command.Message? ==> q.message == p.message && q.tag == p.tag && q.severity == p.severity)
    && (p.command.ChangeFile? ==> q.message == p.message && q.tag == p.tag)
  }

  lemma {:induction false} BecomesSame(p: LogPackage, home: Int8, q: LogPackage)
    ensures Becomes(p, home, q) <==> SameCarried(q, p.(channel := Routed(p.channel, home)))
  {
  }

  ghost predicate Inv(s: System)
  {
    && |s.arrived| <= |s.link.child.emitted|
    && (forall i :: 0 <= i < |s.arrived| ==> Adapted(s, i))
    && forall c: Int8 :: c != L.LOG_UNKNOWN_CHANNEL ==> ChannelMerged(s, c)
  }

  /** What a channel has accepted are the packages that arrived on it and the server's own ones. */
  ghost predicate ChannelMerged(s: System, c: Int8)
  {
    Merged(L.OfChannel(c, s.arrived), L.OfChannel(c, s.local), L.OfChannel(c, s.logger.accepted))
  }

  ghost predicate Adapted(s: System, i: nat)
    requires i < |s.arrived| <= |s.link.child.emitted|
  {
    exists log, unset, beyond :: |beyond| >= FlapParser.SLACK
      && OscarLogger.DecodeMemory(s.link.child.emitted[i], beyond) == OscarLogger.Emitted(log)
      && s.arrived[i] == Rebuilt(log, s.home, unset)
  }

  lemma EmittedGrows(l: Transport.Link, t: Transport.Event)
    requires Transport.Step(l, t).Some?
    ensures l.child.emitted <= Transport.Step(l, t).value.child.emitted
  {
    hide LogClient.Step;
  }

  lemma {:induction false} AcceptedGrows(l: L.Logger, e: L.Event)
    requires L.Step(l, e).Some?
    ensures L.Step(l, e).value.accepted ==
            if e.Push? && e.p.channel != L.LOG_UNKNOWN_CHANNEL then l.accepted + [e.p] else l.accepted
  {
  }

  lemma ChannelGrows(c: Int8, ps: seq<LogPackage>, p: LogPackage)
    ensures L.OfChannel(c, ps + [p]) == if p.channel == c then L.OfChannel(c, ps) + [p] else L.OfChannel(c, ps)
  {
    FilterAppend((q: LogPackage) => q.channel == c, ps, [p]);
    assert [p][1..] == [];
  }

  /** A push by the adaptor or by others keeps, channel by channel, what is accepted. */
  lemma PushKeepsChannels(s: System, t: System, p: LogPackage, c: Int8)
    requires ChannelMerged(s, c) && L.Step(s.logger, L.Push(p)) == Some(t.logger)
    requires || (t.arrived == s.arrived + [p] && t.local == s.local)
             || (t.arrived == s.arrived && t.local == s.local + [p])
    requires c != L.LOG_UNKNOWN_CHANNEL
    ensures ChannelMerged(t, c)
  {
    hide L.Step, L.OfChannel, Merged;
    AcceptedGrows(s.logger, L.Push(p));
    ChannelGrows(c, s.logger.accepted, p);
    ChannelGrows(c, s.arrived, p);
    ChannelGrows(c, s.local, p);
    MergeOneMore(L.OfChannel(c, s.arrived), L.OfChannel(c, s.local), L.OfChannel(c, s.logger.accepted), p);
  }

  lemma StepKeepsChannels(s: System, e: Event, c: Int8)
    requires ChannelMerged(s, c) && Step(s, e).Some? && c != L.LOG_UNKNOWN_CHANNEL
    ensures ChannelMerged(Step(s, e).value, c)
  {
    hide Transport.Step, L.Step, OscarLogger.DecodeMemory, L.OfChannel, Merged;
    var t := Step(s, e).value;
    match e {
      case Net(_) =>
      case Adapt(_, _) => PushKeepsChannels(s, t, t.arrived[|s.arrived|], c);
      case Local(p) => PushKeepsChannels(s, t, p, c);
      case Work(w) => AcceptedGrows(s.logger, w);
    }
  }

  lemma StepKeepsAdapted(s: System, e: Event)
    requires Inv(s) && Step(s, e).Some?
    ensures var t := Step(s, e).value;
            |t.arrived| <= |t.link.child.emitted| && forall i :: 0 <= i < |t.arrived| ==> Adapted(t, i)
  {
    hide Transport.Step, L.Step, OscarLogger.DecodeMemory, ChannelMerged;
    var t := Step(s, e).value;
    if e.Net? {
      EmittedGrows(s.link, e.t);
    }
    forall i | 0 <= i < |t.arrived|
      ensures Adapted(t, i)
    {
      if i < |s.arrived| {
        assert Adapted(s, i);
      }
    }
  }

  lemma {:induction false} StepKeepsInv(s: System, e: Event)
    requires Inv(s) && Step(s, e).Some?
    ensures Inv(Step(s, e).value)
  {
    StepKeepsAdapted(s, e);
    hide Step, ChannelMerged, Adapted;
    forall c: Int8 | c != L.LOG_UNKNOWN_CHANNEL
      ensures ChannelMerged(Step(s, e).value, c)
    {
      StepKeepsChannels(s, e, c);
    }
  }

  lemma {:induction false} RunKeepsInv(sinks: seq<Int8>, home: Int8, now: Timespec, es: seq<Event>)
    ensures var r := Runs.Exec(Step, Init(sinks, home, now), es); r.Some? ==> Inv(r.value)
  {
    hide Step;
    forall s, e | Inv(s) && Step(s, e).Some?
      ensures Inv(Step(s, e).value)
    {
      StepKeepsInv(s, e);
    }
    Runs.InvariantOverRuns(Step, Inv, Init(sinks, home, now), es);
  }

  lemma {:induction false} ArrivedIsPushed(ts: seq<Transport.Event>, s: System, i: nat)
    requires Inv(s) && Runs.Exec(Transport.Step, Transport.INITIAL, ts) == Some(s.link) && i < |s.arrived|
    ensures i < |s.link.client.pushed| && Becomes(s.link.client.pushed[i], s.home, s.arrived[i])
  {
    hide Transport.Step, OscarLogger.DecodeMemory, ChannelMerged;
    assert Adapted(s, i);
    var log, unset, beyond :| |beyond| >= FlapParser.SLACK
      && OscarLogger.DecodeMemory(s.link.child.emitted[i], beyond) == OscarLogger.Emitted(log)
      && s.arrived[i] == Rebuilt(log, s.home, unset);
    var memory := (k: nat) => beyond;
    Transport.EndToEnd(ts, s.link, memory);
    assert Transport.Logs(s.link, memory)[i] == OscarLogger.Emitted(log);
    CarriedIsSaid(log, s.link.client.pushed[i]);
    BecomesSame(s.link.client.pushed[i], s.home, s.arrived[i]);
  }

  /** What has arrived are the first packages pushed, in order, each equal in what its command carries. */
  lemma {:induction false} ArrivedAreFirstPushed(sinks: seq<Int8>, home: Int8, now: Timespec, es: seq<Event>, s: System)
    requires Runs.Exec(Step, Init(sinks, home, now), es) == Some(s)
    ensures |s.arrived| <= |s.link.client.pushed|
    ensures forall i :: 0 <= i < |s.arrived| ==> Becomes(s.link.client.pushed[i], home, s.arrived[i])
  {
    hide Step, Transport.Step, Inv, Becomes;
    RunKeepsInv(sinks, home, now, es);
    var ts, _ := Parts(sinks, home, now, es, s);
    forall i | 0 <= i < |s.arrived|
      ensures i < |s.link.client.pushed| && Becomes(s.link.client.pushed[i], home, s.arrived[i])
    {
      ArrivedIsPushed(ts, s, i);
    }
    if s.arrived != [] {
      ArrivedIsPushed(ts, s, |s.arrived| - 1);
    }
  }

  // ----- in every run --------------------------------------------------------------------------------------

  /** Sink number `i`, as it was before the run, has no job in flight. `records` are the packages of the
      batches with the times at which the sink handles them. */
  ghost predicate SinkAtRest(s: System, i: nat, sink: Sink, records: seq<seq<Record>>)
  {
    && i < |s.logger.sinks| && !L.InFlight(s.logger, i)
    && sink.channel == s.logger.sinks[i] != L.LOG_UNKNOWN_CHANNEL
    && Stamped(records, s.logger.batches)
  }

  /** What the sink has made of its batches. */
  function FilesOf(s: System, i: nat, sink: Sink, records: seq<seq<Record>>): map<Name, seq<Line>>
    requires i < |s.logger.written| && forall k :: 0 <= k < |s.logger.written[i]| ==> s.logger.written[i][k] < |records|
  {
    WriteAll(sink, L.Pick(records, s.logger.written[i])).files
  }

  /** In the order of time the packages are a session that can be written: it opens a file, or one is open. */
  ghost predicate Writable(sink: Sink, sorted: seq<LogPackage>)
  {
    && Session(sink.channel, sorted)
    && (sorted == [] || Opens(sink.channel, sorted) || sink.fileName != [])
  }

  /** The file that a session's change-file package names when it is handled, or the one that is open. */
  function SessionFile(sink: Sink, sorted: seq<LogPackage>, own: seq<Record>): Name
  {
    if own != [] && Opens(sink.channel, sorted) then
      FileName(sorted[0].message, sorted[0].tag, sink.channel, own[0].now)
    else sink.fileName
  }

  lemma FileOfSession(sink: Sink, own: seq<Record>, sorted: seq<LogPackage>)
    requires Logs(own) <= sorted
    ensures FileOf(sink, own) == SessionFile(sink, sorted, own)
  {
    hide FileName;
    if own != [] {
      assert own[0].log == Logs(own)[0] == sorted[0];
    }
  }

  /** From push to file, in every run: when a sink has no job in flight, its files are as the reference
      leaves them on the channel's extracted records exactly when no dropped record is missed. Under a steady
      clock and punctual pushes into the logger these records are the first of the stable sort of what the
      channel has accepted: the packages that have arrived on it, which are the first ones pushed
      (ArrivedAreFirstPushed), merged with the server's own. */
  lemma {:induction false} FromPushToFile(
      sinks: seq<Int8>, home: Int8, now: Timespec, es: seq<Event>, s: System, i: nat, sink: Sink,
      records: seq<seq<Record>>)
    requires L.ClockTime(now) && Runs.Exec(Step, Init(sinks, home, now), es) == Some(s)
    requires SinkAtRest(s, i, sink, records)
    ensures i < |s.logger.written| && forall k :: 0 <= k < |s.logger.written[i]| ==> s.logger.written[i][k] < |records|
    ensures var own, mine := Own(sink.channel, Concat(records)), L.Pick(records, s.logger.written[i]);
            && (FilesOf(s, i, sink, records) == Reference(sink, own).files <==> !AnyMissed(sink.channel, mine))
            && (AnyMissed(sink.channel, mine) ==> Restarts(sink.channel, own))
    ensures var out := Logs(Own(sink.channel, Concat(records)));
            var sorted := StableSort(L.OfChannel(sink.channel, s.logger.accepted));
            s.logger.steady && s.logger.punctual ==> out <= sorted && (s.logger.store == [] ==> out == sorted)
    ensures ChannelMerged(s, sink.channel)
  {
    hide Step, L.Step, Transport.Step, L.InFlight, Own, Logs, AnyMissed, ChannelMerged, Restarts;
    RunKeepsInv(sinks, home, now, es);
    var _, ls := Parts(sinks, home, now, es, s);
    FilesHoldTheSortedRecordsIff(sinks, now, ls, s.logger, i, sink, records);
  }

  /** When what a channel has accepted is a session in the order of time: its file has grown by the lines of
      the first `n` packages of the session, and no other file has changed. */
  lemma {:induction false} SessionReachesTheFile(
      sinks: seq<Int8>, home: Int8, now: Timespec, es: seq<Event>, s: System, i: nat, sink: Sink,
      records: seq<seq<Record>>) returns (n: nat)
    requires L.ClockTime(now) && Runs.Exec(Step, Init(sinks, home, now), es) == Some(s)
    requires s.logger.steady && s.logger.punctual && SinkAtRest(s, i, sink, records)
    requires Writable(sink, StableSort(L.OfChannel(sink.channel, s.logger.accepted)))
    ensures i < |s.logger.written| && forall k :: 0 <= k < |s.logger.written[i]| ==> s.logger.written[i][k] < |records|
    ensures var own := Own(sink.channel, Concat(records));
            var sorted := StableSort(L.OfChannel(sink.channel, s.logger.accepted));
            && n <= |sorted| && Logs(own) == sorted[..n] && (s.logger.store == [] ==> n == |sorted|)
            && Gained(sink.files, FilesOf(s, i, sink, records), SessionFile(sink, sorted, own),
                     Messages(sink.channel, sorted[..n]))
  {
    hide Step, L.InFlight, L.OfChannel, Own, AnyMissed, StableSort, Session, Opens, Restarts, Gained, Messages, FileOf;
    hide SessionFile;
    FromPushToFile(sinks, home, now, es, s, i, sink, records);
    var own, sorted := Own(sink.channel, Concat(records)), StableSort(L.OfChannel(sink.channel, s.logger.accepted));
    n := |own|;
    assert Logs(own) == sorted[..n];
    PrefixOfSession(sink.channel, sorted, Logs(own));
    SessionNeverRestarts(sink.channel, own);
    SessionFills(sink, own);
    FileOfSession(sink, own, sorted);
  }

  // ----- from the client's side ------------------------------------------------------------------------------

  /** The packages with the channel they are logged under. */
  function RoutedAll(ps: seq<LogPackage>, home: Int8): (r: seq<LogPackage>)
    ensures |r| == |ps| && forall i :: 0 <= i < |r| ==> r[i] == ps[i].(channel := Routed(ps[i].channel, home))
  {
    seq(|ps|, i requires 0 <= i < |ps| => ps[i].(channel := Routed(ps[i].channel, home)))
  }

  /** The packages that are logged on a channel: those that name it, and on the adaptor's own log channel those
      that name none (-1). */
  function ForChannel(ps: seq<LogPackage>, home: Int8, c: Int8): seq<LogPackage>
  {
    if ps == [] then []
    else (if ps[0].channel == c || (ps[0].channel == -1 && home == c) then [ps[0].(channel := c)] else [])
         + ForChannel(ps[1..], home, c)
  }

  lemma {:induction false} ForChannelIsRouted(ps: seq<LogPackage>, home: Int8, c: Int8)
    requires c != -1
    ensures ForChannel(ps, home, c) == L.OfChannel(c, RoutedAll(ps, home))
  {
    var routed := RoutedAll(ps, home);
    if ps != [] {
      ForChannelIsRouted(ps[1..], home, c);
      assert routed[1..] == RoutedAll(ps[1..], home);
      assert routed == [routed[0]] + routed[1..];
      FilterFirst((p: LogPackage) => p.channel == c, routed[0], routed[1..]);
    }
  }

  /** What the client has pushed on a channel. */
  function PushedOn(s: System, c: Int8): seq<LogPackage>
  {
    ForChannel(s.link.client.pushed, s.home, c)
  }

  /** The first of it: what has arrived. */
  function ArrivedOn(s: System, c: Int8): seq<LogPackage>
  {
    var pushed := s.link.client.pushed;
    ForChannel(if |s.arrived| <= |pushed| then pushed[..|s.arrived|] else pushed, s.home, c)
  }

  /** A channel that the adaptor alone feeds has accepted the first of the packages pushed on it. */
  lemma {:induction false} AcceptedArePushed(
      sinks: seq<Int8>, home: Int8, now: Timespec, es: seq<Event>, s: System, c: Int8)
    requires Runs.Exec(Step, Init(sinks, home, now), es) == Some(s)
    requires c != L.LOG_UNKNOWN_CHANNEL && !L.HasChannel(s.local, c)
    ensures ArrivedOn(s, c) <= PushedOn(s, c)
    ensures AllSame(L.OfChannel(c, s.logger.accepted), ArrivedOn(s, c))
  {
    hide Step, L.OfChannel, SameCarried, Adapted;
    RunKeepsInv(sinks, home, now, es);
    var _, _ := Parts(sinks, home, now, es, s);
    ArrivedAreFirstPushed(sinks, home, now, es, s);
    assert ChannelMerged(s, c);
    L.NoneOfChannel(c, s.local);
    MergedAlone(L.OfChannel(c, s.arrived), L.OfChannel(c, s.logger.accepted));
    var sent, all := RoutedAll(s.link.client.pushed[..|s.arrived|], home), RoutedAll(s.link.client.pushed, home);
    forall i | 0 <= i < |s.arrived|
      ensures SameCarried(s.arrived[i], sent[i])
    {
      BecomesSame(s.link.client.pushed[i], home, s.arrived[i]);
    }
    hide Becomes, ForChannel;
    ChannelSame(c, s.arrived, sent);
    assert sent <= all;
    L.OfChannelPrefix(c, sent, all);
    ForChannelIsRouted(s.link.client.pushed, home, c);
    ForChannelIsRouted(s.link.client.pushed[..|s.arrived|], home, c);
  }

  lemma {:induction false} WritableSame(sink: Sink, ps: seq<LogPackage>, qs: seq<LogPackage>, own: seq<Record>)
    requires AllSame(ps, qs) && Writable(sink, qs)
    ensures Writable(sink, ps) && SessionFile(sink, ps, own) == SessionFile(sink, qs, own)
  {
    SessionSame(sink.channel, ps, qs);
    if ps != [] {
      SameFields(ps[0], qs[0]);
    }
    hide Session, SameCarried, FileName;
  }

  /** From push to file, as the client sees it: when what has arrived on a channel is a session in the order of
      time, the file that its change-file package names, or the one that is open, has grown by the lines of the
      first `n` packages, and no other file has changed. */
  lemma {:induction false} MessagesReachTheFile(
      sinks: seq<Int8>, home: Int8, now: Timespec, es: seq<Event>, s: System, i: nat, sink: Sink,
      records: seq<seq<Record>>) returns (n: nat)
    requires L.ClockTime(now) && Runs.Exec(Step, Init(sinks, home, now), es) == Some(s)
    requires s.logger.steady && s.logger.punctual && SinkAtRest(s, i, sink, records)
    requires !L.HasChannel(s.local, sink.channel) && Writable(sink, StableSort(ArrivedOn(s, sink.channel)))
    ensures i < |s.logger.written| && forall k :: 0 <= k < |s.logger.written[i]| ==> s.logger.written[i][k] < |records|
    ensures ArrivedOn(s, sink.channel) <= PushedOn(s, sink.channel)
    ensures var own, sorted := Own(sink.channel, Concat(records)), StableSort(ArrivedOn(s, sink.channel));
            && n == |own| <= |sorted| && (s.logger.store == [] ==> n == |sorted|)
            && Gained(sink.files, FilesOf(s, i, sink, records), SessionFile(sink, sorted, own),
                     Messages(sink.channel, sorted[..n]))
  {
    hide Step, L.InFlight, L.HasChannel, L.OfChannel, Own, StableSort, Writable, Gained, Messages, SessionFile;
    hide SameCarried, FilesOf, PushedOn, ArrivedOn;
    var c := sink.channel;
    AcceptedArePushed(sinks, home, now, es, s, c);
    var a, b := StableSort(L.OfChannel(c, s.logger.accepted)), StableSort(ArrivedOn(s, c));
    SortSame(L.OfChannel(c, s.logger.accepted), ArrivedOn(s, c));
    WritableSame(sink, a, b, Own(c, Concat(records)));
    n := SessionReachesTheFile(sinks, home, now, es, s, i, sink, records);
    PrefixSame(a, b, n);
    MessagesSame(c, a[..n], b[..n]);
  }

  // ----- at rest -----------------------------------------------------------------------------------------------

  /** No thread, write, byte, frame or record is on its way any more, no write has failed, and every package
      pushed can be built. */
  ghost predicate AllAtRest(s: System)
  {
    && !s.link.client.failed && s.link.client.outstanding.None? && s.link.client.io.IoIdle?
    && s.link.client.threads == map[]
    && s.link.child.consumed == s.link.client.wire && Deframer.Settled(s.link.child)
    && |s.arrived| == |s.link.child.emitted| && s.logger.store == []
    && forall k :: 0 <= k < |s.link.client.pushed| ==> !LogClient.Unbuildable(s.link.client.pushed[k])
  }

  lemma {:induction false} AllHaveArrived(sinks: seq<Int8>, home: Int8, now: Timespec, es: seq<Event>, s: System)
    requires Runs.Exec(Step, Init(sinks, home, now), es) == Some(s) && AllAtRest(s)
    ensures |s.arrived| == |s.link.client.pushed|
  {
    hide Step, Transport.Step, Deframer.Settled, LogClient.Unbuildable;
    var ts, _ := Parts(sinks, home, now, es, s);
    Transport.EndToEndComplete(ts, s.link);
  }

  /** At rest, whatever the packages are: each one pushed has arrived, and the sink's files are as the reference
      leaves them on the stable sort of all that its channel has accepted, exactly when no dropped record is
      missed. */
  lemma {:induction false} EverythingIsHandled(
      sinks: seq<Int8>, home: Int8, now: Timespec, es: seq<Event>, s: System, i: nat, sink: Sink,
      records: seq<seq<Record>>)
    requires L.ClockTime(now) && Runs.Exec(Step, Init(sinks, home, now), es) == Some(s)
    requires s.logger.steady && s.logger.punctual && SinkAtRest(s, i, sink, records) && AllAtRest(s)
    ensures |s.arrived| == |s.link.client.pushed|
    ensures forall k :: 0 <= k < |s.arrived| ==> Becomes(s.link.client.pushed[k], home, s.arrived[k])
    ensures ChannelMerged(s, sink.channel)
    ensures i < |s.logger.written| && forall k :: 0 <= k < |s.logger.written[i]| ==> s.logger.written[i][k] < |records|
    ensures var own := Own(sink.channel, Concat(records));
            && Logs(own) == StableSort(L.OfChannel(sink.channel, s.logger.accepted))
            && (FilesOf(s, i, sink, records) == Reference(sink, own).files <==>
                !AnyMissed(sink.channel, L.Pick(records, s.logger.written[i])))
  {
    hide Step, L.InFlight, L.OfChannel, Own, StableSort, AnyMissed, Becomes, ChannelMerged, FilesOf;
    AllHaveArrived(sinks, home, now, es, s);
    ArrivedAreFirstPushed(sinks, home, now, es, s);
    FromPushToFile(sinks, home, now, es, s, i, sink, records);
  }

  /** And when the packages pushed on the channel are a session in the order of time: its file has grown by
      exactly one line for each of its messages, in the stable order of timestamps, and no other file has
      changed. */
  lemma {:induction false} AllMessagesAreInTheFile(
      sinks: seq<Int8>, home: Int8, now: Timespec, es: seq<Event>, s: System, i: nat, sink: Sink,
      records: seq<seq<Record>>)
    requires L.ClockTime(now) && Runs.Exec(Step, Init(sinks, home, now), es) == Some(s)
    requires s.logger.steady && s.logger.punctual && SinkAtRest(s, i, sink, records) && AllAtRest(s)
    requires !L.HasChannel(s.local, sink.channel) && Writable(sink, StableSort(PushedOn(s, sink.channel)))
    ensures i < |s.logger.written| && forall k :: 0 <= k < |s.logger.written[i]| ==> s.logger.written[i][k] < |records|
    ensures var own, sorted := Own(sink.channel, Concat(records)), StableSort(PushedOn(s, sink.channel));
            && |own| == |sorted| == |PushedOn(s, sink.channel)|
            && Gained(sink.files, FilesOf(s, i, sink, records), SessionFile(sink, sorted, own),
                     Messages(sink.channel, sorted))
  {
    hide Step, L.InFlight, L.HasChannel, L.OfChannel, Own, StableSort, Writable, Gained, Messages, SessionFile, FilesOf;
    AllHaveArrived(sinks, home, now, es, s);
    assert s.link.client.pushed[..|s.arrived|] == s.link.client.pushed;
    assert ArrivedOn(s, sink.channel) == PushedOn(s, sink.channel);
    var n := MessagesReachTheFile(sinks, home, now, es, s, i, sink, records);
    var sorted := StableSort(PushedOn(s, sink.channel));
    SortedAreThese(PushedOn(s, sink.channel));
    assert sorted[..n] == sorted;
  }
}
