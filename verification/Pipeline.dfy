/** The logger and a file sink together: what is in the files after any run of the logger. */
module Pipeline {
  import opened FileSink
  import opened LogPackages
  import opened Seqs
  import opened StableOrder
  import opened Timestamps
  import opened Wrappers
  import L = Logger
  import Runs

  // ----- the records of one channel -------------------------------------------------------------

  function Own(channel: Int8, rs: seq<Record>): seq<Record>
  {
    Filter((r: Record) => r.log.channel == channel, rs)
  }

  lemma FirstOwn(channel: Int8, r: Record, rest: seq<Record>)
    ensures Own(channel, [r] + rest) ==
            if r.log.channel == channel then [r] + Own(channel, rest) else Own(channel, rest)
  {
    FilterFirst((r: Record) => r.log.channel == channel, r, rest);
  }

  lemma OwnAreOfChannel(channel: Int8, rs: seq<Record>)
    ensures forall r: Record :: r in Own(channel, rs) <==> r in rs && r.log.channel == channel
  {
    InFilter((r: Record) => r.log.channel == channel, rs);
  }

  /** Records of other channels leave a sink alone. */
  lemma {:induction false} OtherChannelsDoNothing(s: Sink, rs: seq<Record>)
    ensures Reference(s, rs) == Reference(s, Own(s.channel, rs))
    decreases |rs|
  {
    if rs != [] {
      OtherChannelsDoNothing(Apply(s, rs[0]), rs[1..]);
      FirstOwn(s.channel, rs[0], rs[1..]);
      assert rs == [rs[0]] + rs[1..];
      var rest := Own(s.channel, rs[1..]);
      if rs[0].log.channel == s.channel {
        assert ([rs[0]] + rest)[1..] == rest;
      } else {
        assert Apply(s, rs[0]) == s;
      }
    }
  }

  lemma {:induction false} OwnChanges(channel: Int8, rs: seq<Record>)
    ensures HasChange(channel, Own(channel, rs)) <==> HasChange(channel, rs)
  {
    if rs != [] {
      var rest := Own(channel, rs[1..]);
      OwnChanges(channel, rs[1..]);
      FirstOwn(channel, rs[0], rs[1..]);
      assert rs == [rs[0]] + rs[1..] && ([rs[0]] + rest)[1..] == rest;
    }
  }

  lemma {:induction false} OwnRestarts(channel: Int8, rs: seq<Record>)
    ensures Restarts(channel, Own(channel, rs)) <==> Restarts(channel, rs)
  {
    if rs != [] {
      var rest := Own(channel, rs[1..]);
      OwnRestarts(channel, rs[1..]);
      OwnChanges(channel, rs[1..]);
      FirstOwn(channel, rs[0], rs[1..]);
      assert rs == [rs[0]] + rs[1..] && ([rs[0]] + rest)[1..] == rest;
    }
  }

  lemma {:induction false} LogsOfOwn(channel: Int8, rs: seq<Record>)
    ensures Logs(Own(channel, rs)) == L.OfChannel(channel, Logs(rs))
  {
    if rs != [] {
      LogsOfOwn(channel, rs[1..]);
      assert Logs(rs)[1..] == Logs(rs[1..]);
      assert Logs([rs[0]] + Own(channel, rs[1..])) == [rs[0].log] + Logs(Own(channel, rs[1..]));
    }
  }

  /** The records are the packages of the batches, each with the local time of its handling. */
  ghost predicate Stamped(records: seq<seq<Record>>, batches: seq<seq<LogPackage>>)
  {
    |records| == |batches| && forall b :: 0 <= b < |batches| ==> Logs(records[b]) == batches[b]
  }

  lemma {:induction false} LogsOfAll(records: seq<seq<Record>>, batches: seq<seq<LogPackage>>)
    requires Stamped(records, batches)
    ensures Logs(Concat(records)) == Concat(batches)
  {
    if records != [] {
      assert Stamped(records[1..], batches[1..]);
      LogsOfAll(records[1..], batches[1..]);
    }
  }

  lemma {:induction false} NoneOwn(channel: Int8, rs: seq<Record>)
    requires !L.HasChannel(Logs(rs), channel)
    ensures Own(channel, rs) == []
  {
    if rs != [] {
      assert Logs(rs)[0].channel != channel;
      assert Logs(rs)[1..] == Logs(rs[1..]);
      NoneOwn(channel, rs[1..]);
    }
  }

  lemma {:induction false} OwnSnoc(channel: Int8, bs: seq<seq<Record>>, b: seq<Record>)
    ensures Own(channel, Concat(bs + [b])) == Own(channel, Concat(bs)) + Own(channel, b)
  {
    ConcatOne(bs, b);
    FilterAppend((r: Record) => r.log.channel == channel, Concat(bs), b);
  }

  /** The batches given to a channel's sink hold all records of the channel. */
  lemma {:induction false} DueHoldsAllRecords(channel: Int8, records: seq<seq<Record>>, batches: seq<seq<LogPackage>>)
    requires Stamped(records, batches)
    ensures Own(channel, Concat(L.Pick(records, L.Due(channel, batches)))) == Own(channel, Concat(records))
  {
    if batches != [] {
      var n := |batches| - 1;
      var init, last, due := records[..n], records[n], L.Due(channel, batches[..n]);
      DueHoldsAllRecords(channel, init, batches[..n]);
      assert records == init + [last] && Logs(last) == batches[n];
      hide Own, Logs, Concat, L.HasChannel, L.Pick;
      L.PickSnoc(init, last, due);
      OwnSnoc(channel, init, last);
      OwnSnoc(channel, L.Pick(init, due), last);
      if !L.HasChannel(batches[n], channel) {
        NoneOwn(channel, last);
        assert L.Due(channel, batches) == due;
      }
    } else {
      assert L.Pick(records, L.Due(channel, batches)) == records;
    }
  }

  // ----- sorting and the channel ------------------------------------------------------------------

  lemma {:induction false} ChannelKeepsSorted(channel: Int8, s: seq<LogPackage>)
    requires Sorted(s)
    ensures Sorted(L.OfChannel(channel, s))
  {
    if s != [] {
      var mine := (p: LogPackage) => p.channel == channel;
      assert s == [s[0]] + s[1..];
      FilterFirst(mine, s[0], s[1..]);
      InFilter(mine, s[1..]);
      ChannelKeepsSorted(channel, s[1..]);
      hide Filter;
      assert forall p :: p in s[1..] ==> !Before(p, s[0]);
    }
  }

  /** Sorting all records and taking a channel's is sorting the channel's records. */
  lemma {:induction false} ChannelOfSorted(channel: Int8, s: seq<LogPackage>)
    ensures L.OfChannel(channel, StableSort(s)) == StableSort(L.OfChannel(channel, s))
  {
    var mine := (p: LogPackage) => p.channel == channel;
    forall t
      ensures At(t, L.OfChannel(channel, StableSort(s))) == At(t, StableSort(L.OfChannel(channel, s)))
    {
      var now := (p: LogPackage) => p.timestamp == t;
      StableSortIsStable(s, t);
      StableSortIsStable(L.OfChannel(channel, s), t);
      FilterTwice(now, mine, StableSort(s));
      FilterTwice(now, mine, s);
    }
    StableSortIsStable(s, Timespec(0, 0));
    StableSortIsStable(L.OfChannel(channel, s), Timespec(0, 0));
    ChannelKeepsSorted(channel, StableSort(s));
    StableSortIsUnique(L.OfChannel(channel, StableSort(s)), StableSort(L.OfChannel(channel, s)));
  }

  /** After any run of the logger, a sink without a job in flight has been given batches that fill its files
      as handling its channel's extracted records one by one does, exactly when no dropped record is missed;
      and when the clock was steady and the pushes punctual, these are the first ones of the stable sort of
      all the channel's accepted records. */
  lemma {:induction false} FilesHoldTheSortedRecordsIff(
      sinks: seq<Int8>, now: Timespec, es: seq<L.Event>, l: L.Logger, i: nat,
      s: Sink, records: seq<seq<Record>>)
    requires L.ClockTime(now) && Runs.Exec(L.Step, L.Init(sinks, now), es) == Some(l)
    requires i < |l.sinks| && !L.InFlight(l, i) && s.channel == l.sinks[i]
    requires Stamped(records, l.batches)
    ensures i < |l.written| && forall k :: 0 <= k < |l.written[i]| ==> l.written[i][k] < |records|
    ensures var mine := L.Pick(records, l.written[i]);
            WriteAll(s, mine).files == Reference(s, Own(s.channel, Concat(records))).files <==>
            !AnyMissed(s.channel, mine)
    ensures AnyMissed(s.channel, L.Pick(records, l.written[i])) ==> Restarts(s.channel, Own(s.channel, Concat(records)))
    ensures Logs(Own(s.channel, Concat(records))) == L.OfChannel(s.channel, Concat(l.batches))
    ensures l.steady && l.punctual ==>
              L.OfChannel(s.channel, Concat(l.batches)) <= StableSort(L.OfChannel(s.channel, l.accepted))
    ensures l.steady && l.punctual && l.store == [] ==>
              L.OfChannel(s.channel, Concat(l.batches)) == StableSort(L.OfChannel(s.channel, l.accepted))
  {
    hide L.Step, L.Due, Apply, AnyMissed, Sorted, L.ClockNeverBack, L.PushesInTime, L.PushedIn, L.ClockAfter;
    L.SinkSeesItsRecords(sinks, now, es, l, i);
    var mine := L.Pick(records, l.written[i]);
    BatchesRefineReferenceIff(s, mine);
    OtherChannelsDoNothing(s, Concat(mine));
    DueHoldsAllRecords(s.channel, records, l.batches);
    OwnRestarts(s.channel, Concat(mine));
    if !Restarts(s.channel, Concat(mine)) {
      NoRestartNothingMissed(s.channel, mine);
    }
    LogsOfOwn(s.channel, Concat(records));
    LogsOfAll(records, l.batches);
    if l.steady && l.punctual {
      L.RunTells(sinks, now, es, l);
      L.OutputIsSorted(sinks, now, es, l);
      L.OfChannelPrefix(s.channel, Concat(l.batches), StableSort(l.accepted));
      ChannelOfSorted(s.channel, l.accepted);
      assert l.store == [] ==> Concat(l.batches) == StableSort(l.accepted);
    }
  }
}
