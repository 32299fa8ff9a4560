/** Sessions on one channel: a client that opens a file, writes to it and closes it (logclient/logclient.cpp,
    OpenNewLogFile and CloseLogFile). What sorting makes of a session, and what a sink makes of it. */
module Sessions {
  import opened Bytes
  import opened FileSink
  import opened LogPackages
  import opened Seqs
  import opened StableOrder
  import opened Timestamps
  import L = Logger

  /** A change-file package at most at the front and not after any other, a stop package at most at the end
      and not before any other. */
  ghost predicate Session(channel: Int8, ps: seq<LogPackage>)
  {
    && (forall i :: 0 < i < |ps| ==> !IsChange(channel, ps[i]))
    && (forall i :: 0 <= i < |ps| - 1 ==> !IsStop(channel, ps[i]))
    && (Opens(channel, ps) ==> forall i :: 0 <= i < |ps| ==> !Before(ps[i], ps[0]))
    && (Closes(channel, ps) ==> forall i :: 0 <= i < |ps| ==> !Before(ps[|ps| - 1], ps[i]))
  }

  predicate Opens(channel: Int8, ps: seq<LogPackage>)
  {
    ps != [] && IsChange(channel, ps[0])
  }

  predicate Closes(channel: Int8, ps: seq<LogPackage>)
  {
    ps != [] && IsStop(channel, ps[|ps| - 1])
  }

  ghost predicate Plain(channel: Int8, ps: seq<LogPackage>)
  {
    forall p :: p in ps ==> !IsChange(channel, p) && !IsStop(channel, p)
  }

  lemma PrefixOfSession(channel: Int8, ps: seq<LogPackage>, qs: seq<LogPackage>)
    requires Session(channel, ps) && qs <= ps
    ensures Session(channel, qs)
    ensures qs != [] ==> (Opens(channel, qs) <==> Opens(channel, ps))
  {
    assert forall i :: 0 <= i < |qs| ==> qs[i] == ps[i];
  }

  // ----- sorting a session ----------------------------------------------------------------------

  lemma {:induction false} SortSnoc(ts: seq<LogPackage>, x: LogPackage)
    ensures StableSort(ts + [x]) == Insert(StableSort(ts), x)
    ensures StableSort([]) == []
  {
    assert (ts + [x])[..|ts|] == ts;
  }

  lemma {:induction false} FirstStays(x: LogPackage, ts: seq<LogPackage>)
    requires forall t :: t in ts ==> !Before(t, x)
    ensures StableSort([x] + ts) == [x] + StableSort(ts)
  {
    hide StableSort, Insert, Before;
    if ts == [] {
      SortSnoc([], x);
      InsertIntoNone(x);
      assert [] + [x] == [x] && [x] + ts == [x] && [x] + [] == [x];
    } else {
      var init, last := ts[..|ts| - 1], ts[|ts| - 1];
      assert ts == init + [last];
      FirstStays(x, init);
      Assoc([x], init, [last]);
      SortSnoc([x] + init, last);
      SortSnoc(init, last);
      InsertBehind([x], StableSort(init), last);
    }
  }

  lemma InsertIntoNone(x: LogPackage)
    ensures Insert([], x) == [x]
  {
  }

  lemma {:induction false} LastStays(ts: seq<LogPackage>, y: LogPackage)
    requires forall t :: t in ts ==> !Before(y, t)
    ensures StableSort(ts + [y]) == StableSort(ts) + [y]
  {
    hide StableSort, Insert, Before;
    var sorted := StableSort(ts);
    SortSnoc(ts, y);
    SortedAreThese(ts);
    InsertIntoNone(y);
    assert sorted + [] == sorted;
    InsertBehind(sorted, [], y);
  }

  lemma {:induction false} SortedAreThese(ts: seq<LogPackage>)
    ensures |StableSort(ts)| == |ts| && forall t :: t in StableSort(ts) <==> t in ts
  {
    StableSortPermutes(ts);
    var sorted := StableSort(ts);
    assert |multiset(sorted)| == |multiset(ts)|;
    assert forall t :: t in sorted <==> t in multiset(sorted);
    assert forall t :: t in ts <==> t in multiset(ts);
  }

  /** A session taken apart: what opens it, what lies between, what closes it. */
  ghost predicate Framed(channel: Int8, a: seq<LogPackage>, mid: seq<LogPackage>, z: seq<LogPackage>)
  {
    && |a| <= 1 && |z| <= 1 && Plain(channel, mid)
    && (a != [] ==> IsChange(channel, a[0]) && forall p :: p in mid + z ==> !Before(p, a[0]))
    && (z != [] ==> IsStop(channel, z[0]) && forall p :: p in a + mid ==> !Before(z[0], p))
  }

  lemma PlainMiddle(channel: Int8, ps: seq<LogPackage>, i: nat, k: nat)
    requires Session(channel, ps) && i <= k <= |ps|
    requires (i == 0 ==> !Opens(channel, ps)) && (k == |ps| ==> !Closes(channel, ps))
    ensures Plain(channel, ps[i..k])
  {
    hide Before, IsChange, IsStop;
    forall p | p in ps[i..k]
      ensures !IsChange(channel, p) && !IsStop(channel, p)
    {
      var j :| i <= j < k && ps[j] == p;
    }
  }

  lemma EndsInTime(channel: Int8, ps: seq<LogPackage>)
    requires Session(channel, ps)
    ensures Opens(channel, ps) ==> forall p :: p in ps ==> !Before(p, ps[0])
    ensures Closes(channel, ps) ==> forall p :: p in ps ==> !Before(ps[|ps| - 1], p)
    ensures Opens(channel, ps) && Closes(channel, ps) ==> |ps| > 1
  {
    hide Before;
  }

  lemma {:induction false} TakeApart(channel: Int8, ps: seq<LogPackage>)
    returns (a: seq<LogPackage>, mid: seq<LogPackage>, z: seq<LogPackage>)
    requires Session(channel, ps)
    ensures ps == a + mid + z && Framed(channel, a, mid, z) && (a != [] <==> Opens(channel, ps))
  {
    EndsInTime(channel, ps);
    hide Before, IsChange, IsStop, Session, Plain;
    var i := if Opens(channel, ps) then 1 else 0;
    var k := if Closes(channel, ps) then |ps| - 1 else |ps|;
    PlainMiddle(channel, ps, i, k);
    a, mid, z := ps[..i], ps[i..k], ps[k..];
    Assoc(a, mid, z);
    assert mid + z == ps[i..] && a + mid == ps[..k];
  }

  lemma FramedIsSession(channel: Int8, a: seq<LogPackage>, mid: seq<LogPackage>, z: seq<LogPackage>)
    requires Framed(channel, a, mid, z)
    ensures Session(channel, a + mid + z) && (Opens(channel, a + mid + z) <==> a != [])
  {
    var ps := a + mid + z;
    forall i | 0 <= i < |ps|
      ensures ps[i] == if i < |a| then a[i] else if i < |a| + |mid| then mid[i - |a|] else z[i - |a| - |mid|]
      ensures i < |a| || i >= |a| + |mid| || ps[i] in mid
    {
    }
    hide Before;
  }

  lemma {:induction false} SortFramed(channel: Int8, a: seq<LogPackage>, mid: seq<LogPackage>, z: seq<LogPackage>)
    requires Framed(channel, a, mid, z)
    ensures StableSort(a + mid + z) == a + StableSort(mid) + z
  {
    hide StableSort, Before, IsChange, IsStop;
    if a != [] {
      FirstStays(a[0], mid);
      assert a == [a[0]];
    } else {
      assert [] + mid == mid && [] + StableSort(mid) == StableSort(mid);
    }
    if z != [] {
      LastStays(a + mid, z[0]);
      assert z == [z[0]];
    } else {
      assert a + mid + [] == a + mid && a + StableSort(mid) + [] == a + StableSort(mid);
    }
  }

  /** Sorting a session leaves its ends where they are. */
  lemma {:induction false} SessionSorted(channel: Int8, ps: seq<LogPackage>)
    requires Session(channel, ps)
    ensures |StableSort(ps)| == |ps| && Session(channel, StableSort(ps))
    ensures Opens(channel, StableSort(ps)) <==> Opens(channel, ps)
    ensures Opens(channel, ps) ==> StableSort(ps)[0] == ps[0]
  {
    hide StableSort, Before, IsChange, IsStop, Session, Opens;
    var a, mid, z := TakeApart(channel, ps);
    SortFramed(channel, a, mid, z);
    SortedAreThese(mid);
    assert Framed(channel, a, StableSort(mid), z);
    FramedIsSession(channel, a, StableSort(mid), z);
    if a != [] {
      assert ps[0] == a[0] && (a + StableSort(mid) + z)[0] == a[0];
    }
  }

  /** What a client pushes that opens a file, writes to it and closes it again is a session. */
  lemma {:induction false} ClientSession(
      channel: Int8, open: LogPackage, texts: seq<LogPackage>, close: seq<LogPackage>)
    requires IsChange(channel, open) && forall t :: t in texts ==> t.command.Message?
    requires |close| <= 1 && forall t :: t in close ==> IsStop(channel, t)
    requires forall t :: t in texts + close ==> !Before(t, open)
    requires forall t, u :: t in close && u in [open] + texts ==> !Before(t, u)
    ensures Session(channel, [open] + texts + close) && Opens(channel, [open] + texts + close)
    ensures StableSort([open] + texts + close) == [open] + StableSort(texts) + close
  {
    hide Before;
    FramedIsSession(channel, [open], texts, close);
    SortFramed(channel, [open], texts, close);
  }

  // ----- writing a session ------------------------------------------------------------------------

  /** One file has grown by some lines, and all others are as they were. */
  ghost predicate Grown(before: map<Name, seq<Line>>, after: map<Name, seq<Line>>, name: Name, lines: seq<Line>)
  {
    && Lines(after, name) == Lines(before, name) + lines
    && forall n :: n != name ==> Lines(after, n) == Lines(before, n)
  }

  /** The file of a session: the one its change-file record names, or the one that is open. */
  function FileOf(s: Sink, rs: seq<Record>): Name
  {
    if rs != [] && IsChange(s.channel, rs[0].log) then FileName(rs[0].log.message, rs[0].log.tag, s.channel, rs[0].now)
    else s.fileName
  }

  lemma {:induction false} TextLinesFirst(channel: Int8, p: LogPackage, rest: seq<LogPackage>)
    ensures TextLines(channel, [p] + rest) ==
            (if IsText(channel, p) then [LineOf(p)] else []) + TextLines(channel, rest)
    ensures TextLines(channel, []) == []
  {
    assert ([p] + rest)[1..] == rest;
  }

  lemma {:induction false} TextLinesAppend(channel: Int8, a: seq<LogPackage>, b: seq<LogPackage>)
    ensures TextLines(channel, a + b) == TextLines(channel, a) + TextLines(channel, b)
  {
    if a == [] {
      assert a + b == b;
    } else {
      hide TextLines, IsText;
      SplitFirst(a, b);
      TextLinesFirst(channel, a[0], a[1..] + b);
      TextLinesFirst(channel, a[0], a[1..]);
      TextLinesAppend(channel, a[1..], b);
      Assoc(if IsText(channel, a[0]) then [LineOf(a[0])] else [], TextLines(channel, a[1..]), TextLines(channel, b));
    }
  }

  lemma {:induction false} ControlsAddNoLine(channel: Int8, p: LogPackage)
    requires IsChange(channel, p) || IsStop(channel, p)
    ensures TextLines(channel, [p]) == []
  {
    assert [p][1..] == [];
  }

  /** With the file open: records up to a stop that may come last. */
  lemma {:induction false} OpenSessionFills(s: Sink, rs: seq<Record>)
    requires s.fileName != []
    requires forall i :: 0 <= i < |rs| ==> !IsChange(s.channel, rs[i].log)
    requires forall i :: 0 <= i < |rs| - 1 ==> !IsStop(s.channel, rs[i].log)
    ensures Grown(s.files, Reference(s, rs).files, s.fileName, TextLines(s.channel, Logs(rs)))
  {
    hide Apply, TextLines, Reference, IsStop, IsChange;
    if rs != [] && IsStop(s.channel, rs[|rs| - 1].log) {
      var init, last := rs[..|rs| - 1], rs[|rs| - 1];
      assert rs == init + [last];
      TextsGrow(s, init);
      LastStopAddsNothing(s, init, last);
    } else {
      TextsGrow(s, rs);
    }
  }

  lemma {:induction false} LastStopAddsNothing(s: Sink, init: seq<Record>, last: Record)
    requires IsStop(s.channel, last.log)
    ensures Reference(s, init + [last]).files == Reference(s, init).files
    ensures TextLines(s.channel, Logs(init + [last])) == TextLines(s.channel, Logs(init))
  {
    hide Apply, TextLines;
    ReferenceAppend(s, init, [last]);
    ReferenceOne(Reference(s, init), last);
    StopWritesNothing(Reference(s, init), last);
    assert Logs(init + [last]) == Logs(init) + [last.log];
    TextLinesAppend(s.channel, Logs(init), [last.log]);
    ControlsAddNoLine(s.channel, last.log);
    assert TextLines(s.channel, Logs(init)) + [] == TextLines(s.channel, Logs(init));
  }

  lemma StopWritesNothing(s: Sink, r: Record)
    requires IsStop(s.channel, r.log)
    ensures Apply(s, r).files == s.files
  {
  }

  lemma ChangeOpens(s: Sink, r: Record)
    requires IsChange(s.channel, r.log)
    ensures var t := Apply(s, r);
            && t.channel == s.channel && t.files == s.files
            && t.fileName == FileName(r.log.message, r.log.tag, s.channel, r.now) != []
  {
  }

  lemma RecordsOfSession(channel: Int8, rs: seq<Record>)
    requires Session(channel, Logs(rs)) && rs != []
    ensures Opens(channel, Logs(rs)) <==> IsChange(channel, rs[0].log)
    ensures forall i :: 0 < i < |rs| ==> !IsChange(channel, rs[i].log)
    ensures forall i :: 0 <= i < |rs| - 1 ==> !IsStop(channel, rs[i].log)
    ensures Logs(rs) == [rs[0].log] + Logs(rs[1..])
  {
    hide Before, IsChange, IsStop;
    assert forall i :: 0 <= i < |rs| ==> Logs(rs)[i] == rs[i].log;
  }

  lemma {:induction false} OpeningSessionFills(s: Sink, first: Record, rest: seq<Record>)
    requires IsChange(s.channel, first.log)
    requires forall i :: 0 <= i < |rest| ==> !IsChange(s.channel, rest[i].log)
    requires forall i :: 0 <= i < |rest| - 1 ==> !IsStop(s.channel, rest[i].log)
    ensures Grown(s.files, Reference(Apply(s, first), rest).files,
                  FileName(first.log.message, first.log.tag, s.channel, first.now),
                  TextLines(s.channel, [first.log] + Logs(rest)))
  {
    ChangeOpens(s, first);
    hide Apply, TextLines, FileName, Grown, Logs, IsChange, IsStop;
    OpenSessionFills(Apply(s, first), rest);
    TextLinesAppend(s.channel, [first.log], Logs(rest));
    ControlsAddNoLine(s.channel, first.log);
    assert [] + TextLines(s.channel, Logs(rest)) == TextLines(s.channel, Logs(rest));
  }

  lemma {:induction false} SessionGrows(s: Sink, rs: seq<Record>)
    requires Session(s.channel, Logs(rs)) && (rs == [] || Opens(s.channel, Logs(rs)) || s.fileName != [])
    ensures Grown(s.files, Reference(s, rs).files, FileOf(s, rs), TextLines(s.channel, Logs(rs)))
  {
    hide Apply, TextLines, Logs, IsChange, IsStop, Session, Opens, FileName;
    if rs == [] {
      NothingWritten(s, rs);
    } else {
      RecordsOfSession(s.channel, rs);
      if IsChange(s.channel, rs[0].log) {
        OpeningSessionFills(s, rs[0], rs[1..]);
      } else {
        OpenSessionFills(s, rs);
      }
    }
  }

  /** A session fills its file with one line for each of its messages, in order and field by field, and changes no
      other file. */
  lemma {:induction false} SessionFills(s: Sink, rs: seq<Record>)
    requires Session(s.channel, Logs(rs)) && (rs == [] || Opens(s.channel, Logs(rs)) || s.fileName != [])
    ensures Gained(s.files, Reference(s, rs).files, FileOf(s, rs), Messages(s.channel, Logs(rs)))
  {
    hide Reference, TextLines, Messages, Logs, Session, Opens, Extended, FileOf;
    SessionGrows(s, rs);
    GrowthExtends(Lines(s.files, FileOf(s, rs)), s.channel, Logs(rs));
  }

  lemma {:induction false} NothingWritten(s: Sink, rs: seq<Record>)
    requires rs == []
    ensures TextLines(s.channel, Logs(rs)) == [] && Reference(s, rs) == s
  {
  }

  lemma {:induction false} NoChangeNoRestart(channel: Int8, rs: seq<Record>)
    requires forall i :: 0 <= i < |rs| ==> !IsChange(channel, rs[i].log)
    ensures !HasChange(channel, rs) && !Restarts(channel, rs)
  {
    if rs != [] {
      NoChangeNoRestart(channel, rs[1..]);
    }
  }

  /** And it is never missed. */
  lemma {:induction false} SessionNeverRestarts(channel: Int8, rs: seq<Record>)
    requires Session(channel, Logs(rs))
    ensures !Restarts(channel, rs)
  {
    if rs != [] {
      assert forall i :: 0 <= i < |rs| ==> Logs(rs)[i] == rs[i].log;
      NoChangeNoRestart(channel, rs[1..]);
    }
  }

  // ----- packages that carry the same -----------------------------------------------------------------

  /** Equal in every field that their command carries; the fields that travel in no frame may differ. */
  ghost predicate SameCarried(p: LogPackage, q: LogPackage)
  {
    !p.command.Other? && !q.command.Other? && Carried(p) == Carried(q)
  }

  ghost predicate AllSame(ps: seq<LogPackage>, qs: seq<LogPackage>)
  {
    |ps| == |qs| && forall i :: 0 <= i < |ps| ==> SameCarried(ps[i], qs[i])
  }

  lemma SameFields(p: LogPackage, q: LogPackage)
    requires SameCarried(p, q)
    ensures p.channel == q.channel && p.timestamp == q.timestamp && p.command == q.command
    ensures p.command.Message? ==> p == q
    ensures p.command.ChangeFile? ==> p.message == q.message && p.tag == q.tag
  {
  }

  lemma {:induction false} ChannelSame(channel: Int8, ps: seq<LogPackage>, qs: seq<LogPackage>)
    requires AllSame(ps, qs)
    ensures AllSame(L.OfChannel(channel, ps), L.OfChannel(channel, qs))
  {
    if ps != [] {
      var mine := (p: LogPackage) => p.channel == channel;
      SameFields(ps[0], qs[0]);
      ChannelSame(channel, ps[1..], qs[1..]);
      assert ps == [ps[0]] + ps[1..] && qs == [qs[0]] + qs[1..];
      FilterFirst(mine, ps[0], ps[1..]);
      FilterFirst(mine, qs[0], qs[1..]);
      hide Filter, SameCarried;
    }
  }

  lemma {:induction false} UpperBoundSame(ps: seq<LogPackage>, qs: seq<LogPackage>, t: Timespec)
    requires AllSame(ps, qs)
    ensures UpperBound(ps, t) == UpperBound(qs, t)
  {
    if ps != [] {
      SameFields(ps[0], qs[0]);
      UpperBoundSame(ps[1..], qs[1..], t);
    }
  }

  lemma InsertSame(ps: seq<LogPackage>, qs: seq<LogPackage>, p: LogPackage, q: LogPackage)
    requires AllSame(ps, qs) && SameCarried(p, q)
    ensures AllSame(Insert(ps, p), Insert(qs, q))
  {
    SameFields(p, q);
    UpperBoundSame(ps, qs, p.timestamp);
    hide UpperBound, SameCarried;
  }

  lemma {:induction false} SortSame(ps: seq<LogPackage>, qs: seq<LogPackage>)
    requires AllSame(ps, qs)
    ensures AllSame(StableSort(ps), StableSort(qs))
  {
    if ps != [] {
      var n := |ps| - 1;
      assert ps == ps[..n] + [ps[n]] && qs == qs[..n] + [qs[n]];
      hide StableSort, Insert, SameCarried;
      SortSame(ps[..n], qs[..n]);
      SortSnoc(ps[..n], ps[n]);
      SortSnoc(qs[..n], qs[n]);
      InsertSame(StableSort(ps[..n]), StableSort(qs[..n]), ps[n], qs[n]);
    }
  }

  lemma PrefixSame(ps: seq<LogPackage>, qs: seq<LogPackage>, n: nat)
    requires AllSame(ps, qs) && n <= |ps|
    ensures AllSame(ps[..n], qs[..n])
  {
  }

  lemma {:induction false} MessagesSame(channel: Int8, ps: seq<LogPackage>, qs: seq<LogPackage>)
    requires AllSame(ps, qs)
    ensures Messages(channel, ps) == Messages(channel, qs)
  {
    if ps != [] {
      SameFields(ps[0], qs[0]);
      MessagesSame(channel, ps[1..], qs[1..]);
    }
  }

  lemma SessionSame(channel: Int8, ps: seq<LogPackage>, qs: seq<LogPackage>)
    requires AllSame(ps, qs) && Session(channel, qs)
    ensures Session(channel, ps) && (Opens(channel, ps) <==> Opens(channel, qs))
  {
    forall i | 0 <= i < |ps|
      ensures IsChange(channel, ps[i]) <==> IsChange(channel, qs[i])
      ensures IsStop(channel, ps[i]) <==> IsStop(channel, qs[i])
      ensures ps[i].timestamp == qs[i].timestamp
    {
      SameFields(ps[i], qs[i]);
    }
    hide SameCarried, IsChange, IsStop;
  }
}
