/** The logging client's writer (logclient/logclient.cpp, utils/lockqueue.h): many pushing threads and one
    I/O thread share a queue, an in-progress flag and the frame being sent. Every event below is one
    atomic piece of code: what runs between two lock operations, or one completion handler. */
module LogClient {
  import opened Bytes
  import opened FlapBuilder
  import opened LogPackages
  import opened Seqs
  import opened Wrappers
  import Runs

  // ----- state -----------------------------------------------------------------------------

  /** Where a pushing thread stands: past the mode checks, or with the package queued and a call of
      WriteNextMessage still owed. */
  datatype Pusher = Checked(p: LogPackage) | Owing

  /** Where the I/O thread stands in WriteHandler. */
  datatype IoThread = IoIdle | IoClearing | IoOwing

  datatype Write = Write(at: nat, len: nat)

  /** A package that was turned into a frame, with the request id it got. */
  datatype Sent = Sent(p: LogPackage, id: nat, frame: seq<Byte>)

  /** The fields of the client, the threads and the socket, and the history: packages accepted into the
      queue, packages taken out and framed, a package whose framing threw, bytes on the wire. `ended` says
      that the exception left the I/O thread, which has no handler, so that the process is gone. */
  datatype Client = Client(
    toServer: bool, stopping: bool, queue: seq<LogPackage>, writeInProgress: bool,
    current: seq<Byte>, transferred: nat, nextId: nat,
    outstanding: Option<Write>, threads: map<nat, Pusher>, io: IoThread,
    pushed: seq<LogPackage>, sent: seq<Sent>, stuck: Option<LogPackage>, wire: seq<Byte>, failed: bool,
    ended: bool)

  const INITIAL := Client(true, false, [], false, [], 0, 0, None, map[], IoIdle, [], [], None, [], false,
                          false)

  function Frames(sent: seq<Sent>): (fs: seq<seq<Byte>>)
    ensures |fs| == |sent| && forall i :: 0 <= i < |fs| ==> fs[i] == sent[i].frame
  {
    seq(|sent|, i requires 0 <= i < |sent| => sent[i].frame)
  }

  function Packages(sent: seq<Sent>): (ps: seq<LogPackage>)
    ensures |ps| == |sent| && forall i :: 0 <= i < |ps| ==> ps[i] == sent[i].p
  {
    seq(|sent|, i requires 0 <= i < |sent| => sent[i].p)
  }

  /** Every package taken from the queue so far. */
  function Dequeued(c: Client): seq<LogPackage>
  {
    Packages(c.sent) + if c.stuck.Some? then [c.stuck.value] else []
  }

  // ----- steps ------------------------------------------------------------------------------

  /** A package leaves the queue and its frame is written. The flag is set before the frame is built, so
      when building throws it stays set with no write outstanding (and no request id is used any more). */
  function Take(c: Client, p: LogPackage): Client
  {
    var taken := c.(writeInProgress := true, nextId := c.nextId + 1);
    match Encode(p, c.nextId)
    case Failure(_) => taken.(stuck := Some(p))
    case Success(f) =>
      taken.(current := f, transferred := 0, outstanding := Some(Write(0, |f|)), sent := c.sent + [Sent(p, c.nextId, f)])
  }

  lemma TakeCases(c: Client, p: LogPackage)
    ensures Encode(p, c.nextId).Failure? ==>
              Take(c, p) == c.(writeInProgress := true, nextId := c.nextId + 1, stuck := Some(p))
    ensures Encode(p, c.nextId).Success? ==>
              var f := Encode(p, c.nextId).value;
              Take(c, p) == c.(writeInProgress := true, nextId := c.nextId + 1, current := f, transferred := 0,
                               outstanding := Some(Write(0, |f|)), sent := c.sent + [Sent(p, c.nextId, f)])
  {
    hide Encode;
  }

  /** WriteNextMessage, under the mutex. */
  function TryNext(c: Client): Client
  {
    if c.writeInProgress || c.queue == [] then c else Take(c.(queue := c.queue[1..]), c.queue[0])
  }

  function Enqueue(c: Client, p: LogPackage): Client
  {
    c.(queue := c.queue + [p], pushed := c.pushed + [p])
  }

  lemma TryNextSendsNothing(c: Client)
    ensures TryNext(c).wire == c.wire
  {
    hide Encode;
  }

  /** The bytes of a completion reach the wire. */
  function Transmit(c: Client, n: nat): Client
    requires c.outstanding.Some? && c.outstanding.value.at + n <= |c.current|
  {
    var at := c.outstanding.value.at;
    c.(outstanding := None, wire := c.wire + c.current[at..at + n])
  }

  /** WriteHandler without an error, up to the point where it would clear the flag. */
  function Completed(c: Client, n: nat): Client
  {
    var total := c.transferred + n;
    if total < |c.current| then c.(transferred := total, outstanding := Some(Write(total, |c.current| - total)))
    else c.(transferred := total, io := IoClearing)
  }

  datatype Event =
    | Begin(thread: nat, p: LogPackage)
    | Queue(thread: nat)
    | Next(thread: nat)
    | Complete(n: nat)
    | Clear
    | IoNext
    | Fail(n: nat)
    | StopRequest

  function Step(c: Client, e: Event): Option<Client>
  {
    if c.ended then None else
    match e
    case Begin(t, p) =>
      if t in c.threads then None
      else if c.toServer && !c.stopping then Some(c.(threads := c.threads[t := Checked(p)]))
      else Some(c)
    case Queue(t) =>
      if t in c.threads && c.threads[t].Checked? then
        Some(Enqueue(c, c.threads[t].p).(threads := c.threads[t := Owing]))
      else None
    case Next(t) =>
      if t in c.threads && c.threads[t].Owing? then Some(TryNext(c.(threads := c.threads - {t}))) else None
    case Complete(n) =>
      if c.io.IoIdle? && c.outstanding.Some? && n <= c.outstanding.value.len
         && c.outstanding.value.at + n <= |c.current|
      then Some(Completed(Transmit(c, n), n)) else None
    case Clear =>
      if c.io.IoClearing? then Some(c.(writeInProgress := false, io := IoOwing)) else None
    case IoNext =>
      if !c.io.IoOwing? then None else
      var d := TryNext(c.(io := IoIdle));
      Some(d.(ended := d.stuck != c.stuck))
    case Fail(n) =>
      if c.io.IoIdle? && c.outstanding.Some? && n <= c.outstanding.value.len
         && c.outstanding.value.at + n <= |c.current|
      then Some(Transmit(c, n).(toServer := false, failed := true)) else None
    case StopRequest => Some(c.(stopping := true))
  }

  // ----- invariant ----------------------------------------------------------------------------

  ghost predicate SentProperly(sent: seq<Sent>)
  {
    forall i :: 0 <= i < |sent| ==> Encode(sent[i].p, sent[i].id) == Success(sent[i].frame)
  }

  /** A frame is under way: all earlier frames and its first `transferred` bytes are on the wire. */
  ghost predicate Sending(c: Client)
  {
    && c.sent != [] && c.current == c.sent[|c.sent| - 1].frame
    && c.transferred <= |c.current|
    && c.wire == Concat(Frames(c.sent[..|c.sent| - 1])) + c.current[..c.transferred]
    && (c.outstanding.Some? ==>
          c.transferred < |c.current| && c.outstanding.value == Write(c.transferred, |c.current| - c.transferred))
    && (c.outstanding.None? ==> c.io.IoClearing? && c.transferred == |c.current|)
    && (c.io.IoClearing? ==> c.outstanding.None?)
  }

  /** Building the frame of `p` throws, whatever request id it gets. */
  ghost predicate Unbuildable(p: LogPackage)
  {
    Encode(p, 0).Failure?
  }

  ghost predicate Core(c: Client)
  {
    && c.pushed == Dequeued(c) + c.queue
    && SentProperly(c.sent)
    && (c.stuck.Some? ==> Unbuildable(c.stuck.value) && c.writeInProgress && !c.failed)
    && c.wire <= Concat(Frames(c.sent))
    && (!c.writeInProgress || c.stuck.Some? ==>
          c.outstanding.None? && !c.io.IoClearing? && c.wire == Concat(Frames(c.sent)))
    && (c.writeInProgress && c.stuck.None? && !c.failed ==> Sending(c))
    && (c.failed ==> c.outstanding.None? && !c.io.IoClearing? && c.writeInProgress && !c.toServer)
  }

  ghost predicate Inv(c: Client)
  {
    Core(c) && (c.queue != [] && !c.writeInProgress ==> SomeoneOwes(c))
  }

  ghost predicate SomeoneOwes(c: Client)
  {
    c.io.IoOwing? || exists t :: t in c.threads && c.threads[t].Owing?
  }

  lemma FramesSnoc(sent: seq<Sent>, x: Sent)
    ensures Concat(Frames(sent + [x])) == Concat(Frames(sent)) + x.frame
    ensures Packages(sent + [x]) == Packages(sent) + [x.p]
    ensures (sent + [x])[..|sent|] == sent
  {
    assert Frames(sent + [x]) == Frames(sent) + [x.frame];
    ConcatOne(Frames(sent), x.frame);
  }

  lemma UnbuildableIgnoresId(p: LogPackage, id: nat)
    ensures Encode(p, id).Failure? <==> Unbuildable(p)
  {
  }

  lemma FrameNotEmpty(p: LogPackage, id: nat)
    requires Encode(p, id).Success?
    ensures |Encode(p, id).value| > 0
  {
  }

  lemma StuckKeepsInv(c: Client, p: LogPackage, rest: seq<LogPackage>)
    requires Core(c) && !c.io.IoClearing? && !c.writeInProgress && c.queue == [p] + rest && Unbuildable(p)
    ensures Inv(c.(queue := rest, writeInProgress := true, nextId := c.nextId + 1, stuck := Some(p)))
  {
    hide Encode, Concat, Frames, SentProperly, Unbuildable, SomeoneOwes;
    Assoc(Packages(c.sent), [p], rest);
    assert Packages(c.sent) + [] == Packages(c.sent);
  }

  lemma StartedKeepsInv(c: Client, p: LogPackage, rest: seq<LogPackage>, f: seq<Byte>)
    requires Core(c) && !c.io.IoClearing? && !c.writeInProgress && c.queue == [p] + rest
    requires Encode(p, c.nextId) == Success(f) && f != []
    ensures Inv(c.(queue := rest, writeInProgress := true, nextId := c.nextId + 1, current := f, transferred := 0,
                   outstanding := Some(Write(0, |f|)), sent := c.sent + [Sent(p, c.nextId, f)]))
  {
    hide Encode, Concat, Frames, Packages, Unbuildable, SomeoneOwes;
    FramesSnoc(c.sent, Sent(p, c.nextId, f));
    Assoc(Packages(c.sent), [p], rest);
    assert Packages(c.sent) + [] == Packages(c.sent);
    assert Packages(c.sent + [Sent(p, c.nextId, f)]) + [] == Packages(c.sent) + [p];
    assert Concat(Frames(c.sent)) + f[..0] == Concat(Frames(c.sent));
  }

  /** The package at the head of the queue is taken: into `sent` when its frame builds, otherwise stuck. */
  lemma TakeKeepsInv(c: Client, p: LogPackage, rest: seq<LogPackage>)
    requires Core(c) && !c.io.IoClearing? && !c.writeInProgress && c.queue == [p] + rest
    ensures Inv(TryNext(c))
  {
    hide Encode, Take, Core, Inv, Unbuildable;
    UnbuildableIgnoresId(p, c.nextId);
    TakeCases(c.(queue := rest), p);
    if Encode(p, c.nextId).Success? {
      FrameNotEmpty(p, c.nextId);
      StartedKeepsInv(c, p, rest, Encode(p, c.nextId).value);
    } else {
      StuckKeepsInv(c, p, rest);
    }
  }

  lemma TryNextKeepsInv(c: Client)
    requires Core(c) && !c.io.IoClearing?
    ensures Inv(TryNext(c))
  {
    hide Encode;
    if !c.writeInProgress && c.queue != [] {
      TakeKeepsInv(c, c.queue[0], c.queue[1..]);
    }
  }

  lemma PrefixGrows(done: seq<Byte>, f: seq<Byte>, at: nat, n: nat)
    requires at + n <= |f|
    ensures done + f[..at] + f[at..at + n] == done + f[..at + n]
    ensures done + f[..at + n] <= done + f
    ensures f[..|f|] == f
  {
    assert f[..at] + f[at..at + n] == f[..at + n];
  }

  lemma LastFrame(c: Client)
    requires c.sent != []
    ensures var k := |c.sent| - 1;
            Concat(Frames(c.sent)) == Concat(Frames(c.sent[..k])) + c.sent[k].frame
  {
    var k := |c.sent| - 1;
    assert c.sent == c.sent[..k] + [c.sent[k]];
    FramesSnoc(c.sent[..k], c.sent[k]);
  }

  lemma TransmitMovesOn(c: Client, n: nat)
    requires Inv(c) && c.io.IoIdle? && c.outstanding.Some? && n <= c.outstanding.value.len
    ensures c.outstanding.value == Write(c.transferred, |c.current| - c.transferred)
    ensures c.writeInProgress && c.stuck.None? && !c.failed
    ensures c.sent != [] && c.current == c.sent[|c.sent| - 1].frame && c.transferred + n <= |c.current|
    ensures var total, w := c.transferred + n, Transmit(c, n).wire;
            && w == Concat(Frames(c.sent[..|c.sent| - 1])) + c.current[..total]
            && w <= Concat(Frames(c.sent))
            && (total == |c.current| ==> w == Concat(Frames(c.sent)))
  {
    hide Encode, Concat, Frames, Packages, SentProperly, SomeoneOwes, Unbuildable, Dequeued;
    LastFrame(c);
    PrefixGrows(Concat(Frames(c.sent[..|c.sent| - 1])), c.current, c.transferred, n);
  }

  /** The handler goes on from a state whose bytes have reached the wire. */
  lemma CompletedKeepsInv(d: Client, n: nat)
    requires d.pushed == Dequeued(d) + d.queue && SentProperly(d.sent)
    requires d.writeInProgress && d.stuck.None? && !d.failed && d.outstanding.None? && d.io.IoIdle?
    requires d.sent != [] && d.current == d.sent[|d.sent| - 1].frame && d.transferred + n <= |d.current|
    requires d.wire == Concat(Frames(d.sent[..|d.sent| - 1])) + d.current[..d.transferred + n]
    requires d.wire <= Concat(Frames(d.sent))
    ensures Inv(Completed(d, n))
  {
    hide Encode, Concat, Frames, Packages, SentProperly, SomeoneOwes, Unbuildable;
  }

  lemma CompletionKeepsInv(c: Client, n: nat)
    requires Inv(c) && c.io.IoIdle? && c.outstanding.Some? && n <= c.outstanding.value.len
    ensures c.outstanding.value.at + n <= |c.current|
    ensures Inv(Completed(Transmit(c, n), n))
    ensures Transmit(c, n).wire <= Concat(Frames(c.sent))
  {
    hide *;
    TransmitMovesOn(c, n);
    TransmitFields(c, n);
    SameQueue(c, Transmit(c, n));
    CompletedKeepsInv(Transmit(c, n), n);
  }

  lemma TransmitFields(c: Client, n: nat)
    requires c.outstanding.Some? && c.outstanding.value.at + n <= |c.current|
    ensures Transmit(c, n) == c.(outstanding := None, wire := Transmit(c, n).wire)
  {
  }

  lemma SameQueue(c: Client, d: Client)
    requires Inv(c) && d.pushed == c.pushed && d.sent == c.sent && d.stuck == c.stuck && d.queue == c.queue
    ensures d.pushed == Dequeued(d) + d.queue && SentProperly(d.sent)
  {
    hide Encode, Concat, Frames, Packages, SentProperly, Sending, Unbuildable;
  }

  lemma QueueKeepsInv(c: Client, t: nat)
    requires Inv(c) && Step(c, Queue(t)).Some?
    ensures Inv(Step(c, Queue(t)).value)
  {
    hide Encode, Concat, Frames, Packages;
    var d := Step(c, Queue(t)).value;
    assert t in d.threads && d.threads[t].Owing?;
  }

  lemma BeginKeepsInv(c: Client, t: nat, p: LogPackage)
    requires Inv(c) && Step(c, Begin(t, p)).Some?
    ensures Inv(Step(c, Begin(t, p)).value)
  {
    hide Encode, Concat, Frames, Packages;
    var d := Step(c, Begin(t, p)).value;
    if c.queue != [] && !c.writeInProgress && !c.io.IoOwing? {
      var u :| u in c.threads && c.threads[u].Owing?;
      assert u in d.threads && d.threads[u].Owing?;
    }
  }

  lemma EndingKeepsInv(c: Client, ended: bool)
    requires Inv(c)
    ensures Inv(c.(ended := ended))
  {
    hide Encode, Concat, Frames, Packages;
  }

  lemma StepKeepsInv(c: Client, e: Event)
    requires Inv(c) && Step(c, e).Some?
    ensures Inv(Step(c, e).value)
  {
    hide Encode, Step, Inv;
    match e {
      case Begin(t, p) => BeginKeepsInv(c, t, p);
      case Queue(t) => QueueKeepsInv(c, t);
      case Next(t) => NextKeepsInv(c, t);
      case Complete(n) => CompleteKeepsInv(c, n);
      case Clear => ClearKeepsInv(c);
      case IoNext => IoNextKeepsInv(c);
      case Fail(n) => FailKeepsInv(c, n);
      case StopRequest => StopKeepsInv(c);
    }
  }

  lemma NextKeepsInv(c: Client, t: nat)
    requires Inv(c) && Step(c, Next(t)).Some?
    ensures Inv(Step(c, Next(t)).value)
  {
    hide Encode, Concat, Frames, Packages;
    var d := c.(threads := c.threads - {t});
    if c.io.IoClearing? {
      assert TryNext(d) == d;
    } else {
      TryNextKeepsInv(d);
    }
  }

  lemma IoNextKeepsInv(c: Client)
    requires Inv(c) && Step(c, IoNext).Some?
    ensures Inv(Step(c, IoNext).value)
  {
    hide Encode, Concat, Frames, Packages, TryNext, Inv;
    var d := TryNext(c.(io := IoIdle));
    WithIdleIo(c);
    TryNextKeepsInv(c.(io := IoIdle));
    EndingKeepsInv(d, d.stuck != c.stuck);
  }

  lemma WithIdleIo(c: Client)
    requires Inv(c) && c.io.IoOwing?
    ensures Core(c.(io := IoIdle))
  {
    hide Encode, Concat, Frames, Packages;
  }

  lemma CompleteKeepsInv(c: Client, n: nat)
    requires Inv(c) && Step(c, Complete(n)).Some?
    ensures Inv(Step(c, Complete(n)).value)
  {
    hide Encode, Concat, Frames, Packages, Inv, Completed, Transmit;
    CompletionKeepsInv(c, n);
  }

  lemma FailKeepsInv(c: Client, n: nat)
    requires Inv(c) && Step(c, Fail(n)).Some?
    ensures Inv(Step(c, Fail(n)).value)
  {
    hide Encode, Concat, Frames, Packages;
    CompletionKeepsInv(c, n);
  }

  lemma StopKeepsInv(c: Client)
    requires Inv(c) && Step(c, StopRequest).Some?
    ensures Inv(Step(c, StopRequest).value)
  {
    hide Encode, Concat, Frames, Packages;
  }

  lemma ClearKeepsInv(c: Client)
    requires Inv(c) && Step(c, Clear).Some?
    ensures Inv(Step(c, Clear).value)
  {
    hide Encode;
    LastFrame(c);
    PrefixGrows([], c.current, 0, 0);
  }

  /** In every interleaving of the threads with the completions. */
  lemma {:induction false} RunKeepsInv(es: seq<Event>)
    ensures var r := Runs.Exec(Step, INITIAL, es); r.Some? ==> Inv(r.value)
  {
    forall c, e | Inv(c) && Step(c, e).Some?
      ensures Inv(Step(c, e).value)
    {
      StepKeepsInv(c, e);
    }
    assert Frames([]) == [];
    Runs.InvariantOverRuns(Step, Inv, INITIAL, es);
  }

  // ----- main results -----------------------------------------------------------------------------

  /** FIFO, one write at a time, and the exact bytes on the wire, in every run. */
  lemma {:induction false} WriterTheorem(es: seq<Event>, c: Client)
    requires Runs.Exec(Step, INITIAL, es) == Some(c)
    ensures c.pushed == Dequeued(c) + c.queue
    ensures SentProperly(c.sent) && c.wire <= Concat(Frames(c.sent))
    ensures !c.failed && c.writeInProgress && c.stuck.None? ==>
              && c.sent != [] && c.current == c.sent[|c.sent| - 1].frame && c.transferred <= |c.current|
              && c.wire == Concat(Frames(c.sent[..|c.sent| - 1])) + c.current[..c.transferred]
              && (c.outstanding.Some? ==> c.outstanding.value == Write(c.transferred, |c.current| - c.transferred))
    ensures !c.failed && !(c.writeInProgress && c.stuck.None?) ==>
              c.wire == Concat(Frames(c.sent)) && c.outstanding.None?
  {
    RunKeepsInv(es);
  }

  /** An outstanding write is ended by its own completion and replaced by nothing else: until then no step
      starts another one or touches the buffer that it reads. */
  lemma {:induction false} NoWriteIsReplaced(es: seq<Event>, c: Client, e: Event)
    requires Runs.Exec(Step, INITIAL, es) == Some(c) && Step(c, e).Some?
    requires c.outstanding.Some? && !e.Complete? && !e.Fail?
    ensures var d := Step(c, e).value; d.outstanding == c.outstanding && d.current == c.current && d.sent == c.sent
  {
    RunKeepsInv(es);
    hide Encode, Concat, Frames;
    assert c.writeInProgress;
  }

  /** A queued package is never stranded: while no write has failed and no package got stuck, a write is
      outstanding, or the I/O thread is about to go on, or some thread still owes a call. */
  lemma {:induction false} NothingStranded(es: seq<Event>, c: Client)
    requires Runs.Exec(Step, INITIAL, es) == Some(c)
    requires !c.failed && c.stuck.None? && c.queue != []
    ensures c.outstanding.Some? || c.io.IoClearing? || SomeoneOwes(c)
  {
    RunKeepsInv(es);
  }

  /** At rest everything accepted is on the wire, whole and in order. */
  lemma {:induction false} AtRestAllIsSent(es: seq<Event>, c: Client)
    requires Runs.Exec(Step, INITIAL, es) == Some(c)
    requires !c.failed && c.stuck.None? && c.outstanding.None? && c.io.IoIdle? && c.threads == map[]
    ensures c.queue == [] && c.pushed == Packages(c.sent)
    ensures c.wire == Concat(Frames(c.sent))
  {
    RunKeepsInv(es);
  }

  /** The client gets stuck exactly when it has taken a package whose frame cannot be built. */
  lemma {:induction false} StuckExactlyWhen(es: seq<Event>, c: Client)
    requires Runs.Exec(Step, INITIAL, es) == Some(c)
    ensures c.stuck.Some? <==> exists i :: 0 <= i < |Dequeued(c)| && Unbuildable(Dequeued(c)[i])
  {
    hide Encode;
    RunKeepsInv(es);
    forall i | 0 <= i < |c.sent|
      ensures !Unbuildable(Dequeued(c)[i])
    {
      UnbuildableIgnoresId(c.sent[i].p, c.sent[i].id);
    }
    if c.stuck.Some? {
      assert Dequeued(c)[|c.sent|] == c.stuck.value;
    }
  }

  lemma StuckStep(c: Client, e: Event)
    requires Inv(c) && c.stuck.Some? && Step(c, e).Some?
    ensures var d := Step(c, e).value; d.stuck == c.stuck && d.sent == c.sent && d.wire == c.wire && !d.failed
  {
    hide Encode;
  }

  /** From then on nothing is sent any more, whatever is pushed: the in-progress flag is never cleared. */
  lemma {:induction false} StuckForever(es: seq<Event>, c: Client, more: seq<Event>, d: Client)
    requires Runs.Exec(Step, INITIAL, es) == Some(c) && c.stuck.Some?
    requires Runs.Exec(Step, c, more) == Some(d)
    ensures d.stuck == c.stuck && d.sent == c.sent && d.wire == c.wire
  {
    hide Encode;
    RunKeepsInv(es);
    var inv := (s: Client) => Inv(s) && s.stuck == c.stuck && s.sent == c.sent && s.wire == c.wire;
    forall s, e | inv(s) && Step(s, e).Some?
      ensures inv(Step(s, e).value)
    {
      StepKeepsInv(s, e);
      StuckStep(s, e);
    }
    Runs.InvariantOverRuns(Step, inv, c, more);
  }

  /** And it happens: one push of a package with an unknown command or with texts that are too long. */
  lemma StuckIsReached(p: LogPackage)
    requires || p.command.Other?
             || (p.command.Message? && |p.tag| + |p.message| > 65535 - 52)
             || (p.command.ChangeFile? && |p.tag| + |p.message| > 65535 - 47)
    ensures var r := Runs.Exec(Step, INITIAL, [Begin(0, p), Queue(0), Next(0)]);
            r.Some? && r.value.stuck == Some(p) && r.value.queue == [] && !r.value.ended
  {
    hide Encode;
    EncodeFailsExactlyWhen(p, 0);
    var es := [Begin(0, p), Queue(0), Next(0)];
    assert es[..2] == [Begin(0, p), Queue(0)] && es[..2][..1] == [Begin(0, p)] && es[..2][..1][..0] == [];
    var a := Step(INITIAL, Begin(0, p)).value;
    var b := Step(a, Queue(0)).value;
    assert Runs.Exec(Step, INITIAL, es[..2][..1]) == Some(a);
    assert Runs.Exec(Step, INITIAL, es[..2]) == Some(b);
    assert b.queue == [p] && b.threads == map[0 := Owing];
  }

  // ----- counted from the run -------------------------------------------------------------------------

  predicate StopAsked(es: seq<Event>)
  {
    es != [] && (es[|es| - 1].StopRequest? || StopAsked(es[..|es| - 1]))
  }

  predicate WriteFailed(es: seq<Event>)
  {
    es != [] && (es[|es| - 1].Fail? || WriteFailed(es[..|es| - 1]))
  }

  /** The bytes that the completions, failed ones included, have moved. */
  function Moved(es: seq<Event>): nat
  {
    if es == [] then 0
    else
      var e := es[|es| - 1];
      Moved(es[..|es| - 1]) + if e.Complete? || e.Fail? then e.n else 0
  }

  /** The package that a thread has last come with. */
  function BroughtBy(es: seq<Event>, t: nat): Option<LogPackage>
  {
    if es == [] then None
    else
      var e := es[|es| - 1];
      if e.Begin? && e.thread == t then Some(e.p) else BroughtBy(es[..|es| - 1], t)
  }

  /** The packages in the order in which their threads have queued them. */
  function QueuedIn(es: seq<Event>): seq<LogPackage>
  {
    if es == [] then []
    else
      var before, e := es[..|es| - 1], es[|es| - 1];
      QueuedIn(before) + if e.Queue? && BroughtBy(before, e.thread).Some? then [BroughtBy(before, e.thread).value] else []
  }

  /** The request ids are 0, 1, 2 and so on, one for each package taken from the queue. */
  ghost predicate IdsInOrder(c: Client)
  {
    && c.nextId == |Dequeued(c)|
    && forall i :: 0 <= i < |c.sent| ==> c.sent[i].id == i
  }

  ghost predicate Tells(es: seq<Event>, c: Client)
  {
    && (c.stopping <==> StopAsked(es)) && (c.failed <==> WriteFailed(es)) && (c.toServer <==> !WriteFailed(es))
    && |c.wire| == Moved(es) && c.pushed == QueuedIn(es)
  }

  ghost predicate ComeWith(es: seq<Event>, c: Client)
  {
    forall t :: t in c.threads && c.threads[t].Checked? ==> BroughtBy(es, t) == Some(c.threads[t].p)
  }

  lemma {:induction false} TakenInOrder(c: Client, d: Client)
    requires IdsInOrder(c) && c.stuck.None? && d.nextId == c.nextId + 1
    requires || (d.sent == c.sent && d.stuck.Some?)
             || (|d.sent| == |c.sent| + 1 && d.sent[..|c.sent|] == c.sent && d.sent[|c.sent|].id == c.nextId
                 && d.stuck.None?)
    ensures IdsInOrder(d)
  {
    assert |d.sent| > |c.sent| ==> forall i :: 0 <= i < |c.sent| ==> d.sent[i] == d.sent[..|c.sent|][i];
  }

  lemma {:induction false} TryNextTells(c: Client)
    requires IdsInOrder(c) && (c.stuck.Some? ==> c.writeInProgress)
    ensures IdsInOrder(TryNext(c))
    ensures var d := TryNext(c);
            && d.stopping == c.stopping && d.failed == c.failed && d.toServer == c.toServer
            && d.wire == c.wire && d.pushed == c.pushed && d.threads == c.threads
  {
    hide Encode, Take, IdsInOrder;
    if !c.writeInProgress && c.queue != [] {
      var q := c.(queue := c.queue[1..]);
      TakeCases(q, c.queue[0]);
      SameIds(c, q);
      TakenInOrder(q, Take(q, c.queue[0]));
    }
  }

  lemma SameIds(c: Client, d: Client)
    requires IdsInOrder(c) && d.nextId == c.nextId && d.sent == c.sent && d.stuck == c.stuck
    ensures IdsInOrder(d)
  {
  }

  lemma {:induction false} HistoryGrows(es: seq<Event>, e: Event)
    ensures StopAsked(es + [e]) <==> e.StopRequest? || StopAsked(es)
    ensures WriteFailed(es + [e]) <==> e.Fail? || WriteFailed(es)
    ensures Moved(es + [e]) == Moved(es) + if e.Complete? || e.Fail? then e.n else 0
    ensures forall t :: BroughtBy(es + [e], t) == if e.Begin? && e.thread == t then Some(e.p) else BroughtBy(es, t)
    ensures QueuedIn(es + [e]) ==
            QueuedIn(es) + if e.Queue? && BroughtBy(es, e.thread).Some? then [BroughtBy(es, e.thread).value] else []
  {
    assert (es + [e])[..|es|] == es;
  }

  lemma {:induction false} OneEventTells(es: seq<Event>, c: Client, e: Event, d: Client)
    requires Tells(es, c) && ComeWith(es, c) && (c.stuck.Some? ==> c.writeInProgress) && IdsInOrder(c)
    requires Step(c, e) == Some(d)
    ensures Tells(es + [e], d) && IdsInOrder(d)
  {
    hide Encode, TryNext, StopAsked, WriteFailed, Moved, BroughtBy, QueuedIn, IdsInOrder;
    HistoryGrows(es, e);
    match e {
      case Next(t) =>
        var q := c.(threads := c.threads - {t});
        SameIds(c, q);
        TryNextTells(q);
      case IoNext =>
        var q := c.(io := IoIdle);
        SameIds(c, q);
        TryNextTells(q);
        SameIds(TryNext(q), d);
      case _ => SameIds(c, d);
    }
  }

  lemma {:induction false} OneEventBrings(es: seq<Event>, c: Client, e: Event, d: Client)
    requires ComeWith(es, c) && Step(c, e) == Some(d)
    ensures ComeWith(es + [e], d)
  {
    hide Encode, TryNext, StopAsked, WriteFailed, Moved, BroughtBy, QueuedIn;
    HistoryGrows(es, e);
    ThreadsStay(c.(io := IoIdle));
    if e.Next? {
      ThreadsStay(c.(threads := c.threads - {e.thread}));
    }
  }

  lemma ThreadsStay(c: Client)
    ensures TryNext(c).threads == c.threads
  {
    hide Encode, Take;
    if c.queue != [] {
      TakeCases(c.(queue := c.queue[1..]), c.queue[0]);
    }
  }

  lemma {:induction false} RunComesWith(es: seq<Event>, c: Client)
    requires Runs.Exec(Step, INITIAL, es) == Some(c)
    ensures ComeWith(es, c)
  {
    if es == [] {
      NoneComes();
    } else {
      hide *;
      var n := |es| - 1;
      Runs.LastStep(Step, INITIAL, es);
      var before := Runs.Exec(Step, INITIAL, es[..n]).value;
      RunComesWith(es[..n], before);
      OneEventBrings(es[..n], before, es[n], c);
    }
  }

  lemma NoneComes()
    ensures ComeWith([], INITIAL)
  {
  }

  /** Over every run: the client takes packages until a stop is asked for or a write fails; the packages accepted are
      those that threads have queued, in that order; what is on the wire is as long as the completions say; and the
      request ids count the packages taken. */
  lemma {:induction false} RunTells(es: seq<Event>, c: Client)
    requires Runs.Exec(Step, INITIAL, es) == Some(c)
    ensures Tells(es, c) && IdsInOrder(c)
  {
    if es == [] {
      InitialTells();
    } else {
      hide *;
      var n := |es| - 1;
      Runs.LastStep(Step, INITIAL, es);
      var before := Runs.Exec(Step, INITIAL, es[..n]).value;
      RunTells(es[..n], before);
      RunComesWith(es[..n], before);
      StuckKeepsFlag(es[..n], before);
      OneEventTells(es[..n], before, es[n], c);
    }
  }

  lemma {:induction false} InitialTells()
    ensures Tells([], INITIAL) && IdsInOrder(INITIAL)
  {
  }

  lemma {:induction false} StuckKeepsFlag(es: seq<Event>, c: Client)
    requires Runs.Exec(Step, INITIAL, es) == Some(c)
    ensures c.stuck.Some? ==> c.writeInProgress
  {
    hide Step;
    RunKeepsInv(es);
  }

  /** A thread gets past the checks exactly when no stop has been asked for and no write has failed. */
  lemma {:induction false} AcceptedIff(es: seq<Event>, c: Client, t: nat, p: LogPackage, d: Client)
    requires Runs.Exec(Step, INITIAL, es) == Some(c) && Step(c, Begin(t, p)) == Some(d)
    ensures t in d.threads <==> !StopAsked(es) && !WriteFailed(es)
  {
    hide StopAsked, WriteFailed;
    RunTells(es, c);
  }

  /** The process ends exactly when the I/O thread takes a package whose frame cannot be built. */
  lemma {:induction false} EndsExactlyWhen(es: seq<Event>, c: Client, e: Event, d: Client)
    requires Runs.Exec(Step, INITIAL, es) == Some(c) && Step(c, e) == Some(d)
    ensures d.ended <==> e.IoNext? && c.queue != [] && !c.writeInProgress && Unbuildable(c.queue[0])
  {
    RunKeepsInv(es);
    hide Encode;
    if e.IoNext? && c.queue != [] {
      UnbuildableIgnoresId(c.queue[0], c.nextId);
    }
  }
}
