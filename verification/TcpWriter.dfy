/** The write side of a TCP child (proxy/tcpserver_child.cpp, SendMessage and WriteHandler): one write at a
    time, further messages queued. The handler reads the newest waiting message but removes the oldest. */
module TcpWriter {
  import opened Bytes
  import opened Seqs
  import opened Wrappers
  import Runs

  type Message = seq<Byte>

  /** `started` lists the messages put into the output buffer; `crowded` records that two messages were
      waiting at some time, `inTurn` that every message taken was also the oldest waiting one. */
  datatype Writer = Writer(queue: seq<Message>, outBuffer: Message, idleWrite: bool, outstanding: bool, destroyed: bool,
                           submitted: seq<Message>, started: seq<Message>, wire: seq<Byte>, crowded: bool, inTurn: bool)

  const INITIAL := Writer([], [], true, false, false, [], [], [], false, true)

  function Start(w: Writer, m: Message): Writer
  {
    w.(outBuffer := m, outstanding := true, idleWrite := false, started := w.started + [m])
  }

  function Send(w: Writer, m: Message): Writer
  {
    var s := w.(submitted := w.submitted + [m]);
    if !w.idleWrite then s.(queue := w.queue + [m], crowded := w.crowded || w.queue != []) else Start(s, m)
  }

  /** A successful write of `n` bytes. */
  function Written(w: Writer, n: nat): Writer
    requires n <= |w.outBuffer|
  {
    var s := w.(wire := w.wire + w.outBuffer[..n]);
    if n < |w.outBuffer| then s.(outBuffer := w.outBuffer[n..])
    else if w.queue != [] then
      var back := w.queue[|w.queue| - 1];
      Start(s.(queue := w.queue[1..], inTurn := w.inTurn && back == w.queue[0]), back)
    else s.(idleWrite := true, outstanding := false)
  }

  datatype Event = SendMessage(m: Message) | WriteDone(n: nat) | WriteFailed

  function Step(w: Writer, e: Event): Option<Writer>
  {
    if w.destroyed then None else
    match e
    case SendMessage(m) => Some(Send(w, m))
    case WriteDone(n) => if w.outstanding && n <= |w.outBuffer| then Some(Written(w, n)) else None
    case WriteFailed => if w.outstanding then Some(w.(outstanding := false, destroyed := true)) else None
  }

  // ----- invariant ----------------------------------------------------------------------------

  /** The wire holds the finished messages and what of the current one is no longer in the buffer. */
  ghost predicate WireIsWhole(w: Writer)
  {
    if w.idleWrite then w.wire == Concat(w.started)
    else
      && w.started != []
      && w.wire + w.outBuffer == Concat(w.started)
      && |w.outBuffer| <= |w.started[|w.started| - 1]|
  }

  ghost predicate Inv(w: Writer)
  {
    && (!w.destroyed ==> (w.outstanding <==> !w.idleWrite))
    && (w.idleWrite ==> w.queue == [])
    && |w.started| + |w.queue| == |w.submitted|
    && w.queue == w.submitted[|w.started|..]
    && (forall i :: 0 <= i < |w.started| ==> w.started[i] in w.submitted)
    && WireIsWhole(w)
    && (w.inTurn <==> w.started == w.submitted[..|w.started|])
    && (!w.crowded ==> w.inTurn && |w.queue| <= 1)
  }

  lemma StartKeepsInv(w: Writer, m: Message)
    requires |w.started| < |w.submitted| == |w.started| + 1 + |w.queue| && m in w.submitted
    requires w.queue == w.submitted[|w.started| + 1..]
    requires forall i :: 0 <= i < |w.started| ==> w.started[i] in w.submitted
    requires w.wire == Concat(w.started) && !w.destroyed
    requires w.inTurn <==> w.started == w.submitted[..|w.started|] && m == w.submitted[|w.started|]
    requires !w.crowded ==> w.inTurn && |w.queue| <= 1
    ensures Inv(Start(w, m))
  {
    ConcatOne(w.started, m);
    var n := |w.started|;
    assert w.submitted[..n + 1] == w.submitted[..n] + [w.submitted[n]];
    assert w.started + [m] == w.submitted[..n + 1] <==> w.started == w.submitted[..n] && m == w.submitted[n] by {
      assert (w.started + [m])[..n] == w.started && (w.started + [m])[n] == m;
      assert (w.submitted[..n] + [w.submitted[n]])[..n] == w.submitted[..n];
    }
  }

  lemma QueuedKeepsInv(w: Writer, m: Message)
    requires Inv(w) && !w.destroyed && !w.idleWrite
    ensures Inv(Send(w, m))
  {
    hide Concat;
    var n, all := |w.started|, w.submitted + [m];
    assert all[..n] == w.submitted[..n] && all[n..] == w.submitted[n..] + [m];
  }

  lemma SendKeepsInv(w: Writer, m: Message)
    requires Inv(w) && !w.destroyed
    ensures Inv(Send(w, m))
  {
    hide Concat;
    if w.idleWrite {
      var all := w.submitted + [m];
      assert all[..|w.started|] == w.submitted[..|w.started|] && all[|w.started|] == m;
      StartKeepsInv(w.(submitted := all), m);
    } else {
      QueuedKeepsInv(w, m);
    }
  }

  lemma NextKeepsInv(w: Writer)
    requires Inv(w) && !w.destroyed && w.queue != [] && w.outBuffer == []
    ensures Inv(Written(w, 0))
  {
    hide Concat;
    var k, back := |w.started|, w.queue[|w.queue| - 1];
    assert back == w.submitted[|w.submitted| - 1] && w.queue[0] == w.submitted[k];
    StartKeepsInv(w.(wire := w.wire + [], queue := w.queue[1..], inTurn := w.inTurn && back == w.queue[0]), back);
  }

  lemma WrittenKeepsInv(w: Writer, n: nat)
    requires Inv(w) && !w.destroyed && w.outstanding && n <= |w.outBuffer|
    ensures Inv(Written(w, n))
  {
    hide Inv, Concat;
    OutstandingIsBusy(w);
    var s := w.(wire := w.wire + w.outBuffer[..n], outBuffer := w.outBuffer[n..]);
    BytesMove(w, n);
    assert s.wire + [] == s.wire;
    if n == |w.outBuffer| {
      if w.queue != [] {
        NextKeepsInv(s);
      } else {
        IdleKeepsInv(s, w.outBuffer);
      }
    }
  }

  lemma OutstandingIsBusy(w: Writer)
    requires Inv(w) && !w.destroyed && w.outstanding
    ensures !w.idleWrite
  {
  }

  lemma BytesMove(w: Writer, n: nat)
    requires Inv(w) && !w.idleWrite && n <= |w.outBuffer|
    ensures Inv(w.(wire := w.wire + w.outBuffer[..n], outBuffer := w.outBuffer[n..]))
  {
    hide Concat;
    Assoc(w.wire, w.outBuffer[..n], w.outBuffer[n..]);
    assert w.outBuffer == w.outBuffer[..n] + w.outBuffer[n..];
  }

  lemma IdleKeepsInv(w: Writer, done: Message)
    requires Inv(w) && w.queue == [] && w.outBuffer == [] && !w.idleWrite
    ensures Inv(w.(idleWrite := true, outstanding := false, outBuffer := done))
  {
    hide Concat;
    assert w.wire + [] == w.wire;
  }

  lemma StepKeepsInv(w: Writer, e: Event)
    requires Inv(w) && Step(w, e).Some?
    ensures Inv(Step(w, e).value)
  {
    match e {
      case SendMessage(m) => SendKeepsInv(w, m);
      case WriteDone(n) => WrittenKeepsInv(w, n);
      case WriteFailed =>
    }
  }

  lemma {:induction false} RunKeepsInv(es: seq<Event>)
    ensures var r := Runs.Exec(Step, INITIAL, es); r.Some? ==> Inv(r.value)
  {
    forall w, e | Inv(w) && Step(w, e).Some?
      ensures Inv(Step(w, e).value)
    {
      StepKeepsInv(w, e);
    }
    Runs.InvariantOverRuns(Step, Inv, INITIAL, es);
  }

  // ----- main results ------------------------------------------------------------------------------

  /** Over every run: one write is outstanding exactly when the child is not idle, idle means an empty
      queue, the wire holds whole submitted messages and then a prefix of the current one, and none is
      miscounted: taken and waiting messages are as many as were submitted. */
  lemma {:induction false} WriterTheorem(es: seq<Event>, w: Writer)
    requires Runs.Exec(Step, INITIAL, es) == Some(w)
    ensures !w.destroyed ==> (w.outstanding <==> !w.idleWrite)
    ensures w.idleWrite ==> w.queue == [] && w.wire == Concat(w.started)
    ensures !w.idleWrite ==> w.started != [] && |w.outBuffer| <= |w.started[|w.started| - 1]|
    ensures !w.idleWrite ==> w.wire + w.outBuffer == Concat(w.started)
    ensures forall i :: 0 <= i < |w.started| ==> w.started[i] in w.submitted
    ensures |w.started| + |w.queue| == |w.submitted|
  {
    RunKeepsInv(es);
  }

  /** The messages go out in the order of submission exactly when, at every completion that found messages
      waiting, the newest of them was the same as the oldest. */
  lemma {:induction false} FifoIffNewestIsOldest(es: seq<Event>, w: Writer)
    requires Runs.Exec(Step, INITIAL, es) == Some(w)
    ensures w.started <= w.submitted <==> w.inTurn
  {
    RunKeepsInv(es);
    assert w.started <= w.submitted <==> w.started == w.submitted[..|w.started|];
  }

  /** In particular when never more than one message waits. */
  lemma {:induction false} AtMostOneWaitingIsFifo(es: seq<Event>, w: Writer)
    requires Runs.Exec(Step, INITIAL, es) == Some(w) && !TwoWaited(es)
    ensures w.started <= SentIn(es)
    ensures w.idleWrite ==> w.wire == Concat(SentIn(es))
  {
    RunKeepsInv(es);
    RunTells(es, w);
    assert w.started == w.submitted[..|w.started|];
    assert w.idleWrite ==> w.started == w.submitted;
  }

  ghost predicate Distinct(ms: seq<Message>)
  {
    forall i, j :: 0 <= i < j < |ms| ==> ms[i] != ms[j]
  }

  /** Once two different messages wait, the order holds only until the next one is taken. */
  ghost predicate OrderIsShortLived(w: Writer)
  {
    Distinct(w.submitted) && w.crowded && w.inTurn ==> |w.queue| >= 2
  }

  lemma NextOvertakes(w: Writer)
    requires Inv(w) && Distinct(w.submitted) && |w.queue| >= 2
    ensures w.queue[|w.queue| - 1] != w.queue[0]
  {
    hide Concat;
    var k := |w.started|;
    assert w.queue[0] == w.submitted[k] && w.queue[|w.queue| - 1] == w.submitted[|w.submitted| - 1];
  }

  lemma StepKeepsShortLived(w: Writer, e: Event)
    requires Inv(w) && OrderIsShortLived(w) && Step(w, e).Some?
    ensures OrderIsShortLived(Step(w, e).value)
  {
    hide Concat;
    var t := Step(w, e).value;
    if Distinct(t.submitted) {
      assert forall i :: 0 <= i < |w.submitted| ==> w.submitted[i] == t.submitted[i];
      if w.crowded && w.inTurn {
        NextOvertakes(w);
      }
    }
  }

  /** For messages that are all different: an idle child has sent them in the order of submission exactly
      when two never waited at once. */
  lemma {:induction false} DistinctFifoIffNeverCrowded(es: seq<Event>, w: Writer)
    requires Runs.Exec(Step, INITIAL, es) == Some(w)
    requires Distinct(SentIn(es)) && w.idleWrite
    ensures w.wire == Concat(w.started)
    ensures w.started == SentIn(es) <==> !TwoWaited(es)
  {
    RunTells(es, w);
    var inv := (v: Writer) => Inv(v) && OrderIsShortLived(v);
    forall v, e | inv(v) && Step(v, e).Some?
      ensures inv(Step(v, e).value)
    {
      StepKeepsInv(v, e);
      StepKeepsShortLived(v, e);
    }
    Runs.InvariantOverRuns(Step, inv, INITIAL, es);
    assert w.submitted[..|w.started|] == w.submitted;
  }

  /** Two messages waiting: the second is sent twice and the first never. */
  lemma CrowdedRunLosesAMessage(a: Message, b: Message, c: Message)
    ensures var es := [SendMessage(a), SendMessage(b), SendMessage(c), WriteDone(|a|), WriteDone(|c|), WriteDone(|c|)];
            && Runs.Exec(Step, INITIAL, es).Some?
            && Runs.Exec(Step, INITIAL, es).value.idleWrite
            && Runs.Exec(Step, INITIAL, es).value.wire == a + c + c
  {
    var es := [SendMessage(a), SendMessage(b), SendMessage(c), WriteDone(|a|), WriteDone(|c|), WriteDone(|c|)];
    var w0 := Step(INITIAL, es[0]).value;
    var w1 := Step(w0, es[1]).value;
    var w2 := Step(w1, es[2]).value;
    var w3 := Step(w2, es[3]).value;
    var w4 := Step(w3, es[4]).value;
    var w5 := Step(w4, es[5]).value;
    assert w2.queue == [b, c] && w3.outBuffer == c && w3.queue == [c];
    assert w3.wire == a && w4.wire == a + c && w5.wire == a + c + c;
    Six(es, w0, w1, w2, w3, w4, w5);
  }

  lemma {:induction false} Six(es: seq<Event>, w0: Writer, w1: Writer, w2: Writer, w3: Writer, w4: Writer, w5: Writer)
    requires |es| == 6 && Step(INITIAL, es[0]) == Some(w0) && Step(w0, es[1]) == Some(w1)
    requires Step(w1, es[2]) == Some(w2) && Step(w2, es[3]) == Some(w3)
    requires Step(w3, es[4]) == Some(w4) && Step(w4, es[5]) == Some(w5)
    ensures Runs.Exec(Step, INITIAL, es) == Some(w5)
  {
    hide Step;
    assert es[..6] == es && es[..6][..5] == es[..5] && es[..5][..4] == es[..4] && es[..4][..3] == es[..3];
    assert es[..3][..2] == es[..2] && es[..2][..1] == es[..1] && es[..1][..0] == [];
    assert Runs.Exec(Step, INITIAL, es[..1]) == Some(w0);
    assert Runs.Exec(Step, INITIAL, es[..2]) == Some(w1);
    assert Runs.Exec(Step, INITIAL, es[..3]) == Some(w2);
    assert Runs.Exec(Step, INITIAL, es[..4]) == Some(w3);
    assert Runs.Exec(Step, INITIAL, es[..5]) == Some(w4);
  }

  /** The messages of the run's sends. */
  function SentIn(es: seq<Event>): seq<Message>
  {
    if es == [] then []
    else
      var e := es[|es| - 1];
      SentIn(es[..|es| - 1]) + if e.SendMessage? then [e.m] else []
  }

  /** At some time in the run more than one message waited. */
  predicate TwoWaited(es: seq<Event>)
  {
    es != [] && (TwoWaited(es[..|es| - 1]) || var r := Runs.Exec(Step, INITIAL, es); r.Some? && |r.value.queue| > 1)
  }

  lemma {:induction false} OneEventTells(w: Writer, e: Event, v: Writer)
    requires Step(w, e) == Some(v) && (|w.queue| > 1 ==> w.crowded)
    ensures v.submitted == w.submitted + if e.SendMessage? then [e.m] else []
    ensures (v.crowded <==> w.crowded || |v.queue| > 1) && (|v.queue| > 1 ==> v.crowded)
  {
  }

  /** Over every run: the submitted messages are those sent, and the child was crowded when more than one waited. */
  lemma {:induction false} RunTells(es: seq<Event>, w: Writer)
    requires Runs.Exec(Step, INITIAL, es) == Some(w)
    ensures w.submitted == SentIn(es) && (w.crowded <==> TwoWaited(es))
    ensures |w.queue| > 1 ==> w.crowded
  {
    if es != [] {
      hide Step, Runs.Exec;
      var n := |es| - 1;
      Runs.LastStep(Step, INITIAL, es);
      var before := Runs.Exec(Step, INITIAL, es[..n]).value;
      RunTells(es[..n], before);
      OneEventTells(before, es[n], w);
    }
  }

  /** Over every run, what one step puts into the output buffer: the message itself when the child is idle; the one
      submitted last when a write is complete and any wait; and nothing otherwise. The oldest leaves the queue. */
  lemma {:induction false} NewestIsTaken(es: seq<Event>, w: Writer, e: Event, v: Writer)
    requires Runs.Exec(Step, INITIAL, es) == Some(w) && Step(w, e) == Some(v)
    ensures w.queue != [] ==> |w.started| < |w.submitted|
    ensures var last := |w.submitted| - 1;
            if e.SendMessage? && w.idleWrite then v.started == w.started + [e.m] && v.outBuffer == e.m && v.queue == []
            else if e.WriteDone? && e.n == |w.outBuffer| && w.queue != [] then
              v.started == w.started + [w.submitted[last]] && v.outBuffer == w.submitted[last]
              && v.queue == w.submitted[|w.started| + 1..]
            else v.started == w.started
  {
    RunKeepsInv(es);
    hide Concat, Runs.Exec;
  }

  // ----- the object ----------------------------------------------------------------------------------

  class TcpServerChild {
    var msgQueue: seq<Message>
    var outBuffer: Message
    var idleWrite: bool
    var writeOutstanding: bool
    var destroyed: bool
    ghost var submitted: seq<Message>
    ghost var started: seq<Message>
    ghost var wire: seq<Byte>
    ghost var crowded: bool
    ghost var inTurn: bool

    ghost function State(): Writer
      reads this
    {
      Writer(msgQueue, outBuffer, idleWrite, writeOutstanding, destroyed, submitted, started, wire, crowded, inTurn)
    }

    constructor ()
      ensures State() == INITIAL
    {
      msgQueue, outBuffer, idleWrite, writeOutstanding, destroyed := [], [], true, false, false;
      submitted, started, wire, crowded, inTurn := [], [], [], false, true;
    }

    method SendMessage(msg: Message)
      modifies this
      ensures State() == Send(old(State()), msg)
    {
      submitted := submitted + [msg];
      if !idleWrite {
        crowded := crowded || msgQueue != [];
        msgQueue := msgQueue + [msg];
      } else {
        outBuffer := msg;
        started := started + [msg];
        writeOutstanding := true;
        idleWrite := false;
      }
    }

    method WriteHandler(error: bool, bytesTransferred: nat)
      requires !destroyed && writeOutstanding && bytesTransferred <= |outBuffer|
      modifies this
      ensures Some(State()) == Step(old(State()), if error then WriteFailed else WriteDone(bytesTransferred))
    {
      if !error {
        wire := wire + outBuffer[..bytesTransferred];
        if bytesTransferred < |outBuffer| {
          outBuffer := outBuffer[bytesTransferred..];
        } else if msgQueue != [] {
          var msg := msgQueue[|msgQueue| - 1];
          inTurn := inTurn && msg == msgQueue[0];
          msgQueue := msgQueue[1..];
          outBuffer := msg;
          started := started + [msg];
          idleWrite := false;
        } else {
          idleWrite := true;
          writeOutstanding := false;
        }
      } else {
        writeOutstanding := false;
        destroyed := true;
      }
    }
  }
}
