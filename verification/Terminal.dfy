/** The write side of the UART client (proxy/terminal.cpp): a byte queue drained one byte per asynchronous
    write, across failures and reopenings of the port. Setup is one step. A write that was outstanding when
    the port went down completes, if at all, before the port is open again or with "operation aborted", and
    both are ignored by the handler. An empty message for an idle open port, which makes the source read the
    front of an empty queue, is no step. */
module Terminal {
  import opened Bytes
  import opened Seqs
  import opened Wrappers
  import Runs

  const CR: Byte := 0x0D
  const LF: Byte := 0x0A

  // ----- replacing line ends ------------------------------------------------------------------

  /** replace_all of CR LF by LF: the output is not scanned again. */
  function ReplaceCrLf(m: seq<Byte>): seq<Byte>
  {
    if |m| < 2 then m
    else if m[0] == CR && m[1] == LF then [LF] + ReplaceCrLf(m[2..])
    else [m[0]] + ReplaceCrLf(m[1..])
  }

  /** The bytes from place `i` on, without every CR that stands before an LF. */
  function WithoutCrBeforeLf(m: seq<Byte>, i: nat): seq<Byte>
    requires i <= |m|
    decreases |m| - i
  {
    if i == |m| then []
    else (if m[i] == 0x0D && i + 1 < |m| && m[i + 1] == 0x0A then [] else [m[i]]) + WithoutCrBeforeLf(m, i + 1)
  }

  lemma ReplaceStep(m: seq<Byte>, i: nat)
    requires i < |m|
    ensures ReplaceCrLf(m[i..]) ==
            if i + 1 < |m| && m[i] == CR && m[i + 1] == LF then [LF] + ReplaceCrLf(m[i + 2..])
            else [m[i]] + ReplaceCrLf(m[i + 1..])
  {
    assert m[i..][1..] == m[i + 1..];
    if i + 1 < |m| {
      assert m[i..][2..] == m[i + 2..];
    }
  }

  /** The replacement removes exactly the CRs that stand before an LF. */
  lemma {:induction false} ReplacementRemovesCr(m: seq<Byte>, i: nat)
    requires i <= |m|
    ensures ReplaceCrLf(m[i..]) == WithoutCrBeforeLf(m, i)
    decreases |m| - i
  {
    if i < |m| {
      hide ReplaceCrLf;
      ReplaceStep(m, i);
      ReplacementRemovesCr(m, i + 1);
      if i + 1 < |m| && m[i] == CR && m[i + 1] == LF {
        ReplacementRemovesCr(m, i + 2);
      }
    }
  }

  // ----- the writer ---------------------------------------------------------------------------

  /** `broken` marks a port closed after a failed write; `messages` and `acked` are history: the messages
      accepted and the bytes whose writes completed. */
  datatype Port = Port(writeBuffer: seq<Byte>, writeInProgress: bool, isOpen: bool, outstanding: Option<Byte>,
                       broken: bool, messages: seq<seq<Byte>>, acked: seq<Byte>)

  const INITIAL := Port([], false, false, None, false, [], [])

  /** WriteStart reads the front of the queue, which its callers have filled. */
  function StartWrite(p: Port): Port
    requires p.isOpen ==> p.writeBuffer != []
  {
    if p.isOpen then p.(outstanding := Some(p.writeBuffer[0])) else p
  }

  datatype Event = Write(msg: seq<Byte>) | Completed | Failed | Down | Reopened

  /** There is a byte to start with, or no write to start. */
  predicate Defined(p: Port, msg: seq<Byte>)
  {
    p.writeInProgress || !p.isOpen || p.writeBuffer + ReplaceCrLf(msg) != []
  }

  function DoWrite(p: Port, msg: seq<Byte>): Port
    requires Defined(p, msg)
  {
    var q := p.(writeBuffer := p.writeBuffer + ReplaceCrLf(msg), messages := p.messages + [msg]);
    if p.writeInProgress then q else StartWrite(q.(writeInProgress := true))
  }

  /** The handler of a successful write. */
  function WriteComplete(p: Port): Port
    requires p.writeBuffer != []
  {
    var q := p.(outstanding := None, writeBuffer := p.writeBuffer[1..], acked := p.acked + [p.writeBuffer[0]]);
    if q.writeBuffer != [] then StartWrite(q.(writeInProgress := true)) else q.(writeInProgress := false)
  }

  function Setup(p: Port): Port
  {
    var q := p.(isOpen := true, broken := false);
    if q.writeBuffer != [] then StartWrite(q.(writeInProgress := true)) else q
  }

  function Step(p: Port, e: Event): Option<Port>
  {
    match e
    case Write(msg) => if Defined(p, msg) then Some(DoWrite(p, msg)) else None
    case Completed =>
      if !p.isOpen then Some(p)
      else if p.outstanding.Some? && p.writeBuffer != [] then Some(WriteComplete(p)) else None
    case Failed =>
      if !p.isOpen then Some(p)
      else if p.outstanding.Some? then Some(p.(outstanding := None, broken := true)) else None
    case Down => Some(p.(isOpen := false, writeInProgress := false, outstanding := None, broken := false))
    case Reopened => if p.isOpen then None else Some(Setup(p))
  }

  /** What the accepted messages come to. */
  function Accepted(messages: seq<seq<Byte>>): seq<Byte>
  {
    if messages == [] then []
    else Accepted(messages[..|messages| - 1]) + ReplaceCrLf(messages[|messages| - 1])
  }

  /** The flag says that a write is in progress, but none is, and the port has not failed either. */
  predicate Hung(p: Port)
  {
    p.isOpen && p.writeInProgress && p.outstanding.None? && !p.broken
  }

  ghost predicate Inv(p: Port)
  {
    && Accepted(p.messages) == p.acked + p.writeBuffer
    && (p.outstanding.Some? ==> p.isOpen && p.writeInProgress && p.writeBuffer != [] && p.outstanding.value == p.writeBuffer[0])
    && (p.isOpen && p.writeBuffer != [] ==> p.writeInProgress)
    && (p.broken ==> p.isOpen && p.writeInProgress && p.outstanding.None?)
  }

  lemma {:induction false} ReplacementNotEmpty(m: seq<Byte>)
    ensures ReplaceCrLf(m) == [] <==> m == []
  {
  }

  lemma {:induction false} AcceptedOneMore(messages: seq<seq<Byte>>, msg: seq<Byte>)
    ensures Accepted(messages + [msg]) == Accepted(messages) + ReplaceCrLf(msg)
  {
    hide ReplaceCrLf;
    assert (messages + [msg])[..|messages|] == messages;
  }

  lemma WriteKeepsInv(p: Port, msg: seq<Byte>)
    requires Inv(p) && Defined(p, msg)
    ensures Inv(DoWrite(p, msg))
  {
    hide ReplaceCrLf, Accepted;
    AcceptedOneMore(p.messages, msg);
    Assoc(p.acked, p.writeBuffer, ReplaceCrLf(msg));
    if p.writeBuffer != [] {
      assert (p.writeBuffer + ReplaceCrLf(msg))[0] == p.writeBuffer[0];
    }
  }

  lemma CompletionKeepsInv(p: Port)
    requires Inv(p) && p.isOpen && p.outstanding.Some? && p.writeBuffer != []
    ensures Inv(WriteComplete(p))
  {
    hide ReplaceCrLf, Accepted;
    Assoc(p.acked, [p.writeBuffer[0]], p.writeBuffer[1..]);
    assert p.writeBuffer == [p.writeBuffer[0]] + p.writeBuffer[1..];
  }

  lemma StepKeepsInv(p: Port, e: Event)
    requires Inv(p) && Step(p, e).Some?
    ensures Inv(Step(p, e).value)
  {
    hide ReplaceCrLf, Accepted, DoWrite, WriteComplete;
    match e {
      case Write(msg) => WriteKeepsInv(p, msg);
      case Completed => if p.isOpen { CompletionKeepsInv(p); }
      case _ =>
    }
  }

  lemma {:induction false} RunKeepsInv(es: seq<Event>)
    ensures var r := Runs.Exec(Step, INITIAL, es); r.Some? ==> Inv(r.value)
  {
    forall p, e | Inv(p) && Step(p, e).Some?
      ensures Inv(Step(p, e).value)
    {
      StepKeepsInv(p, e);
    }
    Runs.InvariantOverRuns(Step, Inv, INITIAL, es);
  }

  // ----- main results -------------------------------------------------------------------------------

  /** Over every run: acknowledged plus queued bytes are the accepted messages after replacement; the byte
      being written is the first unacknowledged one; and on a working open port queued bytes are being
      written unless the port hangs. */
  lemma {:induction false} WriterTheorem(es: seq<Event>, p: Port)
    requires Runs.Exec(Step, INITIAL, es) == Some(p)
    ensures Accepted(p.messages) == p.acked + p.writeBuffer
    ensures p.outstanding.Some? ==>
              |p.acked| < |Accepted(p.messages)| && p.outstanding.value == Accepted(p.messages)[|p.acked|]
    ensures p.isOpen && !p.broken && p.writeBuffer != [] ==> (p.outstanding.Some? <==> !Hung(p))
  {
    RunKeepsInv(es);
  }

  /** The port starts to hang exactly when it is opened with nothing queued and the flag set. */
  lemma {:induction false} HangsExactlyWhen(es: seq<Event>, p: Port, e: Event)
    requires Runs.Exec(Step, INITIAL, es) == Some(p) && Step(p, e).Some? && !Hung(p)
    ensures Hung(Step(p, e).value) <==> e.Reopened? && p.writeInProgress && p.writeBuffer == []
  {
    RunKeepsInv(es);
  }

  /** And the flag comes to be set on a closed port with nothing queued exactly by an empty message. */
  lemma {:induction false} FlagWithoutBytesExactlyWhen(es: seq<Event>, p: Port, e: Event)
    requires Runs.Exec(Step, INITIAL, es) == Some(p) && Step(p, e).Some?
    requires p.writeInProgress ==> p.isOpen || p.writeBuffer != []
    ensures var q := Step(p, e).value;
            q.writeInProgress && !q.isOpen && q.writeBuffer == [] <==> e == Write([]) && !p.isOpen && p.writeBuffer == []
  {
    RunKeepsInv(es);
    if e.Write? {
      ReplacementNotEmpty(e.msg);
    }
  }

  /** A hanging port writes nothing, whatever is queued, until it goes down. */
  lemma {:induction false} HangsUntilDown(es: seq<Event>, p: Port, e: Event)
    requires Runs.Exec(Step, INITIAL, es) == Some(p) && Hung(p) && Step(p, e).Some? && !e.Down?
    ensures Hung(Step(p, e).value) && Step(p, e).value.acked == p.acked
  {
    RunKeepsInv(es);
  }

  /** Over every run without empty messages no port hangs. No sender makes an empty message: a read that has
      completed holds at least one byte, an emitted frame its header, and the replacement empties none. */
  lemma {:induction false} NoEmptyMessageNoHang(es: seq<Event>, p: Port)
    requires Runs.Exec(Step, INITIAL, es) == Some(p) && forall i :: 0 <= i < |es| ==> es[i] != Write([])
    ensures !Hung(p) && (p.writeInProgress ==> p.isOpen || p.writeBuffer != [])
  {
    if es != [] {
      var init, e := es[..|es| - 1], es[|es| - 1];
      var before := Runs.Exec(Step, INITIAL, init).value;
      NoEmptyMessageNoHang(init, before);
      hide Step, Runs.Exec;
      HangsExactlyWhen(init, before, e);
      FlagWithoutBytesExactlyWhen(init, before, e);
      RunKeepsInv(es);
    }
  }

  lemma {:induction false} ExecFirst(p: Port, e: Event, es: seq<Event>)
    requires Step(p, e).Some?
    ensures Runs.Exec(Step, p, [e] + es) == Runs.Exec(Step, Step(p, e).value, es)
  {
    Runs.ExecOne(Step, p, e);
    Runs.ExecAppend(Step, p, [e], es);
  }

  /** Of DoWrite taken alone: an empty message while the port is down for a while would leave the next message
      queued and never written. */
  lemma {:induction false} EmptyMessageHangsThePort(m: seq<Byte>)
    ensures var r := Runs.Exec(Step, INITIAL, [Reopened] + ([Down] + ([Write([])] + ([Reopened] + [Write(m)]))));
            r.Some? && Hung(r.value) && r.value.writeBuffer == ReplaceCrLf(m) && r.value.acked == []
  {
    hide Runs.Exec;
    var a := Step(INITIAL, Reopened).value;
    var b := Step(a, Down).value;
    var c := Step(b, Write([])).value;
    var d := Step(c, Reopened).value;
    ExecFirst(INITIAL, Reopened, [Down] + ([Write([])] + ([Reopened] + [Write(m)])));
    ExecFirst(a, Down, [Write([])] + ([Reopened] + [Write(m)]));
    ExecFirst(b, Write([]), [Reopened] + [Write(m)]);
    ExecFirst(c, Reopened, [Write(m)]);
    Runs.ExecOne(Step, d, Write(m));
  }

  /** A byte leaves only when its own write has completed: over any step the acknowledged bytes grow by the
      outstanding one on a completion, and not at all otherwise. */
  lemma {:induction false} BytesLeaveOnCompletion(es: seq<Event>, p: Port, e: Event)
    requires Runs.Exec(Step, INITIAL, es) == Some(p) && Step(p, e).Some?
    ensures Step(p, e).value.acked == if e.Completed? && p.isOpen then p.acked + [p.outstanding.value] else p.acked
  {
    RunKeepsInv(es);
  }

  /** A reopening resumes at the first unacknowledged byte. */
  lemma {:induction false} ReopenResumes(es: seq<Event>, p: Port)
    requires Runs.Exec(Step, INITIAL, es) == Some(p) && !p.isOpen
    ensures var q := Step(p, Reopened).value; var all := Accepted(p.messages);
            && |p.acked| <= |all| && q.acked == p.acked
            && q.outstanding == if |p.acked| < |all| then Some(all[|p.acked|]) else None
  {
    RunKeepsInv(es);
  }

  /** Whatever state it was in, a port that goes down and is opened again does not hang: it writes its first
      unacknowledged byte, if there is one, and is ready for the next message otherwise. */
  lemma {:induction false} DownEndsAHang(es: seq<Event>, p: Port)
    requires Runs.Exec(Step, INITIAL, es) == Some(p)
    ensures Step(p, Down).Some? && Step(Step(p, Down).value, Reopened).Some?
    ensures var q, all := Step(Step(p, Down).value, Reopened).value, Accepted(p.messages);
            && q.isOpen && !Hung(q) && q.acked == p.acked <= all && q.messages == p.messages
            && q.outstanding == (if |p.acked| < |all| then Some(all[|p.acked|]) else None)
            && (q.outstanding.None? ==> !q.writeInProgress)
  {
    RunKeepsInv(es);
  }

  /** The messages of the run's writes. */
  function WrittenIn(es: seq<Event>): seq<seq<Byte>>
  {
    if es == [] then []
    else
      var e := es[|es| - 1];
      WrittenIn(es[..|es| - 1]) + if e.Write? then [e.msg] else []
  }

  predicate IsUp(es: seq<Event>)
  {
    es != [] && (es[|es| - 1].Reopened? || (!es[|es| - 1].Down? && IsUp(es[..|es| - 1])))
  }

  lemma {:induction false} OneEventTells(p: Port, e: Event, q: Port)
    requires Step(p, e) == Some(q)
    ensures q.messages == p.messages + if e.Write? then [e.msg] else []
    ensures q.isOpen <==> e.Reopened? || (!e.Down? && p.isOpen)
  {
    hide ReplaceCrLf;
  }

  /** Over every run: no message is lost, whether the port is up or down, and the port is open from each reopening
      until it goes down. */
  lemma {:induction false} RunTells(es: seq<Event>, p: Port)
    requires Runs.Exec(Step, INITIAL, es) == Some(p)
    ensures p.messages == WrittenIn(es) && (p.isOpen <==> IsUp(es))
  {
    if es != [] {
      hide Step, Runs.Exec;
      var n := |es| - 1;
      Runs.LastStep(Step, INITIAL, es);
      var before := Runs.Exec(Step, INITIAL, es[..n]).value;
      RunTells(es[..n], before);
      OneEventTells(before, es[n], p);
    }
  }

  // ----- the object -----------------------------------------------------------------------------------

  class UartClient {
    var writeBuffer: seq<Byte>
    var bWriteInProgress: bool
    var bIsOpened: bool
    var outstanding: Option<Byte>
    var portClosed: bool
    ghost var messages: seq<seq<Byte>>
    ghost var acked: seq<Byte>

    ghost function State(): Port
      reads this
    {
      Port(writeBuffer, bWriteInProgress, bIsOpened, outstanding, portClosed, messages, acked)
    }

    constructor ()
      ensures State() == INITIAL
    {
      writeBuffer, bWriteInProgress, bIsOpened, outstanding, portClosed := [], false, false, None, false;
      messages, acked := [], [];
    }

    static method ReplaceAll(m: seq<Byte>) returns (r: seq<Byte>)
      ensures r == ReplaceCrLf(m)
    {
      r := [];
      var i := 0;
      while i < |m|
        invariant i <= |m| && r + ReplaceCrLf(m[i..]) == ReplaceCrLf(m)
      {
        hide ReplaceCrLf;
        ReplaceStep(m, i);
        if i + 1 < |m| && m[i] == CR && m[i + 1] == LF {
          Assoc(r, [LF], ReplaceCrLf(m[i + 2..]));
          r := r + [LF];
          i := i + 2;
        } else {
          Assoc(r, [m[i]], ReplaceCrLf(m[i + 1..]));
          r := r + [m[i]];
          i := i + 1;
        }
      }
    }

    method WriteStart()
      requires bIsOpened ==> writeBuffer != []
      modifies this`outstanding
      ensures State() == StartWrite(old(State()))
    {
      if bIsOpened {
        outstanding := Some(writeBuffer[0]);
      }
    }

    method DoWrite(msg: seq<Byte>)
      requires Defined(State(), msg)
      modifies this
      ensures Some(State()) == Step(old(State()), Write(msg))
    {
      var text := ReplaceAll(msg);
      for i := 0 to |text|
        invariant writeBuffer == old(writeBuffer) + text[..i]
        invariant State() == old(State()).(writeBuffer := writeBuffer)
      {
        assert text[..i + 1] == text[..i] + [text[i]];
        writeBuffer := writeBuffer + [text[i]];
      }
      assert text[..|text|] == text;
      messages := messages + [msg];
      if !bWriteInProgress {
        bWriteInProgress := true;
        WriteStart();
      }
    }

    /** A completion that comes while the port is down is ignored. */
    method WriteComplete(error: bool)
      requires bIsOpened ==> outstanding.Some? && writeBuffer != []
      modifies this
      ensures Some(State()) == Step(old(State()), if error then Failed else Completed)
    {
      if bIsOpened {
        outstanding := None;
        if !error {
          acked := acked + [writeBuffer[0]];
          writeBuffer := writeBuffer[1..];
          if writeBuffer != [] {
            bWriteInProgress := true;
            WriteStart();
          } else {
            bWriteInProgress := false;
          }
        } else {
          portClosed := true;
        }
      }
    }

    method SetupAsync()
      modifies this
      ensures Some(State()) == Step(old(State()), Down)
    {
      bIsOpened, bWriteInProgress := false, false;
      outstanding, portClosed := None, false;
    }

    method Setup()
      requires !bIsOpened
      modifies this
      ensures Some(State()) == Step(old(State()), Reopened)
    {
      bIsOpened, portClosed := true, false;
      if writeBuffer != [] {
        bWriteInProgress := true;
        WriteStart();
      }
    }
  }
}
