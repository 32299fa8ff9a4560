/** The lock queue and the client as objects, with each method run without interruption
    (utils/lockqueue.h, logclient/logclient.cpp). */
module LogClientObject {
  import opened Bytes
  import opened FlapBuilder
  import opened LogPackages
  import opened Wrappers
  import LogClient

  class LockQueue<T> {
    var items: seq<T>

    constructor ()
      ensures items == []
    {
      items := [];
    }

    method Push(value: T)
      modifies this
      ensures items == old(items) + [value]
    {
      items := items + [value];
    }

    /** pop: waits until there is an item, which is the precondition here. */
    method Pop() returns (value: T)
      requires items != []
      modifies this
      ensures [value] + items == old(items)
    {
      value := items[0];
      items := items[1..];
    }

    /** pop_try with timeout 0. */
    method PopTry() returns (value: Option<T>)
      modifies this
      ensures old(items) == [] ==> value.None? && items == []
      ensures old(items) != [] ==> value.Some? && [value.value] + items == old(items)
    {
      if items == [] {
        return None;
      }
      value := Some(items[0]);
      items := items[1..];
    }
  }

  class Client {
    const queue: LockQueue<LogPackage>
    var writeInProgress: bool
    var stopInProgress: bool
    var toServer: bool
    var currentMessage: seq<Byte>
    var transferred: nat
    var nextId: nat
    var outstanding: Option<LogClient.Write>
    ghost var threads: map<nat, LogClient.Pusher>
    ghost var io: LogClient.IoThread
    ghost var pushed: seq<LogPackage>
    ghost var sent: seq<LogClient.Sent>
    ghost var stuck: Option<LogPackage>
    ghost var wire: seq<Byte>
    ghost var failed: bool
    ghost var ended: bool

    ghost function State(): LogClient.Client
      reads this, queue
    {
      LogClient.Client(toServer, stopInProgress, queue.items, writeInProgress, currentMessage, transferred, nextId,
                       outstanding, threads, io, pushed, sent, stuck, wire, failed, ended)
    }

    constructor ()
      ensures State() == LogClient.INITIAL
      ensures fresh(queue)
    {
      queue := new LockQueue();
      writeInProgress, stopInProgress, toServer := false, false, true;
      currentMessage, transferred, nextId, outstanding := [], 0, 0, None;
      threads, io, pushed, sent, stuck, wire, failed, ended := map[], LogClient.IoIdle, [], [], None, [], false, false;
    }

    /** The flag is set before the frame is built. */
    method Build(p: LogPackage) returns (frame: Result<seq<Byte>, BuildError>)
      modifies this`writeInProgress, this`nextId
      ensures frame == Encode(p, old(nextId)) && writeInProgress && nextId == old(nextId) + 1
    {
      hide Encode;
      writeInProgress := true;
      frame := BuildFrame(p, nextId);
      nextId := nextId + 1;
    }

    method WriteFrame(p: LogPackage, frame: seq<Byte>)
      requires nextId > 0
      modifies this`currentMessage, this`transferred, this`outstanding, this`sent
      ensures currentMessage == frame && transferred == 0 && outstanding == Some(LogClient.Write(0, |frame|))
      ensures sent == old(sent) + [LogClient.Sent(p, nextId - 1, frame)]
    {
      currentMessage := frame;
      transferred := 0;
      outstanding := Some(LogClient.Write(0, |frame|));
      sent := sent + [LogClient.Sent(p, nextId - 1, frame)];
    }

    /** The package taken from the queue becomes the current frame; false when building it throws. */
    method StartFrame(p: LogPackage) returns (ok: bool)
      modifies this
      ensures State() == LogClient.Take(old(State()), p)
      ensures ok <==> Encode(p, old(nextId)).Success?
    {
      hide Encode, LogClient.Take;
      LogClient.TakeCases(State(), p);
      var frame := Build(p);
      if frame.Failure? {
        stuck := Some(p);
        return false;
      }
      WriteFrame(p, frame.value);
      return true;
    }

    /** False when building the frame throws. */
    method WriteNextMessage() returns (ok: bool)
      modifies this, queue
      ensures State() == LogClient.TryNext(old(State()))
      ensures ok <==> (old(writeInProgress) || old(queue.items) == []
                       || Encode(old(queue.items)[0], old(nextId)).Success?)
    {
      hide Encode, LogClient.Take;
      ok := true;
      if !writeInProgress {
        var op := queue.PopTry();
        if op.Some? {
          ok := StartFrame(op.value);
        }
      }
    }

    /** Push in server mode; otherwise the text goes to the console and the client does not change. False
        when the exception reaches the caller: the oldest waiting package cannot be built. */
    method Push(package: LogPackage) returns (ok: bool)
      modifies this, queue
      ensures ok <==> (old(!toServer || stopInProgress || writeInProgress)
                       || Encode((old(queue.items) + [package])[0], old(nextId)).Success?)
      ensures State() == (if old(toServer && !stopInProgress) then LogClient.TryNext(LogClient.Enqueue(old(State()), package))
                          else old(State()))
    {
      hide Encode;
      ok := true;
      if toServer {
        if !stopInProgress {
          queue.Push(package);
          pushed := pushed + [package];
          ok := WriteNextMessage();
        }
      }
    }

    /** The success branch of WriteHandler, when `n` bytes have reached the wire. False when the exception
        leaves the I/O thread: the frame was complete and the oldest waiting package cannot be built. */
    method GoOn(n: nat) returns (ok: bool)
      requires outstanding.None?
      modifies this, queue
      ensures ok <==> (old(transferred) + n < |old(currentMessage)| || old(queue.items) == []
                       || Encode(old(queue.items)[0], old(nextId)).Success?)
      ensures var s := LogClient.Completed(old(State()), n);
              State() == if old(transferred) + n < |old(currentMessage)| then s
                         else LogClient.TryNext(s.(writeInProgress := false, io := old(io)))
    {
      hide Encode, LogClient.TryNext;
      ok := true;
      transferred := transferred + n;
      if transferred < |currentMessage| {
        outstanding := Some(LogClient.Write(transferred, |currentMessage| - transferred));
      } else {
        writeInProgress := false;
        ok := WriteNextMessage();
      }
    }

    /** What the socket has done when the handler is called. */
    method Transmitted(n: nat)
      requires outstanding.Some? && outstanding.value.at + n <= |currentMessage|
      modifies this`wire, this`outstanding
      ensures State() == LogClient.Transmit(old(State()), n) && outstanding.None?
    {
      wire := wire + currentMessage[outstanding.value.at..outstanding.value.at + n];
      outstanding := None;
    }

    /** WriteHandler on a completion that moved `n` bytes, with or without an error. */
    method WriteHandler(error: bool, n: nat) returns (ok: bool)
      requires outstanding.Some? && outstanding.value.at + n <= |currentMessage|
      modifies this, queue
      ensures ok <==> (error || old(transferred) + n < |old(currentMessage)| || old(queue.items) == []
                       || Encode(old(queue.items)[0], old(nextId)).Success?)
      ensures error ==> State() == LogClient.Transmit(old(State()), n).(toServer := false, failed := true)
      ensures !error ==>
                var s := LogClient.Completed(LogClient.Transmit(old(State()), n), n);
                State() == if old(transferred) + n < |old(currentMessage)| then s
                           else LogClient.TryNext(s.(writeInProgress := false, io := old(io)))
    {
      hide Encode, LogClient.TryNext, LogClient.Completed;
      ok := true;
      Transmitted(n);
      if !error {
        ok := GoOn(n);
      } else {
        failed := true;
        toServer := false;
      }
    }
  }
}
