/** The two framing TCP children as objects whose handlers update their fields
    (proxy/tcpserver_child.h, proxy/tcpserver_child.cpp). Each handler does what the value model says, and
    each completion is one step of that model, so the deframing theorem is about these objects. */
module TcpServerChildren {
  import opened Bytes
  import opened Deframer
  import opened LogPackages
  import opened Tlv
  import opened Wrappers

  class OscarChild {
    var buffer: seq<Byte>
    var headerReadBytes: nat
    var bodyReadBytes: nat
    var bodySize: nat
    var pending: Option<Request>
    var emitted: seq<seq<Byte>>
    ghost var consumed: seq<Byte>
    ghost var failed: bool

    ghost function State(): Child
      reads this
    {
      Child(Oscar, buffer, headerReadBytes, bodyReadBytes, bodySize, pending, emitted, consumed, failed)
    }

    constructor ()
      ensures State() == Init(Oscar)
    {
      buffer := Zeros(HeaderSize(Oscar));
      headerReadBytes, bodyReadBytes, bodySize := 0, 0, 0;
      pending := Some(Request(0, HeaderSize(Oscar), true, OnHeader));
      emitted, consumed, failed := [], [], false;
    }

    method ReadHandler(n: nat)
      requires |buffer| >= HeaderSize(Oscar) >= headerReadBytes + n
      modifies this
      ensures State() == Deframer.ReadHandler(old(State()), n)
    {
      if buffer[0] != Mark(Oscar) {
        pending := None;
      } else {
        headerReadBytes := headerReadBytes + n;
        if headerReadBytes == HeaderSize(Oscar) {
          bodyReadBytes := 0;
          bodySize := BodySizeOf(Oscar, buffer);
          buffer := Resize(buffer, bodySize + HeaderSize(Oscar));
          pending := Some(Request(HeaderSize(Oscar), bodySize, false, OnBody));
        } else {
          pending := Some(Request(headerReadBytes, HeaderSize(Oscar) - headerReadBytes, false, OnHeader));
        }
      }
    }

    /** The partial branch asks for the rest at an offset without the header. */
    method ReadDataHandler(n: nat)
      modifies this
      ensures State() == Deframer.ReadDataHandler(old(State()), n)
    {
      bodyReadBytes := bodyReadBytes + n;
      if bodyReadBytes < bodySize {
        pending := Some(Request(bodyReadBytes, bodySize - bodyReadBytes, false, OnBody));
      } else {
        var msg := buffer;
        headerReadBytes := 0;
        buffer := Zeros(HeaderSize(Oscar));
        pending := Some(Request(0, HeaderSize(Oscar), false, OnHeader));
        emitted := emitted + [msg];
      }
    }

    /** A completion of the pending read within its contract, with or without an error. */
    method Complete(e: Event)
      requires Deframer.Step(State(), e).Some?
      modifies this
      ensures Some(State()) == Deframer.Step(old(State()), e)
    {
      match e {
        case Error =>
          pending, failed := None, true;
        case Data(bytes) =>
          var q := pending.value;
          buffer := Splice(buffer, q.at, bytes);
          consumed := consumed + bytes;
          if q.handler.OnBody? {
            ReadDataHandler(|bytes|);
          } else {
            ReadHandler(|bytes|);
          }
      }
    }
  }

  lemma {:induction false} BodyIsAskedFor(c: Child, n: nat)
    requires c.proto == Etf && |c.buffer| == 12 == c.headerRead + n
    ensures forall k: nat :: k > 0 && Announces(Etf, c.buffer, k) ==>
              Deframer.ReadHandler(c, n).pending == Some(Request(12, k, false, OnBody))
  {
    hide Announces, Deframer.ReadHandler;
    forall k: nat | k > 0 && Announces(Etf, c.buffer, k)
      ensures Deframer.ReadHandler(c, n).pending == Some(Request(12, k, false, OnBody))
    {
      HeaderAsksForBody(c, n, k);
    }
  }

  const LOG_CLIENT_CHANNEL: Int8 := 3
  const LOG_NAME: seq<Byte> := [0x4C, 0x6F, 0x67]
  const RPC_NAME: seq<Byte> := [0x72, 0x70, 0x63]

  class EtfChild {
    var logged: seq<LogPackage>
    var buffer: seq<Byte>
    var headerReadBytes: nat
    var bodyReadBytes: nat
    var bodySize: nat
    var pending: Option<Request>
    var emitted: seq<seq<Byte>>
    ghost var consumed: seq<Byte>
    ghost var failed: bool

    ghost function State(): Child
      reads this
    {
      Child(Etf, buffer, headerReadBytes, bodyReadBytes, bodySize, pending, emitted, consumed, failed)
    }

    /** The client's log starts a file of its own; the record's severity is not set. */
    constructor (now: Timespec, unset: Byte)
      ensures State() == Init(Etf)
      ensures logged == [LogPackage([0x4C, 0x6F, 0x67], [0x72, 0x70, 0x63], now, ChangeFile, unset, 3)]
    {
      logged := [LogPackage(LOG_NAME, RPC_NAME, now, ChangeFile, unset, LOG_CLIENT_CHANNEL)];
      buffer := Zeros(HeaderSize(Etf));
      headerReadBytes, bodyReadBytes, bodySize := 0, 0, 0;
      pending := Some(Request(0, HeaderSize(Etf), true, OnHeader));
      emitted, consumed, failed := [], [], false;
    }

    method ReadHandler(n: nat)
      requires |buffer| >= HeaderSize(Etf) >= headerReadBytes + n
      modifies this
      ensures logged == old(logged)
      ensures State() == Deframer.ReadHandler(old(State()), n)
      ensures |old(buffer)| == 12 == old(headerReadBytes) + n ==>
                forall k: nat :: k > 0 && Announces(Etf, old(buffer), k) ==> pending == Some(Request(12, k, false, OnBody))
    {
      ghost var before := State();
      if |buffer| == 12 == headerReadBytes + n {
        BodyIsAskedFor(before, n);
      }
      hide Announces;
      if buffer[0] != Mark(Etf) {
        pending := None;
      } else {
        headerReadBytes := headerReadBytes + n;
        if headerReadBytes == HeaderSize(Etf) {
          bodyReadBytes := 0;
          bodySize := BodySizeOf(Etf, buffer);
          if bodySize > 0 {
            buffer := Resize(buffer, bodySize + HeaderSize(Etf));
            pending := Some(Request(HeaderSize(Etf), bodySize, false, OnBody));
          } else {
            ReadDataHandler(bodySize);
          }
        } else {
          pending := Some(Request(headerReadBytes, HeaderSize(Etf) - headerReadBytes, false, OnHeader));
        }
      }
    }

    /** The next header is asked for in the size of the other protocol's header. */
    method ReadDataHandler(n: nat)
      modifies this
      ensures logged == old(logged)
      ensures State() == Deframer.ReadDataHandler(old(State()), n)
    {
      bodyReadBytes := bodyReadBytes + n;
      if bodyReadBytes < bodySize {
        pending := Some(Request(bodyReadBytes, bodySize - bodyReadBytes, false, OnBody));
      } else {
        var msg := buffer;
        headerReadBytes := 0;
        buffer := Zeros(HeaderSize(Etf));
        pending := Some(Request(0, HeaderSize(Oscar), false, OnHeader));
        emitted := emitted + [msg];
      }
    }

    /** A completion of the pending read within its contract, with or without an error. */
    method Complete(e: Event)
      requires Deframer.Step(State(), e).Some?
      modifies this
      ensures logged == old(logged)
      ensures Some(State()) == Deframer.Step(old(State()), e)
    {
      match e {
        case Error =>
          pending, failed := None, true;
        case Data(bytes) =>
          var q := pending.value;
          buffer := Splice(buffer, q.at, bytes);
          consumed := consumed + bytes;
          if q.handler.OnBody? {
            ReadDataHandler(|bytes|);
          } else {
            ReadHandler(|bytes|);
          }
      }
    }

    /** The destructor. */
    method Destroy(now: Timespec, unset: Byte)
      modifies this`logged
      ensures logged == old(logged) + [LogPackage([], [], now, Stop, unset, 3)]
    {
      logged := logged + [LogPackage([], [], now, Stop, unset, LOG_CLIENT_CHANNEL)];
    }
  }
}
