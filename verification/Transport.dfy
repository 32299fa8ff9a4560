/** The client and the server's child joined by a byte stream: what the adaptor logs against what was pushed. */
module Transport {
  import opened Bytes
  import opened LogPackages
  import opened OscarLogger
  import opened Seqs
  import opened Wrappers
  import Deframer
  import FlapParser
  import LogClient
  import Runs

  datatype Link = Link(client: LogClient.Client, child: Deframer.Child)

  /** The stream delivers bytes in the order in which they were written; each side may fail at any time. */
  datatype Event = Sender(c: LogClient.Event) | Receiver(d: Deframer.Event)

  const INITIAL := Link(LogClient.INITIAL, Deframer.Init(Deframer.Oscar))

  function Step(l: Link, e: Event): Option<Link>
  {
    match e
    case Sender(c) =>
      (match LogClient.Step(l.client, c)
       case None => None
       case Some(client) => Some(l.(client := client)))
    case Receiver(d) =>
      match Deframer.Step(l.child, d)
      case None => None
      case Some(child) => if child.consumed <= l.client.wire then Some(l.(child := child)) else None
  }

  ghost predicate Inv(l: Link)
  {
    && LogClient.Inv(l.client)
    && Deframer.Inv(l.child) && l.child.proto == Deframer.Oscar
    && l.child.consumed <= l.client.wire
  }

  lemma WireGrows(c: LogClient.Client, e: LogClient.Event)
    requires LogClient.Step(c, e).Some?
    ensures c.wire <= LogClient.Step(c, e).value.wire
  {
    hide Encode, LogClient.TryNext, LogClient.Frames, LogClient.Packages, Concat;
    match e {
      case Next(t) => LogClient.TryNextSendsNothing(c.(threads := c.threads - {t}));
      case IoNext => LogClient.TryNextSendsNothing(c.(io := LogClient.IoIdle));
      case _ =>
    }
  }

  lemma StepKeepsInv(l: Link, e: Event)
    requires Inv(l) && Step(l, e).Some?
    ensures Inv(Step(l, e).value)
  {
    hide LogClient.Step, Deframer.Step, LogClient.Inv, Deframer.Inv;
    match e {
      case Sender(c) =>
        LogClient.StepKeepsInv(l.client, c);
        WireGrows(l.client, c);
      case Receiver(d) =>
        Deframer.StepKeepsInv(l.child, d);
        ProtoStays(l.child, d);
    }
  }

  lemma ProtoStays(c: Deframer.Child, d: Deframer.Event)
    requires Deframer.Step(c, d).Some?
    ensures Deframer.Step(c, d).value.proto == c.proto
  {
  }

  lemma {:induction false} RunKeepsInv(es: seq<Event>)
    ensures var r := Runs.Exec(Step, INITIAL, es); r.Some? ==> Inv(r.value)
  {
    hide LogClient.Inv, Deframer.Inv;
    forall l, e | Inv(l) && Step(l, e).Some?
      ensures Inv(Step(l, e).value)
    {
      StepKeepsInv(l, e);
    }
    LogClient.RunKeepsInv([]);
    Deframer.InitInv(Deframer.Oscar);
    Runs.InvariantOverRuns(Step, Inv, INITIAL, es);
  }

  lemma FramesAreWellFormed(sent: seq<LogClient.Sent>)
    requires LogClient.SentProperly(sent)
    ensures Deframer.AllWellFormed(Deframer.Oscar, LogClient.Frames(sent))
  {
    hide Encode;
    forall i | 0 <= i < |sent|
      ensures Deframer.WellFormed(Deframer.Oscar, sent[i].frame)
    {
      BuiltFrameParses(sent[i].p, sent[i].id);
    }
  }

  /** What lies in memory behind each emitted frame when the adaptor looks at it. */
  ghost predicate IsMemory(beyond: nat -> seq<Byte>)
  {
    forall i: nat :: |beyond(i)| >= FlapParser.SLACK
  }

  /** What the adaptor makes of the frames that the child has emitted. */
  function Logs(l: Link, beyond: nat -> seq<Byte>): (r: seq<Outcome>)
    requires IsMemory(beyond)
    ensures |r| == |l.child.emitted|
  {
    seq(|l.child.emitted|, i requires 0 <= i < |l.child.emitted| => DecodeMemory(l.child.emitted[i], beyond(i)))
  }

  /** The emitted frames are the first of the frames that the client built. */
  lemma EmittedAreFirstSent(l: Link)
    requires Inv(l)
    ensures l.child.emitted <= LogClient.Frames(l.client.sent)
  {
    hide Encode;
    FramesAreWellFormed(l.client.sent);
    Deframer.FramesOfPrefix(Deframer.Oscar, l.child.emitted, LogClient.Frames(l.client.sent));
  }

  /** End-to-end transport: in every run, for any interleaving of pushes, any partial writes, any chopping of
      the stream and any memory behind the frames, the packages logged are the first ones pushed, in order,
      equal in every field that their commands carry. */
  lemma {:induction false} EndToEnd(es: seq<Event>, l: Link, beyond: nat -> seq<Byte>)
    requires Runs.Exec(Step, INITIAL, es) == Some(l) && IsMemory(beyond)
    ensures |Logs(l, beyond)| <= |l.client.sent| <= |l.client.pushed|
    ensures forall i :: 0 <= i < |Logs(l, beyond)| ==>
              Logs(l, beyond)[i].Emitted? && Says(Logs(l, beyond)[i].log, l.client.pushed[i])
  {
    hide Encode, DecodeMemory, Says, Carried;
    RunKeepsInv(es);
    EmittedAreFirstSent(l);
    forall i | 0 <= i < |Logs(l, beyond)|
      ensures Logs(l, beyond)[i].Emitted? && Says(Logs(l, beyond)[i].log, l.client.pushed[i])
    {
      var s := l.client.sent[i];
      assert l.child.emitted[i] == LogClient.Frames(l.client.sent)[i] == s.frame;
      assert l.client.pushed[i] == LogClient.Dequeued(l.client)[i] == s.p;
      NotOther(s.p, s.id);
      FlapRoundTripInMemory(s.p, s.id, beyond(i));
      CarriedIsSaid(Carried(s.p), s.p);
    }
  }

  lemma NotOther(p: LogPackage, id: nat)
    requires Encode(p, id).Success?
    ensures !p.command.Other?
  {
  }

  lemma StuckIsPushed(c: LogClient.Client)
    requires LogClient.Inv(c) && c.stuck.Some?
    ensures exists i :: 0 <= i < |c.pushed| && LogClient.Unbuildable(c.pushed[i])
  {
    hide Encode;
    var n := |c.sent|;
    assert c.pushed[n] == LogClient.Dequeued(c)[n] == c.stuck.value;
  }

  /** When both sides are at rest, nothing failed and every package pushed can be built, everything pushed is
      logged. */
  lemma {:induction false} EndToEndComplete(es: seq<Event>, l: Link)
    requires Runs.Exec(Step, INITIAL, es) == Some(l)
    requires !l.client.failed && l.client.outstanding.None? && l.client.io.IoIdle? && l.client.threads == map[]
    requires forall i :: 0 <= i < |l.client.pushed| ==> !LogClient.Unbuildable(l.client.pushed[i])
    requires l.child.consumed == l.client.wire && Deframer.Settled(l.child)
    ensures |l.child.emitted| == |l.client.pushed|
  {
    hide Encode;
    RunKeepsInv(es);
    EmittedAreFirstSent(l);
    if l.client.stuck.Some? {
      StuckIsPushed(l.client);
    }
    FramesAreWellFormed(l.client.sent);
    Deframer.NothingSkipped(l.child, LogClient.Frames(l.client.sent));
  }
}
