/** Receiving, acknowledging and timing out keep the invariant; hence every step of a core does. */
module ChannelSteps {
  import opened BigEndian
  import opened ChannelFrames
  import opened Fragments
  import Reassembly
  import opened ReassemblyInvariant
  import opened ChannelCore
  import opened ChannelInvariant

  // ---- ack

  lemma {:induction false} DropAckedSuffix(log: seq<Sent>, unacked: seq<Sent>, ackNum: nat)
    requires LogOk(log) && FlightOk(log, unacked, |log|) && ackNum <= |log|
    ensures var left := DropAcked(unacked, ackNum);
            && FlightOk(log, left, |log|) && |left| <= |unacked|
            && |log| - |left| == (if |log| - |unacked| < ackNum then ackNum else |log| - |unacked|)
    decreases |unacked|
  {
    if unacked != [] {
      var b := |log| - |unacked|;
      assert unacked[0] == log[b] && SentOk(log[b], b);
      if unacked[0].seqno < ackNum {
        assert unacked[1..] == log[b + 1..];
        DropAckedSuffix(log, unacked[1..], ackNum);
      }
    }
  }

  /** What stays in flight is the log from the acknowledgement on, or from where the flight already began; the retry
      count starts again exactly when something left. */
  lemma AckEffect(x: Core, ackNum: nat)
    requires LogOk(x.trace.log) && FlightOk(x.trace.log, x.unacked, x.sendNext)
    ensures var a := Ack(x, ackNum);
            var upTo := if ackNum < x.sendNext then ackNum else x.sendNext;
            && a == x.(unacked := a.unacked, retries := if Base(a) > Base(x) then 0 else x.retries)
            && FlightOk(x.trace.log, a.unacked, x.sendNext)
            && Base(a) == (if Base(x) < upTo then upTo else Base(x))
            && (ackNum >= x.sendNext ==> a.unacked == [])
  {
    hide LogOk, DropAcked;
    DropAckedSuffix(x.trace.log, x.unacked, if ackNum < x.sendNext then ackNum else x.sendNext);
  }

  /** An acknowledgement the peer could have sent moves the base no further than the peer has got. */
  lemma AckKeeps(x: Core, y: Core, f: Frame)
    requires Around(x, y) && !x.dead && f.ackNum <= y.rcvNext && f.window == y.window
    ensures Around(Ack(x, f.ackNum).(peerWindow := f.window), y)
    ensures Ack(x, f.ackNum) == x.(unacked := Ack(x, f.ackNum).unacked, retries := Ack(x, f.ackNum).retries)
  {
    hide LogOk, FlightOk, WireOk, QueueOk, FinOk, BufferOk, FeedOk, MessagesOk, OrderOk, BufferedOk, ClosedOk,
        WindowOk, HasFin, Ack;
    AckEffect(x, f.ackNum);
  }

  // ---- on_timeout

  lemma TeardownKeeps(x: Core, y: Core)
    requires Around(x, y) && !x.dead
    ensures Around(Teardown(x), y)
  {
    hide LogOk, FlightOk, WireOk, QueueOk, FinOk, BufferOk, FeedOk, MessagesOk, OrderOk, BufferedOk, ClosedOk,
        WindowOk, HasFin;
    NothingInFlight(x.trace.log, x.unacked, x.sendNext);
    QueueAbandoned(x.trace.log, x.trace.queued, x.sendQueue);
  }

  lemma NothingInFlight(log: seq<Sent>, unacked: seq<Sent>, sendNext: nat)
    requires FlightOk(log, unacked, sendNext)
    ensures FlightOk(log, [], sendNext)
  {
  }

  lemma QueueAbandoned(log: seq<Sent>, queued: seq<Payload>, sendQueue: seq<Payload>)
    requires QueueOk(log, queued, sendQueue, false)
    ensures QueueOk(log, queued, [], true)
  {
    hide DataOf;
  }

  lemma TimeoutKeeps(x: Core, y: Core)
    requires Around(x, y) && !x.dead
    ensures Around(OnTimeout(x), y)
    ensures OnTimeout(x).recvBuffer == x.recvBuffer && OnTimeout(x).rcvNext == x.rcvNext
  {
    hide Around, Retransmit;
    if x.unacked != [] {
      if x.retries >= MAX_RETRIES {
        TeardownKeeps(x, y);
      } else {
        CountRound(x, y);
        var c := x.(retries := x.retries + 1, trace := x.trace.(rounds := x.trace.rounds + 1));
        FlightIsLogged(x, y);
        RetransmitKeeps(c, y, x.unacked);
        RetransmitReceiver(c, x.unacked);
      }
    }
  }

  lemma CountRound(x: Core, y: Core)
    requires Around(x, y) && !x.dead && x.unacked != []
    ensures Around(x.(retries := x.retries + 1, trace := x.trace.(rounds := x.trace.rounds + 1)), y)
    ensures x.state != Closed
  {
    hide LogOk, FlightOk, WireOk, QueueOk, FinOk, BufferOk, FeedOk, MessagesOk, OrderOk, BufferedOk, ClosedOk,
        WindowOk, HasFin;
    FlightLength(x.trace.log, x.unacked, x.sendNext);
  }

  lemma FlightIsLogged(x: Core, y: Core)
    requires Around(x, y)
    ensures forall u :: u in x.unacked ==> u in x.trace.log
  {
    hide LogOk, WireOk, StateOk, QueueOk, FinOk, BufferOk, FeedOk, MessagesOk, Link;
  }

  lemma {:induction false} RetransmitReceiver(c: Core, pending: seq<Sent>)
    ensures var r := Retransmit(c, pending);
            && r == c.(outbox := r.outbox) && |r.outbox| == |c.outbox| + |pending| && c.outbox <= r.outbox
            && forall i :: 0 <= i < |pending| ==>
                 r.outbox[|c.outbox| + i] == Frame(pending[i].flags, c.rcvNext, c.window, pending[i].seqno,
                     pending[i].data)
    decreases |pending|
  {
    if pending != [] {
      var e := Emit(c, pending[0].flags, pending[0].seqno, pending[0].data);
      RetransmitReceiver(e, pending[1..]);
      var r := Retransmit(c, pending);
      assert r.outbox[|c.outbox|] == e.outbox[|c.outbox|];
      forall i | 1 <= i < |pending|
        ensures r.outbox[|c.outbox| + i]
            == Frame(pending[i].flags, c.rcvNext, c.window, pending[i].seqno, pending[i].data)
      {
        assert pending[i] == pending[1..][i - 1];
      }
    }
  }

  // ---- The handshake

  lemma WireLater(outbox: seq<Frame>, log: seq<Sent>, rcvNext: nat, later: nat, window: nat)
    requires WireOk(outbox, log, rcvNext, window) && rcvNext <= later
    ensures WireOk(outbox, log, later, window)
  {
  }

  lemma WindowLater(log: seq<Sent>, passive: bool, rcvNext: nat, later: nat, window: nat)
    requires WindowOk(log, passive, rcvNext, window) && rcvNext <= later
    ensures WindowOk(log, passive, later, window)
  {
    hide Pumped;
  }

  /** The frame is one `y` has logged under its own sequence. */
  ghost predicate From(y: Core, f: Frame)
  {
    ConsumesSeq(f) ==> f.seqno < |y.trace.log| && y.trace.log[f.seqno] == Sent(f.flags, f.seqno, f.data)
  }

  lemma SkipSyns(log: seq<Sent>, fed: seq<Input>, n: nat)
    requires LogOk(log) && OrderOk(log, 0, fed) && 0 < n <= |log| && log[n - 1].flags.syn
    ensures OrderOk(log, n, fed)
  {
    hide LogOk;
    SynsCarryNothing(log, 0);
    SynsCarryNothing(log, n);
  }

  /** Skipping ahead over the peer's SYNs skips no data. */
  lemma JoinKeeps(x: Core, y: Core, f: Frame)
    requires Around(x, y) && LogOk(y.trace.log) && From(y, f) && f.flags.syn
    requires (x.state == Closed && !x.dead) || x.state == SynSent
    requires x.peerWindow == y.window
    ensures var z := Join(x, f.seqno);
            && LogOk(z.trace.log) && FlightOk(z.trace.log, z.unacked, z.sendNext)
            && WireOk(z.outbox, z.trace.log, z.rcvNext, z.window)
            && QueueOk(z.trace.log, z.trace.queued, z.sendQueue, z.dead)
            && !HasFin(z.trace.log) && (forall s :: s in z.trace.log ==> s.flags.syn)
            && BufferOk(z.recvBuffer, z.rcvNext, z.window) && z.recvBuffer == map[]
            && FeedOk(z.reassembler, z.delivered, z.trace.fed) && MessagesOk(z.trace.messages, z.trace.queued)
            && Link(z, y) && Link(y, z)
  {
    hide FlightOk, FinOk, QueueOk, FeedOk, MessagesOk, LogOk, WireOk, WindowOk, OrderOk;
    SkipSyns(y.trace.log, x.trace.fed, f.seqno + 1);
    WireLater(x.outbox, x.trace.log, x.rcvNext, f.seqno + 1, x.window);
    WindowLater(y.trace.log, y.trace.passive, x.rcvNext, f.seqno + 1, x.window);
    SynIsNoFin(y.trace.log, f.seqno + 1);
  }

  lemma SynIsNoFin(log: seq<Sent>, n: nat)
    requires LogOk(log) && 0 < n <= |log| && log[n - 1].flags.syn
    ensures !(HasFin(log) && n == |log|)
  {
    assert SentOk(log[n - 1], n - 1);
  }

  lemma JoinAsResponder(x: Core, y: Core, f: Frame)
    requires Around(x, y) && LogOk(y.trace.log) && From(y, f) && f.flags.syn
    requires (x.state == Closed && !x.dead) || x.state == SynSent
    requires x.peerWindow == y.window
    ensures Around(EmitNext(Join(x, f.seqno), SYN_ACK, []), y)
  {
    hide FinOk, BufferOk, FeedOk, MessagesOk, OrderOk, BufferedOk, ClosedOk, WindowOk, DataOf, LogOk, FlightOk,
        WireOk, QueueOk;
    JoinKeeps(x, y, f);
    var j := Join(x, f.seqno);
    FlightLength(j.trace.log, j.unacked, j.sendNext);
    var s, z := Sent(SYN_ACK, j.sendNext, []), EmitNext(j, SYN_ACK, []);
    LogAppend(j.trace.log, s);
    FlightAppend(j.trace.log, j.unacked, j.sendNext, s);
    WireGrow(j.outbox, j.trace.log, j.rcvNext, j.window, s);
    LogGrowthKeepsLink(j, y, z, s);
    SameReceiver(j, y, z);
    QueueGrow(j.trace.log, j.trace.queued, j.sendQueue, s);
    NoFinOk(z.trace.log, z.trace.queued, z.trace.finMark, z.trace.passive);
  }

  lemma JoinAsInitiator(x: Core, y: Core, f: Frame)
    requires Around(x, y) && LogOk(y.trace.log) && From(y, f) && f.flags.syn && x.state == SynSent
    requires x.peerWindow == y.window
    ensures Around(Join(x, f.seqno), y)
  {
    hide FinOk, BufferOk, FeedOk, MessagesOk, OrderOk, BufferedOk, ClosedOk, WindowOk, DataOf, LogOk, FlightOk,
        WireOk, QueueOk;
    JoinKeeps(x, y, f);
    var z := Join(x, f.seqno);
    NoFinOk(z.trace.log, z.trace.queued, z.trace.finMark, z.trace.passive);
  }

  // ---- deliver

  lemma OrderNext(log: seq<Sent>, rcvNext: nat, fed: seq<Input>, after: seq<Input>)
    requires OrderOk(log, rcvNext, fed) && rcvNext < |log|
    requires if log[rcvNext].data == [] then after == fed
             else exists now :: after == fed + [Input(log[rcvNext].data, now)]
    ensures OrderOk(log, rcvNext + 1, after)
  {
    DataOfSnoc(log[..rcvNext], log[rcvNext]);
    assert log[..rcvNext] + [log[rcvNext]] == log[..rcvNext + 1];
  }

  lemma FeedNext(r: Reassembly.State, delivered: seq<Payload>, fed: seq<Input>, i: Input)
    requires FeedOk(r, delivered, fed)
    ensures var (r', out) := Reassembly.Feed(r, i.raw, i.now);
            FeedOk(r', delivered + (match out case None => [] case Some(m) => [m]), fed + [i])
  {
    hide Reassembly.Feed;
    var outs := FeedAll(Reassembly.ForChunkSize(MAX_CHUNK_PAYLOAD), fed).1;
    var out := Reassembly.Feed(r, i.raw, i.now).1;
    assert (fed + [i])[..|fed|] == fed;
    assert (outs + [out])[..|outs|] == outs;
  }

  lemma BufferRemove(log: seq<Sent>, recvBuffer: map<nat, Frame>, rcvNext: nat, window: nat)
    requires BufferOk(recvBuffer, rcvNext, window) && BufferedOk(log, recvBuffer)
    ensures BufferOk(recvBuffer - {rcvNext}, rcvNext + 1, window) && BufferedOk(log, recvBuffer - {rcvNext})
  {
  }

  /** `x` moves past the frame it was waiting for, having done with it what that frame asks. */
  lemma AdvanceKeeps(x: Core, y: Core, z: Core)
    requires Around(x, y) && Synced(x) && x.rcvNext in x.recvBuffer
    requires z == x.(rcvNext := x.rcvNext + 1, recvBuffer := x.recvBuffer - {x.rcvNext},
                     reassembler := z.reassembler, delivered := z.delivered, peerClosed := z.peerClosed,
                     trace := x.trace.(fed := z.trace.fed))
    requires FeedOk(z.reassembler, z.delivered, z.trace.fed)
    requires OrderOk(y.trace.log, z.rcvNext, z.trace.fed)
    requires ClosedOk(y.trace.log, z.rcvNext, z.peerClosed)
    ensures Around(z, y)
  {
    hide LogOk, FlightOk, WireOk, QueueOk, FinOk, BufferOk, FeedOk, MessagesOk, OrderOk, ClosedOk, WindowOk, HasFin;
    WireLater(x.outbox, x.trace.log, x.rcvNext, z.rcvNext, x.window);
    WindowLater(y.trace.log, y.trace.passive, x.rcvNext, z.rcvNext, x.window);
    BufferRemove(y.trace.log, x.recvBuffer, x.rcvNext, x.window);
  }

  lemma DrainOneKeeps(x: Core, y: Core, clock: Clock)
    requires Around(x, y) && Synced(x) && LogOk(y.trace.log) && x.rcvNext in x.recvBuffer
    ensures var z := DrainOne(x, clock);
            && Around(z, y) && Synced(z) && z.rcvNext == x.rcvNext + 1
            && z.recvBuffer == x.recvBuffer - {x.rcvNext} && z.window == x.window
  {
    hide Around, OrderOk, FeedOk, LogOk, HasFin, EmitFin, Local, Link, ClosedOk;
    NextIsLogged(x, y);
    var k, f, now := x.rcvNext, x.recvBuffer[x.rcvNext], clock(x.rcvNext);
    if f.flags.fin {
      FinKeeps(x, y);
      var p := x.(rcvNext := k + 1, recvBuffer := x.recvBuffer - {k}, peerClosed := true);
      if x.state == Established {
        EmitFinKeeps(p, y, true);
        EmitFinReceiver(p, true);
        EmitFinSynced(p, true);
      }
    } else if f.data != [] {
      OrderNext(y.trace.log, k, x.trace.fed, x.trace.fed + [Input(f.data, now)]);
      FeedNext(x.reassembler, x.delivered, x.trace.fed, Input(f.data, now));
      AdvanceKeeps(x, y, DrainOne(x, clock));
    } else {
      OrderNext(y.trace.log, k, x.trace.fed, x.trace.fed);
      AdvanceKeeps(x, y, DrainOne(x, clock));
    }
  }

  /** Processing the peer's FIN: nothing of the peer's is left to come. */
  lemma FinKeeps(x: Core, y: Core)
    requires Around(x, y) && Synced(x) && LogOk(y.trace.log) && x.rcvNext in x.recvBuffer
    requires x.recvBuffer[x.rcvNext].flags.fin
    ensures Around(x.(rcvNext := x.rcvNext + 1, recvBuffer := x.recvBuffer - {x.rcvNext}, peerClosed := true), y)
  {
    hide Around, OrderOk, FeedOk, LogOk, HasFin;
    NextIsLogged(x, y);
    OrderNext(y.trace.log, x.rcvNext, x.trace.fed, x.trace.fed);
    AdvanceKeeps(x, y, x.(rcvNext := x.rcvNext + 1, recvBuffer := x.recvBuffer - {x.rcvNext}, peerClosed := true));
  }

  lemma EmitFinSynced(x: Core, passive: bool)
    ensures Synced(EmitFin(x, passive)) && EmitFin(x, passive).window == x.window
  {
  }

  /** The buffered frame `x` waits for is the peer's next logged one; nothing follows a FIN. */
  lemma NextIsLogged(x: Core, y: Core)
    requires Around(x, y) && LogOk(y.trace.log) && x.rcvNext in x.recvBuffer
    ensures x.rcvNext < |y.trace.log|
    ensures var f := x.recvBuffer[x.rcvNext]; y.trace.log[x.rcvNext] == Sent(f.flags, x.rcvNext, f.data)
    ensures SentOk(y.trace.log[x.rcvNext], x.rcvNext)
    ensures y.trace.log[x.rcvNext].flags.fin ==> HasFin(y.trace.log) && x.rcvNext + 1 == |y.trace.log|
    ensures OrderOk(y.trace.log, x.rcvNext, x.trace.fed) && FeedOk(x.reassembler, x.delivered, x.trace.fed)
    ensures ClosedOk(y.trace.log, x.rcvNext + 1, x.recvBuffer[x.rcvNext].flags.fin)
    ensures !x.recvBuffer[x.rcvNext].flags.fin ==> !x.peerClosed
  {
    hide Local, OrderOk, WindowOk;
    FeedOfLocal(x);
  }

  lemma FeedOfLocal(x: Core)
    requires Local(x)
    ensures FeedOk(x.reassembler, x.delivered, x.trace.fed)
  {
    hide FeedOk;
  }

  lemma {:induction false} DrainKeeps(x: Core, y: Core, clock: Clock)
    requires Around(x, y) && Synced(x) && LogOk(y.trace.log)
    ensures var z := Drain(x, clock);
            && Around(z, y) && Synced(z) && Settled(z) && z.rcvNext >= x.rcvNext && z.window == x.window
            && (x.rcvNext in x.recvBuffer ==> z.rcvNext > x.rcvNext)
    decreases |x.recvBuffer|
  {
    hide Around, LogOk, Synced, DrainOne;
    if x.rcvNext in x.recvBuffer {
      DrainOneKeeps(x, y, clock);
      DrainOneShrinks(x, clock);
      DrainKeeps(DrainOne(x, clock), y, clock);
    }
  }

  lemma BufferKeeps(x: Core, y: Core, f: Frame)
    requires Around(x, y) && Synced(x) && From(y, f) && ConsumesSeq(f)
    requires x.rcvNext <= f.seqno < x.rcvNext + x.window
    ensures Around(x.(recvBuffer := x.recvBuffer[f.seqno := f]), y)
  {
    hide LogOk, FlightOk, WireOk, QueueOk, FinOk, FeedOk, MessagesOk, OrderOk, ClosedOk, WindowOk, HasFin;
  }

  /** What delivery of one frame does: it stays within the invariant, and the awaited frame moves it on. */
  lemma DeliverKeeps(x: Core, y: Core, f: Frame, clock: Clock)
    requires Around(x, y) && Synced(x) && Settled(x) && LogOk(y.trace.log) && From(y, f)
    ensures var z := Deliver(x, f, clock);
            && Around(z, y) && Synced(z) && Settled(z) && z.rcvNext >= x.rcvNext && z.window == x.window
            && (ConsumesSeq(f) && f.seqno == x.rcvNext && x.window >= 1 ==> z.rcvNext > x.rcvNext)
  {
    hide Around, LogOk, Drain;
    if !ConsumesSeq(f) {
    } else if f.seqno < x.rcvNext || f.seqno in x.recvBuffer || f.seqno >= x.rcvNext + x.window {
      PureAckKeeps(x, y);
    } else {
      BufferKeeps(x, y, f);
      var b := x.(recvBuffer := x.recvBuffer[f.seqno := f]);
      DrainKeeps(b, y, clock);
      PureAckKeeps(Drain(b, clock), y);
    }
  }

  // ---- on_frame, and any step at all

  lemma HandleKeeps(x: Core, y: Core, f: Frame, clock: Clock)
    requires Around(x, y) && !x.dead && Settled(x) && LogOk(y.trace.log)
    requires From(y, f) && !f.flags.rst && x.peerWindow == y.window
    ensures Around(Handle(x, f, clock), y) && Settled(Handle(x, f, clock))
  {
    hide Around, LogOk, Deliver, Pump, From;
    if x.state == Closed {
      if f.flags.syn {
        EmptyBuffer(x, y);
        JoinAsResponder(x, y, f);
      }
    } else if x.state == SynSent {
      EmptyBuffer(x, y);
      if f.flags.syn && f.flags.ack {
        JoinAsInitiator(x, y, f);
        PureAckKeeps(Join(x, f.seqno), y);
        PumpKeeps(EmitPureAck(Join(x, f.seqno)), y);
      } else if f.flags.syn {
        JoinAsResponder(x, y, f);
      }
    } else {
      DeliverKeeps(x, y, f, clock);
      var d := Deliver(x, f, clock);
      SyncedIsAlive(d, y);
      PumpKeeps(d, y);
    }
  }

  lemma EmptyBuffer(x: Core, y: Core)
    requires Around(x, y) && !x.dead && !Synced(x)
    ensures x.recvBuffer == map[]
  {
    hide LogOk, FlightOk, WireOk, QueueOk, FinOk, BufferOk, FeedOk, MessagesOk, Link, HasFin;
  }

  lemma SyncedIsAlive(x: Core, y: Core)
    requires Around(x, y) && Synced(x)
    ensures !x.dead
  {
    hide LogOk, FlightOk, WireOk, QueueOk, FinOk, BufferOk, FeedOk, MessagesOk, Link, HasFin;
  }

  lemma OnFrameKeeps(x: Core, y: Core, f: Frame, clock: Clock)
    requires Around(x, y) && !x.dead && Settled(x) && LogOk(y.trace.log)
    requires WireFrameOk(f, y.trace.log, y.rcvNext, y.window)
    ensures Around(OnFrame(x, f, clock), y) && Settled(OnFrame(x, f, clock))
  {
    hide Around, LogOk, Handle, Ack;
    AckKeeps(x, y, f);
    HandleKeeps(Ack(x, f.ackNum).(peerWindow := f.window), y, f, clock);
  }

  /** The bytes are a frame the peer emitted whose counters fit the wire's fields. */
  ghost predicate OnWire(y: Core, raw: seq<byte>)
  {
    exists f :: f in y.outbox && Representable(f) && raw == Serialize(f)
  }

  /** What a step may do: a frame received is one the peer has emitted, now or ever before. */
  ghost predicate Enabled(y: Core, op: Op)
  {
    && (op.DoSend? ==> Fragmentable(op.message.payload, MAX_CHUNK_PAYLOAD))
    && (op.DoReceive? ==> OnWire(y, op.raw))
  }

  lemma ReceivedFrame(y: Core, raw: seq<byte>)
    requires OnWire(y, raw) && WireOk(y.outbox, y.trace.log, y.rcvNext, y.window)
    ensures Parse(raw).Some? && Parse(raw).value in y.outbox
    ensures WireFrameOk(Parse(raw).value, y.trace.log, y.rcvNext, y.window)
  {
    hide Serialize, Parse, Representable, WireFrameOk;
    var f :| f in y.outbox && Representable(f) && raw == Serialize(f);
    ParseSerialize(f);
  }

  lemma ApplyKeeps(x: Core, y: Core, op: Op)
    requires Around(x, y) && Settled(x) && Local(y) && Enabled(y, op)
    ensures Acceptable(op)
    ensures Around(Apply(x, op), y) && Settled(Apply(x, op))
  {
    hide Around, Link, Serialize, Parse, Fragmentable, LogOk, FlightOk, WireOk, QueueOk, FinOk, BufferOk, FeedOk,
        MessagesOk;
    hide OnFrame, Pump, SendMessage, Close, Connect, OnTimeout;
    if op.DoReceive? {
      ReceivedFrame(y, op.raw);
    }
    if !x.dead {
      match op
      case DoConnect =>
        ConnectKeeps(x, y);
        ConnectReceiver(x);
      case DoSend(m) => SendKeeps(x, y, m);
      case DoClose => CloseKeeps(x, y);
      case DoTimeout => TimeoutKeeps(x, y);
      case DoReceive(raw, clock) => OnFrameKeeps(x, y, Parse(raw).value, clock);
    }
  }

  lemma ConnectReceiver(x: Core)
    ensures Connect(x).recvBuffer == x.recvBuffer && Connect(x).rcvNext == x.rcvNext
  {
  }
}
