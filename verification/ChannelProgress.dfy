/** Retransmission: what one round achieves, and what all rounds together cost. */
module ChannelProgress {
  import Reassembly
  import opened ChannelFrames
  import opened Fragments
  import opened ChannelCore
  import opened ChannelInvariant
  import opened ChannelSteps
  import opened ChannelNetwork

  // ---- One round brings the receiver up to date

  /** A network that loses and reorders nothing: the frames arrive one after the other. */
  ghost function DeliverAll(r: Core, frames: seq<Frame>, clock: Clock): Core
  {
    if frames == [] then r else OnFrame(DeliverAll(r, frames[..|frames| - 1], clock), frames[|frames| - 1], clock)
  }

  /** What `s` puts on the wire when its timer fires. */
  ghost function Round(s: Core): (f: seq<Frame>)
    ensures |f| == |s.unacked|
  {
    seq(|s.unacked|, i requires 0 <= i < |s.unacked| =>
          Frame(s.unacked[i].flags, s.rcvNext, s.window, s.unacked[i].seqno, s.unacked[i].data))
  }

  lemma TimeoutEmitsRound(s: Core)
    requires s.unacked != [] && s.retries < MAX_RETRIES
    ensures OnTimeout(s).outbox == s.outbox + Round(s)
  {
    var c := s.(retries := s.retries + 1, trace := s.trace.(rounds := s.trace.rounds + 1));
    RetransmitReceiver(c, s.unacked);
    assert OnTimeout(s).outbox[..|s.outbox|] == s.outbox;
  }

  /** The pure ACK that says exactly how far `r` has got is on the wire. */
  ghost predicate AckOut(r: Core)
  {
    exists seqno :: Frame(ACK, r.rcvNext, r.window, seqno, []) in r.outbox
  }

  lemma {:induction false} PumpDataWire(c: Core, limit: nat)
    ensures var z := PumpData(c, limit);
            c.outbox <= z.outbox && z.rcvNext == c.rcvNext && z.window == c.window && z.state == c.state
    decreases |c.sendQueue|
  {
    if c.sendQueue != [] && |c.unacked| < limit {
      PumpDataWire(EmitNext(c.(sendQueue := c.sendQueue[1..]), ACK, c.sendQueue[0]), limit);
    }
  }

  lemma PumpWire(c: Core)
    ensures var z := Pump(c);
            && c.outbox <= z.outbox && z.rcvNext == c.rcvNext && z.window == c.window && (Synced(c) ==> Synced(z))
  {
    PumpDataWire(c, SendLimit(c));
  }

  lemma PumpKeepsAckOut(c: Core)
    requires AckOut(c)
    ensures AckOut(Pump(c))
  {
    hide Pump;
    PumpWire(c);
    var seqno :| Frame(ACK, c.rcvNext, c.window, seqno, []) in c.outbox;
    assert Frame(ACK, Pump(c).rcvNext, Pump(c).window, seqno, []) in Pump(c).outbox;
  }

  lemma PureAckIsOut(c: Core)
    ensures AckOut(EmitPureAck(c))
  {
    assert Frame(ACK, c.rcvNext, c.window, c.sendNext, []) in EmitPureAck(c).outbox;
  }

  /** One frame that is due or overdue: afterwards the receiver is past it, and has said so. */
  lemma FrameArrives(x: Core, y: Core, f: Frame, clock: Clock)
    requires Around(x, y) && Synced(x) && Settled(x) && LogOk(y.trace.log) && x.window >= 1
    requires WireFrameOk(f, y.trace.log, y.rcvNext, y.window) && ConsumesSeq(f) && f.seqno <= x.rcvNext
    ensures var z := OnFrame(x, f, clock);
            && Around(z, y) && Synced(z) && Settled(z) && z.window == x.window
            && z.rcvNext >= x.rcvNext && z.rcvNext > f.seqno && AckOut(z)
  {
    hide Around, LogOk, Ack, Drain, Pump, AckOut;
    SyncedIsAlive(x, y);
    AckKeeps(x, y, f);
    var a := Ack(x, f.ackNum).(peerWindow := f.window);
    DeliverKeeps(a, y, f, clock);
    var d := Deliver(a, f, clock);
    DeliverAcks(a, f, clock);
    SyncedIsAlive(d, y);
    PumpKeeps(d, y);
    PumpWire(d);
    PumpKeepsAckOut(d);
  }

  lemma DeliverAcks(c: Core, f: Frame, clock: Clock)
    requires ConsumesSeq(f)
    ensures AckOut(Deliver(c, f, clock))
  {
    hide AckOut, Drain, EmitPureAck;
    PureAckIsOut(c);
    PureAckIsOut(Drain(c.(recvBuffer := c.recvBuffer[f.seqno := f]), clock));
  }

  lemma RoundFrames(s: Core, i: nat)
    requires LogOk(s.trace.log) && FlightOk(s.trace.log, s.unacked, s.sendNext) && i < |s.unacked|
    ensures var f := Round(s)[i];
            && ConsumesSeq(f) && f.seqno == Base(s) + i
            && WireFrameOk(f, s.trace.log, s.rcvNext, s.window)
  {
    assert s.unacked[i] == s.trace.log[Base(s) + i];
    assert SentOk(s.trace.log[Base(s) + i], Base(s) + i);
  }

  lemma {:induction false} RoundArrives(s: Core, r: Core, n: nat, clock: Clock)
    requires Around(s, r) && Around(r, s) && Synced(r) && Settled(r) && !s.dead && r.window >= 1 && n <= |Round(s)|
    ensures var z := DeliverAll(r, Round(s)[..n], clock);
            && Around(z, s) && Synced(z) && Settled(z) && z.window == r.window
            && z.rcvNext >= Base(s) + n && (n > 0 ==> AckOut(z))
  {
    hide Around, LogOk, FlightOk, OnFrame, Round, AckOut, DeliverAll, Synced, Settled, WireFrameOk, ConsumesSeq;
    RoundFacts(s, r);
    if n == 0 {
      DeliverNone(r, Round(s)[..0], clock);
    } else {
      RoundArrives(s, r, n - 1, clock);
      RoundFrames(s, n - 1);
      DeliverOneMore(r, Round(s), n, clock);
      FrameArrives(DeliverAll(r, Round(s)[..n - 1], clock), s, Round(s)[n - 1], clock);
    }
  }

  lemma DeliverNone(r: Core, frames: seq<Frame>, clock: Clock)
    requires frames == []
    ensures DeliverAll(r, frames, clock) == r
  {
  }

  lemma DeliverOneMore(r: Core, frames: seq<Frame>, n: nat, clock: Clock)
    requires 0 < n <= |frames|
    ensures DeliverAll(r, frames[..n], clock) == OnFrame(DeliverAll(r, frames[..n - 1], clock), frames[n - 1], clock)
  {
    hide OnFrame;
    assert frames[..n][..n - 1] == frames[..n - 1];
  }

  lemma RoundFacts(s: Core, r: Core)
    requires Around(s, r) && !s.dead
    ensures LogOk(s.trace.log) && FlightOk(s.trace.log, s.unacked, s.sendNext)
    ensures Base(s) <= r.rcvNext <= |s.trace.log| == s.sendNext
  {
    hide LogOk, WireOk, QueueOk, FinOk, BufferOk, FeedOk, MessagesOk, OrderOk, BufferedOk, ClosedOk, WindowOk, StateOk;
  }

  /** Between established ends with a window of at least 1: one timeout round, delivered in order, brings the
      receiver to the sender's next sequence, and the ACK it sends back clears everything that was in flight. */
  lemma TimeoutRoundCatchesUp(s: Core, r: Core, clock: Clock)
    requires Reachable(s, r) && Synced(s) && Synced(r) && r.window >= 1
    requires s.unacked != [] && s.retries < MAX_RETRIES
    ensures OnTimeout(s).outbox == s.outbox + Round(s)
    ensures var r' := DeliverAll(r, Round(s), clock);
            && r'.rcvNext == s.sendNext
            && AckOut(r')
            && forall ack: Frame, t: Clock :: ack.ackNum == r'.rcvNext && !ConsumesSeq(ack) && !ack.flags.rst ==>
                 forall u :: u in OnFrame(OnTimeout(s), ack, t).unacked ==> u.seqno >= s.sendNext
  {
    hide Around, LogOk, FlightOk, OnFrame, Round, AckOut, Reachable, OnTimeout;
    ReachableInv(s, r);
    SyncedIsAlive(s, r);
    RoundFacts(s, r);
    TimeoutEmitsRound(s);
    RoundArrives(s, r, |s.unacked|, clock);
    var r' := DeliverAll(r, Round(s), clock);
    assert Round(s)[..|s.unacked|] == Round(s);
    NeverAhead(r', s);
    TimeoutKeepsLog(s, r);
    forall ack: Frame, t: Clock | ack.ackNum == r'.rcvNext && !ConsumesSeq(ack) && !ack.flags.rst
      ensures forall u :: u in OnFrame(OnTimeout(s), ack, t).unacked ==> u.seqno >= s.sendNext
    {
      AckClears(OnTimeout(s), ack, t);
    }
  }

  lemma NeverAhead(z: Core, s: Core)
    requires Around(z, s)
    ensures z.rcvNext <= |s.trace.log|
  {
    hide Local, OrderOk, BufferedOk, ClosedOk, WindowOk;
  }

  lemma TimeoutKeepsLog(s: Core, r: Core)
    requires Around(s, r) && Synced(s) && s.unacked != [] && s.retries < MAX_RETRIES
    ensures var t := OnTimeout(s);
            && t.trace.log == s.trace.log && t.sendNext == s.sendNext && Synced(t)
            && LogOk(t.trace.log) && FlightOk(t.trace.log, t.unacked, t.sendNext)
  {
    hide LogOk, FlightOk, WireOk, QueueOk, FinOk, BufferOk, FeedOk, MessagesOk, Link, StateOk;
    var c := s.(retries := s.retries + 1, trace := s.trace.(rounds := s.trace.rounds + 1));
    RetransmitReceiver(c, s.unacked);
  }

  lemma {:induction false} PumpDataFlight(c: Core, limit: nat, low: nat)
    requires c.sendNext >= low && forall u :: u in c.unacked ==> u.seqno >= low
    ensures var z := PumpData(c, limit); z.sendNext >= low && forall u :: u in z.unacked ==> u.seqno >= low
    decreases |c.sendQueue|
  {
    if c.sendQueue != [] && |c.unacked| < limit {
      PumpDataFlight(EmitNext(c.(sendQueue := c.sendQueue[1..]), ACK, c.sendQueue[0]), limit, low);
    }
  }

  /** A full acknowledgement empties the flight; what `pump` then sends is new. */
  lemma AckClears(c: Core, ack: Frame, clock: Clock)
    requires Synced(c) && LogOk(c.trace.log) && FlightOk(c.trace.log, c.unacked, c.sendNext)
    requires ack.ackNum == c.sendNext && !ConsumesSeq(ack) && !ack.flags.rst
    ensures forall u :: u in OnFrame(c, ack, clock).unacked ==> u.seqno >= c.sendNext
  {
    hide LogOk, Ack, PumpData;
    AckEffect(c, ack.ackNum);
    var a := Ack(c, ack.ackNum).(peerWindow := ack.window);
    PumpDataFlight(a, SendLimit(a), c.sendNext);
  }

  // ---- What retransmission costs

  /** At most ten rounds for each frame acknowledged, plus those of the frame being waited for. */
  ghost predicate CostOk(c: Core)
  {
    && |c.unacked| <= c.sendNext
    && c.retries <= MAX_RETRIES
    && c.trace.rounds <= MAX_RETRIES * (c.sendNext - |c.unacked|) + c.retries
  }

  lemma {:induction false} DropAckedLength(unacked: seq<Sent>, ackNum: nat)
    ensures |DropAcked(unacked, ackNum)| <= |unacked|
  {
    if unacked != [] && unacked[0].seqno < ackNum {
      DropAckedLength(unacked[1..], ackNum);
    }
  }

  lemma {:induction false} PumpDataCost(c: Core, limit: nat)
    requires CostOk(c)
    ensures CostOk(PumpData(c, limit))
    decreases |c.sendQueue|
  {
    if c.sendQueue != [] && |c.unacked| < limit {
      PumpDataCost(EmitNext(c.(sendQueue := c.sendQueue[1..]), ACK, c.sendQueue[0]), limit);
    }
  }

  lemma PumpCost(c: Core)
    requires CostOk(c)
    ensures CostOk(Pump(c))
  {
    PumpDataCost(c, SendLimit(c));
  }

  lemma DrainOneCost(c: Core, clock: Clock)
    requires CostOk(c) && c.rcvNext in c.recvBuffer
    ensures CostOk(DrainOne(c, clock))
  {
    hide Reassembly.Feed, CostOk;
    var k := c.rcvNext;
    var z := c.(rcvNext := k + 1, recvBuffer := c.recvBuffer - {k});
    SameCost(c, z);
    SameCost(z, z.(peerClosed := true));
    EmitFinCost(z.(peerClosed := true), true);
    if !c.recvBuffer[k].flags.fin {
      SameCost(z, DrainOne(c, clock));
    }
  }

  lemma SameCost(c: Core, z: Core)
    requires CostOk(c) && z.unacked == c.unacked && z.sendNext == c.sendNext && z.retries == c.retries
    requires z.trace.rounds == c.trace.rounds
    ensures CostOk(z)
  {
  }

  lemma EmitFinCost(c: Core, passive: bool)
    requires CostOk(c)
    ensures CostOk(EmitFin(c, passive))
  {
  }

  lemma {:induction false} DrainCost(c: Core, clock: Clock)
    requires CostOk(c)
    ensures CostOk(Drain(c, clock))
    decreases |c.recvBuffer|
  {
    hide CostOk, DrainOne;
    if c.rcvNext in c.recvBuffer {
      DrainOneShrinks(c, clock);
      DrainOneCost(c, clock);
      DrainCost(DrainOne(c, clock), clock);
    }
  }

  lemma AckCost(c: Core, ackNum: nat)
    requires CostOk(c)
    ensures CostOk(Ack(c, ackNum))
  {
    hide DropAcked;
    DropAckedLength(c.unacked, if ackNum < c.sendNext then ackNum else c.sendNext);
  }

  lemma DeliverCost(c: Core, f: Frame, clock: Clock)
    requires CostOk(c)
    ensures CostOk(Deliver(c, f, clock))
  {
    hide Drain;
    DrainCost(c.(recvBuffer := c.recvBuffer[f.seqno := f]), clock);
  }

  lemma HandleCost(c: Core, f: Frame, clock: Clock)
    requires CostOk(c)
    ensures CostOk(Handle(c, f, clock))
  {
    hide Pump, Deliver;
    PumpCost(EmitPureAck(Join(c, f.seqno)));
    DeliverCost(c, f, clock);
    PumpCost(Deliver(c, f, clock));
  }

  lemma OnFrameCost(c: Core, f: Frame, clock: Clock)
    requires CostOk(c)
    ensures CostOk(OnFrame(c, f, clock))
  {
    hide Ack, Handle;
    AckCost(c, f.ackNum);
    HandleCost(Ack(c, f.ackNum).(peerWindow := f.window), f, clock);
  }

  lemma ApplyCost(c: Core, op: Op)
    requires CostOk(c) && Acceptable(op)
    ensures CostOk(Apply(c, op))
  {
    hide Pump, OnFrame, Parse, Fragment;
    match op
    case DoConnect =>
    case DoSend(m) => PumpCost(Enqueue(c, m));
    case DoClose => PumpCost(c.(closing := true));
    case DoTimeout =>
      RetransmitReceiver(c.(retries := c.retries + 1, trace := c.trace.(rounds := c.trace.rounds + 1)), c.unacked);
    case DoReceive(raw, clock) => OnFrameCost(c, Parse(raw).value, clock);
  }

  ghost function ApplyAll(c: Core, ops: seq<Op>): Core
    requires forall op :: op in ops ==> Acceptable(op)
  {
    if ops == [] then c else Apply(ApplyAll(c, ops[..|ops| - 1]), ops[|ops| - 1])
  }

  /** Whatever a core is asked to do and whatever frames it is given, forged ones included. */
  lemma {:induction false} RetransmissionCost(window: nat, ops: seq<Op>)
    requires forall op :: op in ops ==> Acceptable(op)
    ensures CostOk(ApplyAll(New(window), ops))
  {
    hide Apply, Acceptable;
    if ops != [] {
      RetransmissionCost(window, ops[..|ops| - 1]);
      ApplyCost(ApplyAll(New(window), ops[..|ops| - 1]), ops[|ops| - 1]);
    }
  }
}
