/** Opening a channel from either side or from both, and the two ways it ends without a FIN. */
module ChannelHandshake {
  import opened ChannelFrames
  import opened Fragments
  import opened ReassemblyOrder
  import opened ChannelCore
  import opened ChannelInvariant
  import opened ChannelSteps
  import opened ChannelNetwork
  import opened ChannelProgress
  import opened ChannelDrain

  // ---- The first SYN

  /** The frame a new core opens with. */
  function Syn(window: nat): Frame
  {
    Frame(SYN, 0, window, 0, [])
  }

  lemma ConnectSendsSyn(window: nat)
    ensures var c := Connect(New(window));
            && c.state == SynSent && c.outbox == [Syn(window)] && c.unacked == [Sent(SYN, 0, [])] && c.sendNext == 1
            && c.peerWindow == DEFAULT_WINDOW && c.window == window && !c.dead
  {
  }

  /** A core waiting for an answer has its SYN on the wire. */
  ghost predicate SynOut(c: Core)
  {
    c.state == SynSent ==> Syn(c.window) in c.outbox
  }

  ghost predicate Grows(c: Core, z: Core)
  {
    c.outbox <= z.outbox && z.window == c.window && (z.state == SynSent ==> c.state == SynSent)
  }

  lemma {:induction false} PumpGrows(c: Core)
    ensures Grows(c, Pump(c))
  {
    PumpDataWire(c, SendLimit(c));
  }

  lemma DrainOneGrows(c: Core, clock: Clock)
    requires c.rcvNext in c.recvBuffer
    ensures Grows(c, DrainOne(c, clock))
  {
  }

  lemma {:induction false} DrainGrows(c: Core, clock: Clock)
    ensures Grows(c, Drain(c, clock))
    decreases |c.recvBuffer|
  {
    if c.rcvNext in c.recvBuffer {
      hide DrainOne;
      DrainOneShrinks(c, clock);
      DrainOneGrows(c, clock);
      DrainGrows(DrainOne(c, clock), clock);
    }
  }

  lemma DeliverGrows(c: Core, f: Frame, clock: Clock)
    ensures Grows(c, Deliver(c, f, clock))
  {
    hide Drain;
    DrainGrows(c.(recvBuffer := c.recvBuffer[f.seqno := f]), clock);
  }

  lemma FrameGrows(c: Core, f: Frame, clock: Clock)
    ensures Grows(c, OnFrame(c, f, clock))
  {
    hide Deliver, Pump, Grows, DropAcked;
    var a := Ack(c, f.ackNum).(peerWindow := f.window);
    AckGrows(c, f.ackNum, f.window);
    if f.flags.rst {
      TeardownGrows(a);
    } else if Synced(a) {
      DeliverGrows(a, f, clock);
      PumpGrows(Deliver(a, f, clock));
      GrowsOn(a, Deliver(a, f, clock), Pump(Deliver(a, f, clock)));
    } else {
      JoinGrows(a, f.seqno);
      PumpGrows(EmitPureAck(Join(a, f.seqno)));
      GrowsOn(a, EmitPureAck(Join(a, f.seqno)), Pump(EmitPureAck(Join(a, f.seqno))));
    }
    GrowsOn(c, a, OnFrame(c, f, clock));
  }

  lemma GrowsOn(c: Core, d: Core, z: Core)
    ensures Grows(c, d) && Grows(d, z) ==> Grows(c, z)
    ensures Grows(c, c) && Grows(d, d)
  {
  }

  lemma AckGrows(c: Core, ackNum: nat, window: nat)
    ensures Grows(c, Ack(c, ackNum).(peerWindow := window))
  {
    hide DropAcked;
  }

  lemma TeardownGrows(c: Core)
    ensures Grows(c, Teardown(c.(peerClosed := true)))
  {
  }

  lemma JoinGrows(c: Core, seqno: nat)
    ensures Grows(c, EmitPureAck(Join(c, seqno))) && Grows(c, EmitNext(Join(c, seqno), SYN_ACK, []))
  {
  }

  lemma GrowthKeepsSyn(c: Core, z: Core)
    requires SynOut(c) && Grows(c, z)
    ensures SynOut(z)
  {
  }

  lemma TimeoutGrows(c: Core)
    ensures Grows(c, OnTimeout(c))
  {
    hide Retransmit;
    RetransmitReceiver(c.(retries := c.retries + 1, trace := c.trace.(rounds := c.trace.rounds + 1)), c.unacked);
  }

  lemma EnqueueGrows(c: Core, m: Message)
    requires Fragmentable(m.payload, MAX_CHUNK_PAYLOAD)
    ensures Grows(c, SendMessage(c, m))
  {
    hide Pump, Fragment;
    PumpGrows(Enqueue(c, m));
  }

  lemma CloseGrows(c: Core)
    ensures Grows(c, Close(c))
  {
    hide Pump;
    PumpGrows(c.(closing := true));
  }

  lemma ApplyKeepsSyn(c: Core, op: Op)
    requires SynOut(c) && Acceptable(op) && StateOk(c) && FlightOk(c.trace.log, c.unacked, c.sendNext)
    ensures SynOut(Apply(c, op))
  {
    if !c.dead && !op.DoConnect? {
      hide OnFrame, SendMessage, Close, OnTimeout, Connect, Fragmentable, Parse, SynOut, Grows, StateOk, FlightOk;
      match op
      case DoSend(m) => EnqueueGrows(c, m);
      case DoClose => CloseGrows(c);
      case DoTimeout => TimeoutGrows(c);
      case DoReceive(raw, clock) => FrameGrows(c, Parse(raw).value, clock);
      GrowthKeepsSyn(c, Apply(c, op));
    } else {
      FreshSyn(c);
    }
  }

  lemma FreshSyn(c: Core)
    requires SynOut(c)
    ensures c.sendNext == 0 && c.rcvNext == 0 ==> SynOut(Connect(c))
    ensures c.state != Closed ==> SynOut(Connect(c))
  {
  }

  lemma {:induction false} RunHasSyns(windowA: nat, windowB: nat, steps: seq<Step>)
    requires Legal(Start(windowA, windowB), steps)
    ensures var net := Exec(Start(windowA, windowB), steps); SynOut(net.a) && SynOut(net.b)
  {
    if steps != [] {
      hide Apply, SynOut, Acceptable, Start, Enabled;
      RunHasSyns(windowA, windowB, steps[..|steps| - 1]);
      RunKeepsInv(windowA, windowB, steps[..|steps| - 1]);
      var before, last := Exec(Start(windowA, windowB), steps[..|steps| - 1]), steps[|steps| - 1];
      hide Exec, Legal;
      if Acceptable(last.op) {
        var c := if last.byA then before.a else before.b;
        LocalState(c, if last.byA then before.b else before.a);
        ApplyKeepsSyn(c, last.op);
      }
    }
  }

  lemma LocalState(x: Core, y: Core)
    requires Around(x, y)
    ensures StateOk(x) && FlightOk(x.trace.log, x.unacked, x.sendNext)
  {
    hide StateOk, FlightOk, LogOk, WireOk, QueueOk, FinOk, BufferOk, FeedOk, MessagesOk, Link;
  }

  lemma ReachableSyn(s: Core, r: Core)
    requires Reachable(s, r)
    ensures SynOut(s) && SynOut(r)
  {
    hide Exec, Legal, Start, SynOut;
    var windowA, windowB, steps :|
      && Legal(Start(windowA, windowB), steps)
      && (Exec(Start(windowA, windowB), steps) == Net(s, r) || Exec(Start(windowA, windowB), steps) == Net(r, s));
    RunHasSyns(windowA, windowB, steps);
  }

  // ---- What the two ends look like before they are connected

  /** Its SYN is its only frame, and it has heard nothing. */
  ghost predicate Opening(c: Core)
  {
    && c.state == SynSent && !c.dead && c.sendNext == 1 && c.unacked == [Sent(SYN, 0, [])] && c.rcvNext == 0
    && c.recvBuffer == map[] && Syn(c.window) in c.outbox
  }

  ghost predicate Idle(c: Core)
  {
    && c.state == Closed && !c.dead && c.sendNext == 0 && c.unacked == [] && c.rcvNext == 0 && c.recvBuffer == map[]
    && c.outbox == []
  }

  lemma UnconnectedEnds(s: Core, r: Core)
    requires Reachable(s, r) && s.state == SynSent && (r.state == SynSent || (r.state == Closed && !r.dead))
    ensures Opening(s) && (r.state == SynSent ==> Opening(r)) && (r.state == Closed ==> Idle(r))
  {
    hide Reachable, Around, Settled;
    ReachableInv(s, r);
    ReachableSyn(s, r);
    LocalState(s, r);
    LocalState(r, s);
    RoundFacts(s, r);
    if r.state == SynSent {
      RoundFacts(r, s);
    }
  }

  ghost predicate NoSynInFlight(c: Core)
  {
    forall u :: u in c.unacked ==> !u.flags.syn
  }

  lemma {:induction false} PumpDataNoSyn(c: Core, limit: nat)
    requires NoSynInFlight(c)
    ensures NoSynInFlight(PumpData(c, limit))
    decreases |c.sendQueue|
  {
    if c.sendQueue != [] && |c.unacked| < limit {
      PumpDataNoSyn(EmitNext(c.(sendQueue := c.sendQueue[1..]), ACK, c.sendQueue[0]), limit);
    }
  }

  /** Connected: established, or closed again at once because it was told to close before. */
  ghost predicate Connected(c: Core, z: Core)
  {
    Synced(z) && (!c.closing ==> z.state == Established)
  }

  lemma PumpConnects(c: Core)
    requires c.state == Established
    ensures Connected(c, Pump(c)) && (NoSynInFlight(c) ==> NoSynInFlight(Pump(c)))
    ensures Grows(c, Pump(c)) && Pump(c).rcvNext == c.rcvNext && Pump(c).recvBuffer == c.recvBuffer
    ensures Pump(c).dead == c.dead && Pump(c).closing ==> c.closing
  {
    PumpGrows(c);
    PumpWire(c);
    PumpDataFills(c, SendLimit(c));
    PumpDataReceiver(c, SendLimit(c));
    if NoSynInFlight(c) { PumpDataNoSyn(c, SendLimit(c)); }
  }

  lemma {:induction false} PumpDataReceiver(c: Core, limit: nat)
    ensures PumpData(c, limit).recvBuffer == c.recvBuffer && PumpData(c, limit).rcvNext == c.rcvNext
    decreases |c.sendQueue|
  {
    if c.sendQueue != [] && |c.unacked| < limit {
      PumpDataReceiver(EmitNext(c.(sendQueue := c.sendQueue[1..]), ACK, c.sendQueue[0]), limit);
    }
  }

  // ---- One side opens

  function SynAck(window: nat, seqno: nat): Frame
  {
    Frame(SYN_ACK, 1, window, seqno, [])
  }

  /** The SYN is answered: the responder is established, past the SYN, with its SYN-ACK on the wire and in flight. */
  lemma SynIsAnswered(r: Core, window: nat, clock: Clock)
    requires Idle(r)
    ensures var z := OnFrame(r, Syn(window), clock);
            && z == r.(state := Established, justEstablished := true, rcvNext := 1, peerWindow := window, sendNext := 1,
                       unacked := [Sent(SYN_ACK, 0, [])], outbox := [SynAck(r.window, 0)], trace := z.trace)
  {
  }

  lemma DropOnly(u: Sent, ackNum: nat)
    ensures DropAcked([u], ackNum) == if u.seqno < ackNum then [] else [u]
  {
    assert [u][1..] == [];
  }

  /** The SYN-ACK is answered: the initiator is connected, past it, its SYN is acknowledged, and its ACK is out. */
  lemma SynAckIsAnswered(s: Core, window: nat, clock: Clock)
    requires Opening(s)
    ensures var z := OnFrame(s, SynAck(window, 0), clock);
            && Connected(s, z) && z.rcvNext == 1 && NoSynInFlight(z) && Frame(ACK, 1, s.window, 1, []) in z.outbox
  {
    DropOnly(Sent(SYN, 0, []), 1);
    var a := Ack(s, 1).(peerWindow := window);
    var j := EmitPureAck(Join(a, 0));
    hide Pump;
    PumpConnects(j);
    assert j.outbox[|s.outbox|] == Frame(ACK, 1, s.window, 1, []);
  }

  /** The ACK completes it: the responder's SYN-ACK is acknowledged too. */
  lemma AckIsTaken(r: Core, window: nat, clock: Clock)
    requires r.state == Established && r.unacked == [Sent(SYN_ACK, 0, [])] && r.sendNext == 1
    ensures var z := OnFrame(r, Frame(ACK, 1, window, 1, []), clock); Connected(r, z) && NoSynInFlight(z)
  {
    DropOnly(Sent(SYN_ACK, 0, []), 1);
    var a := Ack(r, 1).(peerWindow := window);
    hide Pump;
    PumpConnects(a);
  }

  /** From any run in which one end has sent its SYN and the other is idle: SYN, SYN-ACK and ACK, each delivered once,
      leave both ends connected, each past the other's SYN, and no SYN in flight. */
  lemma HandshakeCompletes(s: Core, r: Core, clock: Clock)
    requires Reachable(s, r) && s.state == SynSent && r.state == Closed && !r.dead
    ensures Syn(s.window) in s.outbox
    ensures var r1 := OnFrame(r, Syn(s.window), clock);
            && r1.state == Established && r1.rcvNext == 1 && r1.unacked == [Sent(SYN_ACK, 0, [])]
            && SynAck(r.window, 0) in r1.outbox
            && var s1 := OnFrame(s, SynAck(r.window, 0), clock);
            && Connected(s, s1) && s1.rcvNext == 1 && NoSynInFlight(s1) && Frame(ACK, 1, s.window, 1, []) in s1.outbox
            && var r2 := OnFrame(r1, Frame(ACK, 1, s.window, 1, []), clock);
            && Connected(r, r2) && r2.rcvNext == 1 && NoSynInFlight(r2)
  {
    hide Reachable;
    UnconnectedEnds(s, r);
    hide OnFrame;
    SynIsAnswered(r, s.window, clock);
    SynAckIsAnswered(s, r.window, clock);
    var r1 := OnFrame(r, Syn(s.window), clock);
    AckIsTaken(r1, s.window, clock);
    AckStays(r1, s.window, clock);
  }

  lemma AckStays(r: Core, window: nat, clock: Clock)
    requires r.state == Established
    ensures OnFrame(r, Frame(ACK, 1, window, 1, []), clock).rcvNext == r.rcvNext
  {
    hide Pump, DropAcked;
    PumpConnects(Ack(r, 1).(peerWindow := window));
  }

  // ---- Both sides open at once

  /** A SYN that crosses our own is answered with a SYN-ACK that follows it. */
  lemma CrossedSynIsAnswered(s: Core, window: nat, clock: Clock)
    requires Opening(s)
    ensures var z := OnFrame(s, Syn(window), clock);
            && z == s.(state := Established, justEstablished := true, rcvNext := 1, peerWindow := window, sendNext := 2,
                       unacked := [Sent(SYN, 0, []), Sent(SYN_ACK, 1, [])], outbox := s.outbox + [SynAck(s.window, 1)],
                       trace := z.trace)
  {
    DropOnly(Sent(SYN, 0, []), 0);
    assert [Sent(SYN, 0, [])] + [Sent(SYN_ACK, 1, [])] == [Sent(SYN, 0, []), Sent(SYN_ACK, 1, [])];
  }

  /** The two frames an end has in flight after crossed SYNs. */
  ghost predicate Crossed(c: Core)
  {
    && c.state == Established && c.rcvNext == 1 && c.recvBuffer == map[] && c.sendNext == 2 && !c.dead
    && c.unacked == [Sent(SYN, 0, []), Sent(SYN_ACK, 1, [])]
  }

  /** The peer's SYN-ACK is processed and acknowledged, and acknowledges our SYN. */
  lemma CrossedSynAck(s: Core, window: nat, clock: Clock)
    requires Crossed(s) && s.window >= 1
    ensures var z := OnFrame(s, SynAck(window, 1), clock);
            && Connected(s, z) && z.rcvNext == 2
            && (exists seqno :: Frame(ACK, 2, s.window, seqno, []) in z.outbox)
            && (forall u :: u in z.unacked && u.flags.syn ==> u == Sent(SYN_ACK, 1, []))
            && (z.unacked != [] && z.unacked[0] == Sent(SYN_ACK, 1, []) && z.sendNext >= 2)
            && (forall i :: 1 <= i < |z.unacked| ==> !z.unacked[i].flags.syn)
  {
    var f := SynAck(window, 1);
    var a := Ack(s, 1).(peerWindow := window);
    assert [Sent(SYN, 0, []), Sent(SYN_ACK, 1, [])][1..] == [Sent(SYN_ACK, 1, [])];
    DropOnly(Sent(SYN_ACK, 1, []), 1);
    assert a.unacked == [Sent(SYN_ACK, 1, [])];
    var b := a.(recvBuffer := a.recvBuffer[1 := f]);
    DrainSyn(b, f, clock);
    var d := EmitPureAck(Drain(b, clock));
    assert Deliver(a, f, clock) == d;
    assert Frame(ACK, 2, s.window, 2, []) in d.outbox;
    hide Pump, Deliver, Drain, Ack;
    PumpConnects(d);
    PumpTail(d);
  }

  lemma DrainSyn(b: Core, f: Frame, clock: Clock)
    requires b.rcvNext == 1 && b.recvBuffer == map[1 := f] && !f.flags.fin && f.data == []
    ensures Drain(b, clock) == b.(rcvNext := 2, recvBuffer := map[])
  {
    var n := DrainOne(b, clock);
    assert b.recvBuffer - {1} == map[];
    assert n == b.(rcvNext := 2, recvBuffer := map[]);
    DrainOneShrinks(b, clock);
    assert Drain(n, clock) == n;
  }

  /** Pumping appends to the flight, and appends no SYN. */
  lemma PumpTail(c: Core)
    ensures var z := Pump(c);
            && c.unacked <= z.unacked && z.sendNext >= c.sendNext
            && forall i :: |c.unacked| <= i < |z.unacked| ==> !z.unacked[i].flags.syn
  {
    PumpDataTail(c, SendLimit(c));
  }

  lemma {:induction false} PumpDataTail(c: Core, limit: nat)
    ensures var z := PumpData(c, limit);
            && c.unacked <= z.unacked && z.sendNext >= c.sendNext
            && forall i :: |c.unacked| <= i < |z.unacked| ==> !z.unacked[i].flags.syn
    decreases |c.sendQueue|
  {
    if c.sendQueue != [] && |c.unacked| < limit {
      PumpDataTail(EmitNext(c.(sendQueue := c.sendQueue[1..]), ACK, c.sendQueue[0]), limit);
    }
  }

  /** The acknowledgement of our SYN-ACK leaves no SYN in flight. */
  lemma CrossedAck(s: Core, ack: Frame, clock: Clock)
    requires Synced(s) && s.unacked != [] && s.unacked[0] == Sent(SYN_ACK, 1, []) && s.sendNext >= 2
    requires forall i :: 1 <= i < |s.unacked| ==> !s.unacked[i].flags.syn
    requires ack.flags == ACK && ack.data == [] && ack.ackNum == 2
    ensures var z := OnFrame(s, ack, clock); Connected(s, z) || s.state == FinSent
    ensures NoSynInFlight(OnFrame(s, ack, clock)) && Synced(OnFrame(s, ack, clock))
  {
    var a := Ack(s, 2).(peerWindow := ack.window);
    DropSuffix(s.unacked[1..], 2);
    assert NoSynInFlight(a) by {
      forall u | u in a.unacked ensures !u.flags.syn {
        assert u in s.unacked[1..];
      }
    }
    hide Pump, Ack;
    if a.state == Established { PumpConnects(a); }
  }

  lemma {:induction false} DropSuffix(unacked: seq<Sent>, ackNum: nat)
    ensures forall u :: u in DropAcked(unacked, ackNum) ==> u in unacked
  {
    if unacked != [] {
      DropSuffix(unacked[1..], ackNum);
    }
  }

  /** From any run in which both ends have sent their SYNs: when the SYNs cross, then the SYN-ACKs, then the ACKs of
      those, both ends are connected, past each other's SYNs, with no SYN in flight. */
  lemma CrossedHandshakeCompletes(s: Core, r: Core, clock: Clock, ackS: Frame, ackR: Frame)
    requires Reachable(s, r) && s.state == SynSent && r.state == SynSent && s.window >= 1 && r.window >= 1
    requires ackS.flags == ackR.flags == ACK && ackS.data == ackR.data == [] && ackS.ackNum == ackR.ackNum == 2
    ensures Syn(s.window) in s.outbox && Syn(r.window) in r.outbox
    ensures var s1, r1 := OnFrame(s, Syn(r.window), clock), OnFrame(r, Syn(s.window), clock);
            && SynAck(s.window, 1) in s1.outbox && SynAck(r.window, 1) in r1.outbox
            && var s2, r2 := OnFrame(s1, SynAck(r.window, 1), clock), OnFrame(r1, SynAck(s.window, 1), clock);
            && (exists n :: Frame(ACK, 2, s.window, n, []) in s2.outbox)
            && (exists n :: Frame(ACK, 2, r.window, n, []) in r2.outbox)
            && Connected(s, s2) && Connected(r, r2) && s2.rcvNext == r2.rcvNext == 2
            && NoSynInFlight(OnFrame(s2, ackR, clock)) && Synced(OnFrame(s2, ackR, clock))
            && NoSynInFlight(OnFrame(r2, ackS, clock)) && Synced(OnFrame(r2, ackS, clock))
  {
    hide Reachable;
    UnconnectedEnds(s, r);
    hide OnFrame;
    CrossedSynIsAnswered(s, r.window, clock);
    CrossedSynIsAnswered(r, s.window, clock);
    var s1, r1 := OnFrame(s, Syn(r.window), clock), OnFrame(r, Syn(s.window), clock);
    CrossedSynAck(s1, r.window, clock);
    CrossedSynAck(r1, s.window, clock);
    CrossedAck(OnFrame(s1, SynAck(r.window, 1), clock), ackR, clock);
    CrossedAck(OnFrame(r1, SynAck(s.window, 1), clock), ackS, clock);
  }

  // ---- Endings without a FIN

  /** A reset ends a live channel at once, whatever it was doing: nothing is sent, kept or retried. */
  lemma ResetEnds(c: Core, f: Frame, clock: Clock)
    requires f.flags.rst
    ensures var z := OnFrame(c, f, clock);
            && z.dead && z.peerClosed && z.state == Closed && z.unacked == [] && z.sendQueue == []
            && z.outbox == c.outbox && z.delivered == c.delivered
  {
    hide DropAcked;
  }

  ghost function Timeouts(c: Core, n: nat): Core
  {
    if n == 0 then c else OnTimeout(Timeouts(c, n - 1))
  }

  /** How many frames `n` rounds of `k` frames are. */
  function Frames(n: nat, k: nat): nat
  {
    if n == 0 then 0 else Frames(n - 1, k) + k
  }

  /** A peer that never answers: every timeout sends the whole flight once more, ten times in a row, and the next one
      gives up. */
  lemma {:induction false} GivesUp(c: Core, n: nat)
    requires c.unacked != [] && c.retries <= MAX_RETRIES && !c.dead
    ensures var z := Timeouts(c, n);
            if n <= MAX_RETRIES - c.retries
            then z.unacked == c.unacked && z.sendQueue == c.sendQueue && z.state == c.state && !z.dead
                 && z.retries == c.retries + n && |z.outbox| == |c.outbox| + Frames(n, |c.unacked|)
            else z.dead && z.state == Closed && z.unacked == [] && z.sendQueue == [] && z.retries == MAX_RETRIES
                 && |z.outbox| == |c.outbox| + Frames(MAX_RETRIES - c.retries, |c.unacked|)
  {
    hide OnTimeout;
    if n > 0 {
      GivesUp(c, n - 1);
      OneTimeout(Timeouts(c, n - 1));
    }
  }

  lemma OneTimeout(c: Core)
    requires c.retries <= MAX_RETRIES
    ensures var z := OnTimeout(c);
            if c.unacked == [] then z == c
            else if c.retries == MAX_RETRIES then z == Teardown(c)
            else z == c.(retries := c.retries + 1, outbox := z.outbox, trace := z.trace)
                 && |z.outbox| == |c.outbox| + |c.unacked|
  {
    RetransmitReceiver(c.(retries := c.retries + 1, trace := c.trace.(rounds := c.trace.rounds + 1)), c.unacked);
  }
}
