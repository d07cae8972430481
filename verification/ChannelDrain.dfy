/** Round after round with nothing lost, an established sender empties its queue and every message is delivered. */
module ChannelDrain {
  import opened ChannelFrames
  import opened Fragments
  import opened ReassemblyOrder
  import opened ChannelCore
  import opened ChannelInvariant
  import opened ChannelSteps
  import opened ChannelNetwork
  import opened ChannelProgress

  // ---- An established end with anything left to send has something in flight

  ghost predicate Busy(c: Core)
  {
    c.state == Established && (c.sendQueue != [] || c.closing) ==> c.unacked != []
  }

  lemma {:induction false} PumpDataFills(c: Core, limit: nat)
    ensures var z := PumpData(c, limit);
            && (z.sendQueue == [] || |z.unacked| >= limit) && |z.unacked| >= |c.unacked|
                 && |z.sendQueue| <= |c.sendQueue|
            && z.state == c.state && z.closing == c.closing && z.retries == c.retries
            && z.trace.messages == c.trace.messages && z.dead == c.dead
    decreases |c.sendQueue|
  {
    if c.sendQueue != [] && |c.unacked| < limit {
      PumpDataFills(EmitNext(c.(sendQueue := c.sendQueue[1..]), ACK, c.sendQueue[0]), limit);
    }
  }

  lemma PumpIsBusy(c: Core)
    requires c.state == Established || Busy(c)
    ensures Busy(Pump(c))
  {
    PumpDataFills(c, SendLimit(c));
  }

  lemma FrameKeepsBusy(c: Core, f: Frame, clock: Clock)
    requires Busy(c)
    ensures Busy(OnFrame(c, f, clock))
  {
    hide Ack, Deliver, Pump, EmitPureAck;
    var a := Ack(c, f.ackNum).(peerWindow := f.window);
    AckKeepsState(c, f.ackNum);
    if !f.flags.rst {
      match a.state
      case Closed =>
      case SynSent =>
        if f.flags.syn && f.flags.ack {
          PureAckKeepsState(Join(a, f.seqno));
          PumpIsBusy(EmitPureAck(Join(a, f.seqno)));
        }
      case Established => PumpEither(Deliver(a, f, clock));
      case FinSent => PumpEither(Deliver(a, f, clock));
    }
  }

  lemma AckKeepsState(c: Core, ackNum: nat)
    ensures Ack(c, ackNum).state == c.state
  {
  }

  lemma PureAckKeepsState(c: Core)
    ensures EmitPureAck(c).state == c.state
  {
  }

  /** Pumping an established end makes it busy, and any other end is left in a state that need not be. */
  lemma PumpEither(c: Core)
    ensures Busy(Pump(c))
  {
    if c.state == Established { PumpIsBusy(c); }
  }

  lemma ApplyKeepsBusy(c: Core, op: Op)
    requires Busy(c) && Acceptable(op)
    ensures Busy(Apply(c, op))
  {
    hide OnFrame, Pump, Enqueue, Fragmentable, Parse;
    if !c.dead {
      match op
      case DoConnect =>
      case DoSend(m) => PumpEither(Enqueue(c, m));
      case DoClose => PumpEither(c.(closing := true));
      case DoTimeout =>
        RetransmitReceiver(c.(retries := c.retries + 1, trace := c.trace.(rounds := c.trace.rounds + 1)), c.unacked);
      case DoReceive(raw, clock) => FrameKeepsBusy(c, Parse(raw).value, clock);
    }
  }

  lemma {:induction false} RunIsBusy(windowA: nat, windowB: nat, steps: seq<Step>)
    ensures var net := Exec(Start(windowA, windowB), steps); Busy(net.a) && Busy(net.b)
  {
    if steps != [] {
      hide Apply, Busy, Acceptable, Start;
      RunIsBusy(windowA, windowB, steps[..|steps| - 1]);
      var before, last := Exec(Start(windowA, windowB), steps[..|steps| - 1]), steps[|steps| - 1];
      if Acceptable(last.op) {
        ApplyKeepsBusy(if last.byA then before.a else before.b, last.op);
      }
    }
  }

  lemma ReachableIsBusy(s: Core, r: Core)
    requires Reachable(s, r)
    ensures Busy(s)
  {
    hide Exec, Legal, Start, Busy;
    var windowA, windowB, steps :|
      && Legal(Start(windowA, windowB), steps)
      && (Exec(Start(windowA, windowB), steps) == Net(s, r) || Exec(Start(windowA, windowB), steps) == Net(r, s));
    RunIsBusy(windowA, windowB, steps);
  }

  // ---- One round and its acknowledgement

  ghost function ReturningAck(r: Core): (f: Frame)
    requires AckOut(r)
    ensures f in r.outbox && f.flags == ACK && f.ackNum == r.rcvNext && f.window == r.window && f.data == []
  {
    var seqno :| Frame(ACK, r.rcvNext, r.window, seqno, []) in r.outbox;
    Frame(ACK, r.rcvNext, r.window, seqno, [])
  }

  /** The timer fires, its frames arrive in order, and the last acknowledgement gets back. No timer runs when nothing is
      in flight. */
  ghost function Exchange(s: Core, r: Core, clock: Clock): (Core, Core)
  {
    if s.unacked == [] then (s, r)
    else
      var t, z := OnTimeout(s), DeliverAll(r, Round(s), clock);
      (if AckOut(z) then OnFrame(t, ReturningAck(z), clock) else t, z)
  }

  /** What is left to do: chunks to send, and perhaps a FIN. */
  ghost function Weight(s: Core): nat
  {
    |s.sendQueue| + if s.closing then 1 else 0
  }

  /** Established, or with its FIN out and nothing behind it. */
  ghost predicate Able(s: Core)
  {
    s.state == Established || (s.state == FinSent && Weight(s) == 0)
  }

  /** Told to close, or closed already. */
  ghost predicate Ending(s: Core)
  {
    s.closing || s.state == FinSent
  }

  /** An end that has seen its peer's FIN has sent its own. */
  ghost predicate Answered(c: Core)
  {
    c.peerClosed ==> c.state == FinSent || c.dead
  }

  ghost predicate Sending(s: Core, r: Core)
  {
    && NetInv(Net(s, r)) && Able(s) && s.retries < MAX_RETRIES && Busy(s)
    && Synced(r) && r.window >= 1 && Answered(r)
  }

  lemma TimeoutShape(s: Core)
    requires s.unacked != [] && s.retries < MAX_RETRIES
    ensures var t := OnTimeout(s);
            && t == s.(retries := t.retries, trace := t.trace, outbox := t.outbox)
            && t.trace.messages == s.trace.messages && t.trace.log == s.trace.log && Round(t) == Round(s)
  {
    RetransmitReceiver(s.(retries := s.retries + 1, trace := s.trace.(rounds := s.trace.rounds + 1)), s.unacked);
  }

  lemma Swap(x: Core, y: Core)
    requires Around(x, y) && Local(y)
    ensures Around(y, x)
  {
    hide Local, Link;
  }

  /** The receiving half: everything in flight is processed, and said to be. */
  lemma ReceivingHalf(s: Core, r: Core, clock: Clock)
    requires Sending(s, r) && s.unacked != []
    ensures var t, z := OnTimeout(s), DeliverAll(r, Round(s), clock);
            && NetInv(Net(t, z)) && AckOut(z) && z.rcvNext == s.sendNext && Synced(z) && z.window == r.window
            && t.sendNext == s.sendNext && Answered(z)
  {
    hide Around, OnTimeout, Round, AckOut, DeliverAll, Synced, Settled, Busy, Answered, Able;
    AnsweredAll(s, r, |Round(s)|, clock) by { Alive(s, r); }
    assert Round(s)[..|Round(s)|] == Round(s);
    var t := OnTimeout(s);
    TimeoutShape(s);
    TimeoutKeeps(s, r) by { Alive(s, r); }
    SettledShape(s, t);
    Locals(s, r);
    Swap(t, r);
    RoundFacts(t, r) by { Alive(s, r); }
    RoundArrives(t, r, |t.unacked|, clock) by { Alive(s, r); }
    assert Round(t)[..|t.unacked|] == Round(t);
    var z := DeliverAll(r, Round(s), clock);
    NeverAhead(z, t);
    Locals(t, r);
    Swap(z, t);
  }

  lemma Alive(s: Core, r: Core)
    requires Sending(s, r)
    ensures !s.dead
  {
    SyncedIsAlive(s, r);
  }

  lemma SettledShape(s: Core, t: Core)
    requires Settled(s) && t.rcvNext == s.rcvNext && t.recvBuffer == s.recvBuffer
    ensures Settled(t)
  {
  }

  lemma Locals(s: Core, r: Core)
    requires Around(s, r)
    ensures Local(s) && (Around(r, s) ==> Local(r))
  {
    hide Local, Link;
  }

  // ---- A FIN is answered

  lemma {:induction false} DrainKeepsAnswered(c: Core, clock: Clock)
    requires Answered(c) && (Synced(c) || c.dead)
    ensures Answered(Drain(c, clock)) && (Synced(Drain(c, clock)) || c.dead) && Drain(c, clock).dead == c.dead
    decreases |c.recvBuffer|
  {
    if c.rcvNext in c.recvBuffer {
      DrainOneShrinks(c, clock);
      DrainKeepsAnswered(DrainOne(c, clock), clock);
    }
  }

  lemma PumpKeepsAnswered(c: Core)
    requires Answered(c)
    ensures Answered(Pump(c))
  {
    PumpDataFills(c, SendLimit(c));
    PumpDataSees(c, SendLimit(c));
  }

  lemma {:induction false} PumpDataSees(c: Core, limit: nat)
    ensures PumpData(c, limit).peerClosed == c.peerClosed
    decreases |c.sendQueue|
  {
    if c.sendQueue != [] && |c.unacked| < limit {
      PumpDataSees(EmitNext(c.(sendQueue := c.sendQueue[1..]), ACK, c.sendQueue[0]), limit);
    }
  }

  lemma FrameKeepsAnswered(c: Core, f: Frame, clock: Clock)
    requires Answered(c) && !c.dead
    ensures Answered(OnFrame(c, f, clock))
  {
    hide Drain, Pump, DropAcked;
    var a := Ack(c, f.ackNum).(peerWindow := f.window);
    if !f.flags.rst {
      if Synced(a) {
        DrainKeepsAnswered(a.(recvBuffer := a.recvBuffer[f.seqno := f]), clock);
        PumpKeepsAnswered(Deliver(a, f, clock));
      } else if a.state == SynSent && f.flags.syn && f.flags.ack {
        PumpKeepsAnswered(EmitPureAck(Join(a, f.seqno)));
      }
    }
  }

  lemma ApplyKeepsAnswered(c: Core, op: Op)
    requires Answered(c) && Acceptable(op)
    ensures Answered(Apply(c, op))
  {
    hide OnFrame, Pump, Fragmentable, Parse, Fragment;
    if !c.dead {
      match op
      case DoConnect =>
      case DoSend(m) => PumpKeepsAnswered(Enqueue(c, m));
      case DoClose => PumpKeepsAnswered(c.(closing := true));
      case DoTimeout =>
        RetransmitReceiver(c.(retries := c.retries + 1, trace := c.trace.(rounds := c.trace.rounds + 1)), c.unacked);
      case DoReceive(raw, clock) => FrameKeepsAnswered(c, Parse(raw).value, clock);
    }
  }

  lemma {:induction false} RunIsAnswered(windowA: nat, windowB: nat, steps: seq<Step>)
    ensures var net := Exec(Start(windowA, windowB), steps); Answered(net.a) && Answered(net.b)
  {
    if steps != [] {
      hide Apply, Answered, Acceptable, Start;
      RunIsAnswered(windowA, windowB, steps[..|steps| - 1]);
      var before, last := Exec(Start(windowA, windowB), steps[..|steps| - 1]), steps[|steps| - 1];
      if Acceptable(last.op) {
        ApplyKeepsAnswered(if last.byA then before.a else before.b, last.op);
      }
    }
  }

  /** In every run, a live end that has seen its peer's FIN has sent its own. */
  lemma FinIsAnswered(s: Core, r: Core)
    requires Reachable(s, r)
    ensures Answered(r)
  {
    hide Exec, Legal, Start, Answered;
    var windowA, windowB, steps :|
      && Legal(Start(windowA, windowB), steps)
      && (Exec(Start(windowA, windowB), steps) == Net(s, r) || Exec(Start(windowA, windowB), steps) == Net(r, s));
    RunIsAnswered(windowA, windowB, steps);
  }

  lemma {:induction false} AnsweredAll(s: Core, r: Core, n: nat, clock: Clock)
    requires NetInv(Net(s, r)) && Synced(r) && r.window >= 1 && !s.dead && Answered(r) && n <= |Round(s)|
    ensures Answered(DeliverAll(r, Round(s)[..n], clock))
  {
    hide Around, OnFrame, Round, DeliverAll, Settled, Answered, Synced;
    if n == 0 {
      DeliverNone(r, Round(s)[..0], clock);
    } else {
      AnsweredAll(s, r, n - 1, clock);
      RoundArrives(s, r, n - 1, clock);
      var z := DeliverAll(r, Round(s)[..n - 1], clock);
      SyncedIsAlive(z, s);
      DeliverOneMore(r, Round(s), n, clock);
      FrameKeepsAnswered(z, Round(s)[n - 1], clock);
    }
  }

  /** The sending half: the acknowledgement empties the flight, and then at least one more frame follows, if there is
      any to follow. */
  lemma SendingHalf(t: Core, z: Core, clock: Clock)
    requires NetInv(Net(t, z)) && Able(t) && t.unacked != []
    requires AckOut(z) && z.rcvNext == t.sendNext && z.window >= 1
    ensures var u := OnFrame(t, ReturningAck(z), clock);
            && NetInv(Net(u, z)) && Able(u) && u.retries == 0 && Busy(u) && (Ending(u) <==> Ending(t))
            && u.trace.messages == t.trace.messages
            && (if Weight(t) == 0 then Weight(u) == 0 && u.unacked == [] else Weight(u) < Weight(t))
  {
    var ack := ReturningAck(z);
    hide AckOut, ReturningAck;
    AckedKeeps(t, z, ack, clock);
    AckedShape(t, z, ack, clock);
  }

  lemma AckedKeeps(t: Core, z: Core, ack: Frame, clock: Clock)
    requires NetInv(Net(t, z)) && Able(t) && ack in z.outbox
    ensures NetInv(Net(OnFrame(t, ack, clock), z))
  {
    hide Around, OnFrame, LogOk, WireFrameOk, Settled;
    SyncedIsAlive(t, z);
    OutFrame(z, t, ack);
    OnFrameKeeps(t, z, ack, clock);
    Locals(t, z);
    Swap(OnFrame(t, ack, clock), z);
  }

  lemma OutFrame(z: Core, t: Core, f: Frame)
    requires Around(z, t) && f in z.outbox
    ensures LogOk(z.trace.log) && WireFrameOk(f, z.trace.log, z.rcvNext, z.window)
  {
    hide LogOk, WireFrameOk, FlightOk, StateOk, QueueOk, FinOk, BufferOk, FeedOk, MessagesOk, Link;
  }

  lemma AckedShape(t: Core, z: Core, ack: Frame, clock: Clock)
    requires NetInv(Net(t, z)) && Able(t) && t.unacked != []
    requires ack.flags == ACK && ack.data == [] && ack.ackNum == t.sendNext && ack.window >= 1
    ensures var u := OnFrame(t, ack, clock);
            && Able(u) && u.retries == 0 && Busy(u) && (Ending(u) <==> Ending(t))
            && u.trace.messages == t.trace.messages
            && (if Weight(t) == 0 then Weight(u) == 0 && u.unacked == [] else Weight(u) < Weight(t))
  {
    FlightOf(t, z);
    hide NetInv, LogOk, PumpData;
    AckEffect(t, ack.ackNum);
    var a := Ack(t, ack.ackNum).(peerWindow := ack.window);
    hide Ack;
    assert OnFrame(t, ack, clock) == Pump(a);
    PumpOne(a, SendLimit(a));
    PumpDataFills(a, SendLimit(a));
  }

  lemma FlightOf(t: Core, z: Core)
    requires NetInv(Net(t, z))
    ensures LogOk(t.trace.log) && FlightOk(t.trace.log, t.unacked, t.sendNext)
  {
    hide NetInv, LogOk, WireOk, QueueOk, FinOk, MessagesOk, BufferOk, FeedOk, OrderOk, ClosedOk, WindowOk;
    NetFacts(t, z);
  }

  /** With nothing in flight and a window, pumping takes at least the first chunk. */
  lemma PumpOne(c: Core, limit: nat)
    requires c.unacked == [] && limit >= 1
    ensures var z := PumpData(c, limit);
            && z.state == c.state && z.closing == c.closing && z.retries == c.retries
                 && z.trace.messages == c.trace.messages
            && (if c.sendQueue == [] then z == c else |z.sendQueue| < |c.sendQueue| && z.unacked != [])
  {
    if c.sendQueue != [] {
      PumpDataFills(EmitNext(c.(sendQueue := c.sendQueue[1..]), ACK, c.sendQueue[0]), limit);
    }
  }

  // ---- Round after round

  ghost function Rounds(s: Core, r: Core, clock: Clock, n: nat): (Core, Core)
    decreases n
  {
    if n == 0 then (s, r)
    else
      var (t, z) := Exchange(s, r, clock);
      Rounds(t, z, clock, n - 1)
  }

  lemma ExchangeDrains(s: Core, r: Core, clock: Clock)
    requires Sending(s, r)
    ensures var (t, z) := Exchange(s, r, clock);
            && Sending(t, z) && t.trace.messages == s.trace.messages && (Ending(t) <==> Ending(s))
            && (if Weight(s) == 0 then Weight(t) == 0 && t.unacked == [] else Weight(t) < Weight(s))
  {
    if s.unacked != [] {
      ReceivingHalf(s, r, clock);
      TimeoutShape(s);
      hide NetInv, OnTimeout, AckOut, DeliverAll, Round, OnFrame, Busy, Answered;
      SendingHalf(OnTimeout(s), DeliverAll(r, Round(s), clock), clock);
    }
  }

  lemma {:induction false} RoundsDrain(s: Core, r: Core, clock: Clock, n: nat)
    requires Sending(s, r)
    ensures var (t, z) := Rounds(s, r, clock, n);
            && Sending(t, z) && t.trace.messages == s.trace.messages && (Ending(t) <==> Ending(s))
            && (n > Weight(s) ==> Weight(t) == 0 && t.unacked == [])
    decreases n
  {
    hide Sending, Exchange, Ending;
    if n > 0 {
      ExchangeDrains(s, r, clock);
      var (t, z) := Exchange(s, r, clock);
      RoundsDrain(t, z, clock, n - 1);
      if n == 1 && Weight(s) == 0 {
        assert Rounds(t, z, clock, 0) == (t, z);
      }
    }
  }

  /** A sender that is established or has only its FIN out, a peer with a window of at least 1, no further commands, and
      nothing lost: after one round more than there are chunks and FINs left to send, nothing is left and nothing is in
      flight. The peer has caught up and, if no message outlived the reassembly timeout, its application has every
      message sent. If the sender was told to close, its FIN has been seen and answered. */
  lemma QueueDrains(s: Core, r: Core, clock: Clock, n: nat)
    requires Reachable(s, r) && Able(s) && s.retries < MAX_RETRIES
    requires Synced(r) && r.window >= 1 && n > Weight(s)
    ensures var (t, z) := Rounds(s, r, clock, n);
            && t.sendQueue == [] && t.unacked == [] && !t.closing && z.rcvNext == t.sendNext
            && t.state == (if Ending(s) then FinSent else Established)
            && (Ending(s) ==> z.peerClosed && z.state == FinSent)
            && Sendable(s.trace.messages, MAX_CHUNK_PAYLOAD)
            && (Timely(s.trace.messages, MAX_CHUNK_PAYLOAD, z.trace.fed) ==> z.delivered == Payloads(s.trace.messages))
  {
    hide Reachable, NetInv, Busy, Rounds, Timely, Sendable, Answered;
    EveryMessageSendable(s, r);
    ReachableInv(s, r);
    ReachableIsBusy(s, r);
    FinIsAnswered(s, r);
    RoundsDrain(s, r, clock, n);
    var (t, z) := Rounds(s, r, clock, n);
    NothingInTheAir(t, z);
    if t.state == FinSent {
      FinSeen(t, z);
    }
    if Timely(s.trace.messages, MAX_CHUNK_PAYLOAD, z.trace.fed) {
      InvEverythingArrives(t, z);
    }
  }

  lemma NothingInTheAir(t: Core, z: Core)
    requires Sending(t, z) && t.unacked == []
    ensures !t.dead && z.rcvNext == t.sendNext
  {
    hide Around, Busy, Settled, Answered;
    SyncedIsAlive(t, z);
    RoundFacts(t, z);
  }

  lemma FinSeen(t: Core, z: Core)
    requires Sending(t, z) && t.state == FinSent && z.rcvNext == t.sendNext
    ensures z.peerClosed && z.state == FinSent
  {
    SyncedIsAlive(z, t);
    hide LogOk, WireOk, QueueOk, FinOk, BufferOk, FeedOk, MessagesOk, OrderOk, BufferedOk, WindowOk, Busy;
    assert FlightOk(t.trace.log, t.unacked, t.sendNext) && HasFin(t.trace.log);
    assert ClosedOk(t.trace.log, z.rcvNext, z.peerClosed);
  }

  // ---- Commands, carried through

  lemma ReachApply(s: Core, r: Core, op: Op)
    requires Reachable(s, r) && Enabled(r, op) && Acceptable(op)
    ensures Reachable(Apply(s, op), r)
  {
    hide Start, Apply, Enabled, Acceptable;
    var windowA, windowB, steps :|
      && Legal(Start(windowA, windowB), steps)
      && (Exec(Start(windowA, windowB), steps) == Net(s, r) || Exec(Start(windowA, windowB), steps) == Net(r, s));
    var byA := Exec(Start(windowA, windowB), steps) == Net(s, r);
    var more := steps + [Step(byA, op)];
    assert more[..|more| - 1] == steps;
    assert Legal(Start(windowA, windowB), more);
    assert Exec(Start(windowA, windowB), more) == if byA then Net(Apply(s, op), r) else Net(r, Apply(s, op));
  }

  lemma PumpIsAble(c: Core)
    requires c.state == Established
    ensures Able(Pump(c)) && (Ending(Pump(c)) <==> c.closing) && Pump(c).retries == c.retries
    ensures Pump(c).trace.messages == c.trace.messages
  {
    PumpDataFills(c, SendLimit(c));
  }

  /** A message sent on an established channel comes out at the other end, after everything sent before it. */
  lemma MessageArrives(s: Core, r: Core, m: Message, clock: Clock, n: nat)
    requires Reachable(s, r) && s.state == Established && s.retries < MAX_RETRIES && Synced(r) && r.window >= 1
    requires Fragmentable(m.payload, MAX_CHUNK_PAYLOAD) && n > Weight(SendMessage(s, m))
    ensures var z := Rounds(SendMessage(s, m), r, clock, n).1;
            && Sendable(s.trace.messages + [m], MAX_CHUNK_PAYLOAD)
            && (Timely(s.trace.messages + [m], MAX_CHUNK_PAYLOAD, z.trace.fed) ==>
                  z.delivered == Payloads(s.trace.messages) + [m.payload])
  {
    hide Pump, Rounds, Reachable, Timely, Sendable, Fragmentable, Fragment;
    Alive2(s, r);
    ReachApply(s, r, DoSend(m));
    PumpIsAble(Enqueue(s, m));
    QueueDrains(SendMessage(s, m), r, clock, n);
    assert Payloads(s.trace.messages + [m]) == Payloads(s.trace.messages) + [m.payload];
  }

  lemma Alive2(s: Core, r: Core)
    requires Reachable(s, r) && Synced(s)
    ensures !s.dead
  {
    hide Reachable, Around;
    ReachableInv(s, r);
    SyncedIsAlive(s, r);
  }

  /** A channel closed with messages still queued delivers them all, then its FIN, which is seen and answered. */
  lemma CloseCompletes(s: Core, r: Core, clock: Clock, n: nat)
    requires Reachable(s, r) && s.state == Established && s.retries < MAX_RETRIES && Synced(r) && r.window >= 1
    requires n > Weight(Close(s))
    ensures var (t, z) := Rounds(Close(s), r, clock, n);
            && t.state == FinSent && t.sendQueue == [] && t.unacked == []
            && z.peerClosed && z.state == FinSent && z.rcvNext == t.sendNext
            && Sendable(s.trace.messages, MAX_CHUNK_PAYLOAD)
            && (Timely(s.trace.messages, MAX_CHUNK_PAYLOAD, z.trace.fed) ==> z.delivered == Payloads(s.trace.messages))
  {
    hide Pump, Rounds, Reachable, Timely, Sendable;
    Alive2(s, r);
    ReachApply(s, r, DoClose);
    PumpIsAble(s.(closing := true));
    QueueDrains(Close(s), r, clock, n);
  }
}
