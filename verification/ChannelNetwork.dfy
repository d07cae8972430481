/** Two cores and a network that may lose, duplicate, delay and reorder anything either has emitted. */
module ChannelNetwork {
  import Reassembly
  import opened ChannelFrames
  import opened Fragments
  import opened ReassemblyInvariant
  import opened ReassemblyOrder
  import opened ReassemblyTheorems
  import opened ChannelCore
  import opened ChannelInvariant
  import opened ChannelSteps

  datatype Net = Net(a: Core, b: Core)

  datatype Step = Step(byA: bool, op: Op)

  ghost function Next(net: Net, step: Step): Net
  {
    if !Acceptable(step.op) then net
    else if step.byA then net.(a := Apply(net.a, step.op))
    else net.(b := Apply(net.b, step.op))
  }

  ghost function Exec(net: Net, steps: seq<Step>): Net
  {
    if steps == [] then net else Next(Exec(net, steps[..|steps| - 1]), steps[|steps| - 1])
  }

  /** Every step was possible when it was taken. */
  ghost predicate Legal(net: Net, steps: seq<Step>)
  {
    steps == [] ||
    var before, last := Exec(net, steps[..|steps| - 1]), steps[|steps| - 1];
    Legal(net, steps[..|steps| - 1]) && Enabled(if last.byA then before.b else before.a, last.op)
  }

  ghost function Start(windowA: nat, windowB: nat): Net
  {
    Net(New(windowA), New(windowB))
  }

  ghost predicate NetInv(net: Net)
  {
    Around(net.a, net.b) && Around(net.b, net.a) && Settled(net.a) && Settled(net.b)
  }

  lemma NewLocal(window: nat)
    ensures Local(New(window)) && Settled(New(window))
  {
  }

  lemma NewLink(windowA: nat, windowB: nat)
    ensures Link(New(windowA), New(windowB))
  {
  }

  lemma NextKeeps(x: Core, y: Core, op: Op)
    requires Around(x, y) && Around(y, x) && Settled(x) && Settled(y) && Enabled(y, op)
    ensures Acceptable(op)
    ensures var z := Apply(x, op); Around(z, y) && Around(y, z) && Settled(z)
  {
    hide Local, Link, Apply, Acceptable, Enabled;
    ApplyKeeps(x, y, op);
  }

  /** The invariant of both directions holds in every state of every run. */
  lemma {:induction false} RunKeepsInv(windowA: nat, windowB: nat, steps: seq<Step>)
    requires Legal(Start(windowA, windowB), steps)
    ensures NetInv(Exec(Start(windowA, windowB), steps))
  {
    hide Local, Link, Apply, Acceptable, Enabled, New;
    if steps == [] {
      NewLocal(windowA);
      NewLocal(windowB);
      NewLink(windowA, windowB);
      NewLink(windowB, windowA);
    } else {
      var n := |steps| - 1;
      RunKeepsInv(windowA, windowB, steps[..n]);
      var before := Exec(Start(windowA, windowB), steps[..n]);
      if steps[n].byA {
        NextKeeps(before.a, before.b, steps[n].op);
      } else {
        NextKeeps(before.b, before.a, steps[n].op);
      }
    }
  }

  /** `s` and `r` are the two ends of some run, in either role. */
  ghost predicate Reachable(s: Core, r: Core)
  {
    exists windowA, windowB, steps ::
      && Legal(Start(windowA, windowB), steps)
      && (Exec(Start(windowA, windowB), steps) == Net(s, r) || Exec(Start(windowA, windowB), steps) == Net(r, s))
  }

  lemma ReachableInv(s: Core, r: Core)
    requires Reachable(s, r)
    ensures NetInv(Net(s, r))
  {
    hide Around, Exec, Legal, Start, Settled;
    var windowA, windowB, steps :|
      && Legal(Start(windowA, windowB), steps)
      && (Exec(Start(windowA, windowB), steps) == Net(s, r) || Exec(Start(windowA, windowB), steps) == Net(r, s));
    RunKeepsInv(windowA, windowB, steps);
  }

  /** What the invariant says about sender `s` and receiver `r`, clause by clause. */
  lemma NetFacts(s: Core, r: Core)
    requires NetInv(Net(s, r))
    ensures LogOk(s.trace.log) && FlightOk(s.trace.log, s.unacked, s.sendNext)
    ensures WireOk(s.outbox, s.trace.log, s.rcvNext, s.window)
    ensures QueueOk(s.trace.log, s.trace.queued, s.sendQueue, s.dead)
    ensures FinOk(s.trace.log, s.trace.queued, s.trace.finMark, s.trace.passive)
    ensures MessagesOk(s.trace.messages, s.trace.queued)
    ensures BufferOk(r.recvBuffer, r.rcvNext, r.window) && Settled(r)
    ensures FeedOk(r.reassembler, r.delivered, r.trace.fed)
    ensures ProgressOk(s, r) && OrderOk(s.trace.log, r.rcvNext, r.trace.fed)
    ensures ClosedOk(s.trace.log, r.rcvNext, r.peerClosed)
    ensures WindowOk(s.trace.log, s.trace.passive, r.rcvNext, r.window)
  {
    hide LogOk, FlightOk, WireOk, QueueOk, FinOk, FeedOk, MessagesOk, BufferOk, StateOk, BufferedOk;
    hide ClosedOk, WindowOk, OrderOk, Settled;
  }

  // ---- Ordered delivery, nothing lost

  /** The chunks fed to the receiver's reassembler are a prefix, in order and without repeats, of the chunks
      the sender turned into data frames, which are a prefix of those it was asked to send. */
  lemma OrderedDelivery(s: Core, r: Core)
    requires Reachable(s, r)
    ensures r.rcvNext <= s.sendNext == |s.trace.log|
    ensures Raws(r.trace.fed) == DataOf(s.trace.log[..r.rcvNext])
    ensures Raws(r.trace.fed) <= DataOf(s.trace.log) <= s.trace.queued
  {
    hide Reachable, NetInv;
    ReachableInv(s, r);
    InvOrdered(s, r);
  }

  lemma InvOrdered(s: Core, r: Core)
    requires NetInv(Net(s, r))
    ensures r.rcvNext <= s.sendNext == |s.trace.log|
    ensures Raws(r.trace.fed) == DataOf(s.trace.log[..r.rcvNext])
    ensures Raws(r.trace.fed) <= DataOf(s.trace.log) <= s.trace.queued
  {
    hide NetInv, LogOk, WireOk, FinOk, FeedOk, MessagesOk, BufferOk, ClosedOk, WindowOk, DataOf;
    NetFacts(s, r);
    DataOfPrefix(s.trace.log, r.rcvNext);
  }

  lemma {:induction false} DataOfConcat(a: seq<Sent>, b: seq<Sent>)
    ensures DataOf(a + b) == DataOf(a) + DataOf(b)
    decreases |b|, 1
  {
    if b == [] {
      assert a + b == a;
    } else {
      DataOfConcatSnoc(a, b[..|b| - 1], b[|b| - 1]);
      assert b == b[..|b| - 1] + [b[|b| - 1]];
    }
  }

  lemma {:induction false} DataOfConcatSnoc(a: seq<Sent>, b: seq<Sent>, s: Sent)
    ensures DataOf(a + (b + [s])) == DataOf(a) + DataOf(b + [s])
    decreases |b| + 1, 0
  {
    hide DataOf;
    DataOfConcat(a, b);
    DataOfSnoc(b, s);
    DataOfSnoc(a + b, s);
    assert a + (b + [s]) == (a + b) + [s];
  }

  /** Before teardown every queued chunk is in exactly one place: processed by the peer, in flight, or queued. */
  lemma NothingLost(s: Core, r: Core)
    requires Reachable(s, r) && !s.dead
    ensures 0 <= Base(s) <= r.rcvNext <= s.sendNext == |s.trace.log|
    ensures s.unacked == s.trace.log[Base(s)..]
    ensures s.trace.queued == Raws(r.trace.fed) + DataOf(s.trace.log[r.rcvNext..]) + s.sendQueue
    ensures s.trace.log[r.rcvNext..] == s.unacked[r.rcvNext - Base(s)..]
  {
    hide Reachable, NetInv, DataOf;
    ReachableInv(s, r);
    InvNothingLost(s, r);
  }

  lemma InvNothingLost(s: Core, r: Core)
    requires NetInv(Net(s, r)) && !s.dead
    ensures 0 <= Base(s) <= r.rcvNext <= s.sendNext == |s.trace.log|
    ensures s.unacked == s.trace.log[Base(s)..]
    ensures s.trace.queued == Raws(r.trace.fed) + DataOf(s.trace.log[r.rcvNext..]) + s.sendQueue
    ensures s.trace.log[r.rcvNext..] == s.unacked[r.rcvNext - Base(s)..]
  {
    hide NetInv, LogOk, WireOk, FinOk, FeedOk, MessagesOk, BufferOk, ClosedOk, WindowOk, DataOf;
    NetFacts(s, r);
    var n := r.rcvNext;
    assert s.trace.log == s.trace.log[..n] + s.trace.log[n..];
    DataOfConcat(s.trace.log[..n], s.trace.log[n..]);
  }

  // ---- The window

  lemma {:induction false} IntervalCard(s: set<nat>, low: nat, n: nat)
    requires forall k :: k in s ==> low <= k < low + n
    ensures |s| <= n
    decreases n
  {
    if n == 0 {
      assert s == {};
    } else {
      IntervalCard(s - {low + n - 1}, low, n - 1);
    }
  }

  /** With a window of at least 1, no data frame and no active FIN is ever beyond the receiver's window. */
  lemma WithinWindow(s: Core, r: Core, f: Frame)
    requires Reachable(s, r) && r.window >= 1
    requires f in s.outbox && (f.data != [] || (f.flags.fin && !s.trace.passive))
    ensures f.seqno < r.rcvNext + r.window
  {
    hide Reachable, NetInv, LogOk, FlightOk, QueueOk, FinOk, FeedOk, MessagesOk, BufferOk, ClosedOk, OrderOk;
    ReachableInv(s, r);
    NetFacts(s, r);
    assert WireFrameOk(f, s.trace.log, s.rcvNext, s.window);
    assert Pumped(s.trace.log[f.seqno], s.trace.passive);
  }

  /** The reorder buffer holds fewer frames than the window. */
  lemma ReorderBufferBound(s: Core, r: Core)
    requires Reachable(s, r)
    ensures r.window == 0 ==> r.recvBuffer == map[]
    ensures r.window >= 1 ==> |r.recvBuffer| < r.window
  {
    hide Reachable, NetInv, LogOk, FlightOk, WireOk, QueueOk, FinOk, FeedOk, MessagesOk, ClosedOk, OrderOk, WindowOk;
    ReachableInv(s, r);
    NetFacts(s, r);
    if r.window >= 1 {
      IntervalCard(r.recvBuffer.Keys, r.rcvNext + 1, r.window - 1);
    }
  }

  // ---- Closing

  /** A side that has seen the peer's FIN has processed every data frame the peer emitted; if that FIN came from
      an active close, every chunk queued before it. */
  lemma FinMeansAllProcessed(s: Core, r: Core)
    requires Reachable(s, r) && r.peerClosed
    ensures HasFin(s.trace.log) && r.rcvNext == s.sendNext
    ensures Raws(r.trace.fed) == DataOf(s.trace.log)
    ensures !s.trace.passive ==>
              s.trace.finMark <= |s.trace.queued| && Raws(r.trace.fed) == s.trace.queued[..s.trace.finMark]
  {
    hide Reachable, NetInv, LogOk, WireOk, QueueOk, FeedOk, MessagesOk, BufferOk, WindowOk, DataOf;
    ReachableInv(s, r);
    NetFacts(s, r);
    assert s.trace.log[..r.rcvNext] == s.trace.log;
  }

  // ---- End to end

  lemma EveryMessageSendable(s: Core, r: Core)
    requires Reachable(s, r)
    ensures Sendable(s.trace.messages, MAX_CHUNK_PAYLOAD)
  {
    hide Reachable, NetInv, LogOk, FlightOk, WireOk, QueueOk, FinOk, FeedOk, BufferOk, ClosedOk, OrderOk, WindowOk;
    ReachableInv(s, r);
    NetFacts(s, r);
  }

  /** No message was still incomplete at the receiver when the reassembly timeout had passed. */
  ghost predicate TimelyArrival(s: Core, r: Core)
    requires Reachable(s, r)
  {
    EveryMessageSendable(s, r);
    Timely(s.trace.messages, MAX_CHUNK_PAYLOAD, r.trace.fed)
  }

  /** The messages the receiver's application got are exactly those completed by the chunks processed so far,
      in the order sent. */
  lemma EndToEnd(s: Core, r: Core)
    requires Reachable(s, r) && TimelyArrival(s, r)
    ensures Sendable(s.trace.messages, MAX_CHUNK_PAYLOAD)
    ensures r.delivered
         == Payloads(s.trace.messages)[..Completed(s.trace.messages, MAX_CHUNK_PAYLOAD, |r.trace.fed|)]
    ensures r.delivered <= Payloads(s.trace.messages)
  {
    hide Reachable, NetInv, Timely, Completed, Sendable;
    EveryMessageSendable(s, r);
    ReachableInv(s, r);
    InvEndToEnd(s, r);
  }

  lemma InvEndToEnd(s: Core, r: Core)
    requires NetInv(Net(s, r)) && Sendable(s.trace.messages, MAX_CHUNK_PAYLOAD)
    requires Timely(s.trace.messages, MAX_CHUNK_PAYLOAD, r.trace.fed)
    ensures r.delivered
         == Payloads(s.trace.messages)[..Completed(s.trace.messages, MAX_CHUNK_PAYLOAD, |r.trace.fed|)]
  {
    hide NetInv, LogOk, FlightOk, WireOk, FinOk, BufferOk, OrderOk, ClosedOk, WindowOk, QueueOk;
    hide DataOf, Chunks, Timely, Completed, Holding, FeedAll, Given, Sendable;
    NetFacts(s, r);
    InvOrdered(s, r);
    var any := Message([0, 0, 0, 0, 0, 0, 0, 0, 0, 0, 0, 0, 0, 0, 0, 0], []);
    FreshHolds(any.payload, MAX_CHUNK_PAYLOAD, any.fid, 0);
    InOrderReassembly(Reassembly.ForChunkSize(MAX_CHUNK_PAYLOAD), s.trace.messages, MAX_CHUNK_PAYLOAD, r.trace.fed,
        any, 0);
  }

  lemma {:induction false} AllCompleted(msgs: seq<Message>, size: nat)
    requires Sendable(msgs, size)
    ensures Completed(msgs, size, |Chunks(msgs, size)|) == |msgs|
  {
    hide Fragment, Fragmentable, PieceCount;
    if msgs != [] {
      AllCompleted(msgs[1..], size);
    }
  }

  /** Once the queue is empty and the peer has caught up, every message sent has been delivered. */
  lemma EverythingArrives(s: Core, r: Core)
    requires Reachable(s, r) && TimelyArrival(s, r)
    requires !s.dead && s.sendQueue == [] && r.rcvNext == s.sendNext
    ensures r.delivered == Payloads(s.trace.messages)
  {
    hide Reachable, NetInv, Timely, Sendable;
    EveryMessageSendable(s, r);
    ReachableInv(s, r);
    InvEverythingArrives(s, r);
  }

  lemma InvEverythingArrives(s: Core, r: Core)
    requires NetInv(Net(s, r)) && Sendable(s.trace.messages, MAX_CHUNK_PAYLOAD)
    requires Timely(s.trace.messages, MAX_CHUNK_PAYLOAD, r.trace.fed)
    requires !s.dead && s.sendQueue == [] && r.rcvNext == s.sendNext
    ensures r.delivered == Payloads(s.trace.messages)
  {
    hide NetInv, LogOk, FlightOk, WireOk, FinOk, FeedOk, BufferOk, OrderOk, ClosedOk, WindowOk, QueueOk, Timely;
    hide Chunks, Completed, Sendable;
    NetFacts(s, r);
    InvEndToEnd(s, r);
    InvNothingLost(s, r);
    AllCompleted(s.trace.messages, MAX_CHUNK_PAYLOAD);
  }
}
