/** What each core keeps on its own, and what two cores keep about each other. */
module ChannelInvariant {
  import Reassembly
  import opened ChannelFrames
  import opened Fragments
  import opened ReassemblyInvariant
  import opened ReassemblyOrder
  import opened ChannelCore

  /** The chunks among a sequence of frames. */
  ghost function DataOf(log: seq<Sent>): seq<Payload>
  {
    if log == [] then []
    else
      var last := log[|log| - 1];
      DataOf(log[..|log| - 1]) + (if last.data != [] then [last.data] else [])
  }

  ghost function Raws(fed: seq<Input>): (r: seq<Payload>)
    ensures |r| == |fed| && forall i :: 0 <= i < |fed| ==> r[i] == fed[i].raw
  {
    seq(|fed|, i requires 0 <= i < |fed| => fed[i].raw)
  }

  // ---- One core

  /** A SYN or FIN carries no data, and everything else carries some. */
  ghost predicate SentOk(s: Sent, i: nat)
  {
    && s.seqno == i
    && !s.flags.rst
    && !(s.flags.syn && s.flags.fin)
    && (s.data == [] <==> s.flags.syn || s.flags.fin)
  }

  /** Sequence `i` is the `i`-th frame; SYNs come first and a FIN comes last. */
  ghost predicate LogOk(log: seq<Sent>)
  {
    && (forall i :: 0 <= i < |log| ==> SentOk(log[i], i))
    && (forall i, j :: 0 <= i < j < |log| && log[j].flags.syn ==> log[i].flags.syn)
    && (forall i :: 0 <= i < |log| - 1 ==> !log[i].flags.fin)
  }

  /** In flight: exactly the contiguous sequences up to `sendNext`. */
  ghost predicate FlightOk(log: seq<Sent>, unacked: seq<Sent>, sendNext: nat)
  {
    sendNext == |log| && |unacked| <= |log| && unacked == log[|log| - |unacked|..]
  }

  /** A frame on the wire is a pure ACK or a copy of a logged frame, and acknowledges no more than was received. */
  ghost predicate WireFrameOk(f: Frame, log: seq<Sent>, rcvNext: nat, window: nat)
  {
    && f.ackNum <= rcvNext && f.window == window && !f.flags.rst
    && (ConsumesSeq(f) ==> f.seqno < |log| && log[f.seqno] == Sent(f.flags, f.seqno, f.data))
  }

  ghost predicate WireOk(outbox: seq<Frame>, log: seq<Sent>, rcvNext: nat, window: nat)
  {
    forall f :: f in outbox ==> WireFrameOk(f, log, rcvNext, window)
  }

  ghost predicate HasFin(log: seq<Sent>)
  {
    log != [] && log[|log| - 1].flags.fin
  }

  ghost predicate StateOk(c: Core)
  {
    && (c.dead ==> c.state == Closed && c.unacked == [])
    && match c.state
       case Closed => c.dead || (c.trace.log == [] && c.outbox == [] && c.rcvNext == 0 && c.recvBuffer == map[])
       case SynSent => c.trace.log == [Sent(SYN, 0, [])] && c.rcvNext == 0 && c.recvBuffer == map[]
       case Established => c.trace.log != [] && !HasFin(c.trace.log)
       case FinSent => HasFin(c.trace.log)
  }

  /** Every queued chunk is logged or still queued, in order. */
  ghost predicate QueueOk(log: seq<Sent>, queued: seq<Payload>, sendQueue: seq<Payload>, dead: bool)
  {
    && (if dead then DataOf(log) <= queued else queued == DataOf(log) + sendQueue)
    && (forall d :: d in sendQueue ==> d != [])
  }

  /** An active FIN had the queue drained before it. */
  ghost predicate FinOk(log: seq<Sent>, queued: seq<Payload>, finMark: nat, passive: bool)
  {
    HasFin(log) && !passive ==> finMark <= |queued| && DataOf(log) == queued[..finMark]
  }

  /** Buffered frames lie between the next expected one and the end of the window. */
  ghost predicate BufferOk(recvBuffer: map<nat, Frame>, rcvNext: nat, window: nat)
  {
    forall k :: k in recvBuffer ==> rcvNext <= k < rcvNext + window
  }

  /** The reassembler is where feeding everything so far leads, and `delivered` is all it gave back. */
  ghost predicate FeedOk(reassembler: Reassembly.State, delivered: seq<Payload>, fed: seq<Input>)
  {
    && reassembler == FeedAll(Reassembly.ForChunkSize(MAX_CHUNK_PAYLOAD), fed).0
    && delivered == Given(FeedAll(Reassembly.ForChunkSize(MAX_CHUNK_PAYLOAD), fed).1)
  }

  /** The send queue was filled by fragmenting the messages, in order. */
  ghost predicate MessagesOk(messages: seq<Message>, queued: seq<Payload>)
  {
    Sendable(messages, MAX_CHUNK_PAYLOAD) && queued == Chunks(messages, MAX_CHUNK_PAYLOAD)
  }

  ghost predicate Local(c: Core)
  {
    && LogOk(c.trace.log)
    && FlightOk(c.trace.log, c.unacked, c.sendNext)
    && WireOk(c.outbox, c.trace.log, c.rcvNext, c.window)
    && StateOk(c)
    && QueueOk(c.trace.log, c.trace.queued, c.sendQueue, c.dead)
    && FinOk(c.trace.log, c.trace.queued, c.trace.finMark, c.trace.passive)
    && BufferOk(c.recvBuffer, c.rcvNext, c.window)
    && FeedOk(c.reassembler, c.delivered, c.trace.fed)
    && MessagesOk(c.trace.messages, c.trace.queued)
  }

  // ---- Sender `s` and receiver `r`

  /** The sequence of the oldest frame still in flight. */
  ghost function Base(c: Core): int
  {
    |c.trace.log| - |c.unacked|
  }

  ghost predicate Synced(c: Core)
  {
    c.state == Established || c.state == FinSent
  }

  /** The receiver's next sequence is between the sender's oldest unacknowledged one and its next one. */
  ghost predicate ProgressOk(s: Core, r: Core)
  {
    r.rcvNext <= |s.trace.log| && (s.dead || Base(s) <= r.rcvNext)
  }

  /** What the receiver has fed its reassembler is what the sender logged, up to where it has got. */
  ghost predicate OrderOk(log: seq<Sent>, rcvNext: nat, fed: seq<Input>)
  {
    rcvNext <= |log| && Raws(fed) == DataOf(log[..rcvNext])
  }

  ghost predicate BufferedOk(log: seq<Sent>, recvBuffer: map<nat, Frame>)
  {
    forall k :: k in recvBuffer ==> k < |log| && log[k] == Sent(recvBuffer[k].flags, k, recvBuffer[k].data)
  }

  ghost predicate ClosedOk(log: seq<Sent>, rcvNext: nat, peerClosed: bool)
  {
    peerClosed <==> HasFin(log) && rcvNext == |log|
  }

  /** Frames `pump` emits: data, and the FIN of an active close. */
  ghost predicate Pumped(s: Sent, passive: bool)
  {
    s.data != [] || (s.flags.fin && !passive)
  }

  ghost predicate WindowOk(log: seq<Sent>, passive: bool, rcvNext: nat, window: nat)
  {
    window >= 1 ==> forall i :: 0 <= i < |log| && Pumped(log[i], passive) ==> i < rcvNext + window
  }

  ghost predicate Link(s: Core, r: Core)
  {
    && ProgressOk(s, r)
    && OrderOk(s.trace.log, r.rcvNext, r.trace.fed)
    && BufferedOk(s.trace.log, r.recvBuffer)
    && ClosedOk(s.trace.log, r.rcvNext, r.peerClosed)
    && (Synced(r) ==> r.peerWindow == s.window)
    && WindowOk(s.trace.log, s.trace.passive, r.rcvNext, r.window)
  }

  /** Everything that must hold around `x` for a step of `x` to be safe; `y` does not move. */
  ghost predicate Around(x: Core, y: Core)
  {
    Local(x) && Link(x, y) && Link(y, x)
  }

  /** Nothing deliverable is left in the reorder buffer; true between steps, not while draining. */
  ghost predicate Settled(c: Core)
  {
    c.rcvNext !in c.recvBuffer
  }

  // ---- DataOf

  lemma DataOfSnoc(log: seq<Sent>, s: Sent)
    ensures DataOf(log + [s]) == DataOf(log) + (if s.data != [] then [s.data] else [])
  {
    assert (log + [s])[..|log|] == log;
  }

  lemma {:induction false} DataOfPrefix(log: seq<Sent>, n: nat)
    requires n <= |log|
    ensures DataOf(log[..n]) <= DataOf(log)
  {
    if n < |log| {
      DataOfPrefix(log[..|log| - 1], n);
      assert log[..|log| - 1][..n] == log[..n];
    } else {
      assert log[..n] == log;
    }
  }

  lemma {:induction false} SynsCarryNothing(log: seq<Sent>, n: nat)
    requires LogOk(log) && n <= |log| && (n > 0 ==> log[n - 1].flags.syn)
    ensures DataOf(log[..n]) == []
  {
    if n > 0 {
      assert SentOk(log[n - 1], n - 1);
      SynsCarryNothing(log, n - 1);
      DataOfSnoc(log[..n - 1], log[n - 1]);
      assert log[..n - 1] + [log[n - 1]] == log[..n];
    }
  }

  // ---- Emission keeps the invariant

  lemma WireAppend(outbox: seq<Frame>, f: Frame, log: seq<Sent>, rcvNext: nat, window: nat)
    requires WireOk(outbox, log, rcvNext, window) && WireFrameOk(f, log, rcvNext, window)
    ensures WireOk(outbox + [f], log, rcvNext, window)
  {
    hide WireFrameOk;
  }

  /** Sending something already logged, or a pure ACK. */
  lemma EmitKeeps(x: Core, y: Core, flags: Flags, seqno: nat, data: Payload)
    requires Around(x, y) && x.state != Closed
    requires WireFrameOk(Frame(flags, x.rcvNext, x.window, seqno, data), x.trace.log, x.rcvNext, x.window)
    ensures Around(Emit(x, flags, seqno, data), y)
  {
    hide LogOk, FlightOk, WireOk, WireFrameOk, QueueOk, FinOk, BufferOk, FeedOk, MessagesOk;
    hide OrderOk, BufferedOk, ClosedOk, WindowOk, HasFin;
    WireAppend(x.outbox, Frame(flags, x.rcvNext, x.window, seqno, data), x.trace.log, x.rcvNext, x.window);
  }

  lemma PureAckKeeps(x: Core, y: Core)
    requires Around(x, y) && x.state != Closed
    ensures Around(EmitPureAck(x), y)
  {
    hide Around;
    EmitKeeps(x, y, ACK, x.sendNext, []);
  }

  lemma {:induction false} RetransmitKeeps(x: Core, y: Core, pending: seq<Sent>)
    requires Around(x, y) && x.state != Closed
    requires forall u :: u in pending ==> u in x.trace.log
    ensures Around(Retransmit(x, pending), y)
    decreases |pending|
  {
    hide Around;
    if pending != [] {
      var u := pending[0];
      LoggedFrame(x, y, u);
      EmitKeeps(x, y, u.flags, u.seqno, u.data);
      RetransmitKeeps(Emit(x, u.flags, u.seqno, u.data), y, pending[1..]);
    }
  }

  lemma LoggedFrame(x: Core, y: Core, u: Sent)
    requires Around(x, y) && u in x.trace.log
    ensures WireFrameOk(Frame(u.flags, x.rcvNext, x.window, u.seqno, u.data), x.trace.log, x.rcvNext, x.window)
  {
  }

  // ---- Sequenced frames

  lemma LogAppend(log: seq<Sent>, s: Sent)
    requires LogOk(log) && !HasFin(log) && SentOk(s, |log|)
    requires s.flags.syn ==> forall i :: 0 <= i < |log| ==> log[i].flags.syn
    ensures LogOk(log + [s])
  {
    hide SentOk;
  }

  lemma FlightAppend(log: seq<Sent>, unacked: seq<Sent>, sendNext: nat, s: Sent)
    requires FlightOk(log, unacked, sendNext)
    ensures FlightOk(log + [s], unacked + [s], sendNext + 1)
  {
  }

  lemma WireGrow(outbox: seq<Frame>, log: seq<Sent>, rcvNext: nat, window: nat, s: Sent)
    requires WireOk(outbox, log, rcvNext, window) && SentOk(s, |log|)
    ensures WireOk(outbox + [Frame(s.flags, rcvNext, window, s.seqno, s.data)], log + [s], rcvNext, window)
  {
  }

  lemma WindowAppend(log: seq<Sent>, s: Sent, before: bool, after: bool, rcvNext: nat, window: nat)
    requires LogOk(log) && !HasFin(log) && WindowOk(log, before, rcvNext, window)
    requires window >= 1 && Pumped(s, after) ==> |log| < rcvNext + window
    ensures WindowOk(log + [s], after, rcvNext, window)
  {
    hide SentOk;
  }

  lemma OrderGrow(log: seq<Sent>, s: Sent, rcvNext: nat, fed: seq<Input>)
    requires OrderOk(log, rcvNext, fed)
    ensures OrderOk(log + [s], rcvNext, fed)
  {
    assert (log + [s])[..rcvNext] == log[..rcvNext];
  }

  /** The other side's view of `x` survives one more frame in `x`'s log. */
  lemma LogGrowthKeepsLink(x: Core, y: Core, z: Core, s: Sent)
    requires Link(x, y) && LogOk(x.trace.log) && !HasFin(x.trace.log)
    requires z.trace.log == x.trace.log + [s] && z.unacked == x.unacked + [s]
    requires z.window == x.window && z.dead == x.dead
    requires y.window >= 1 && Pumped(s, z.trace.passive) ==> |x.trace.log| < y.rcvNext + y.window
    ensures Link(z, y)
  {
    hide LogOk, OrderOk, WindowOk, Pumped;
    OrderGrow(x.trace.log, s, y.rcvNext, y.trace.fed);
    WindowAppend(x.trace.log, s, x.trace.passive, z.trace.passive, y.rcvNext, y.window);
  }

  /** A side that has not been heard to close is where `y` thinks it is. */
  lemma SameReceiver(x: Core, y: Core, z: Core)
    requires Link(y, x)
    requires z.rcvNext == x.rcvNext && z.trace.fed == x.trace.fed && z.recvBuffer == x.recvBuffer
    requires z.peerClosed == x.peerClosed && z.window == x.window
    requires Synced(z) ==> z.peerWindow == y.window
    ensures Link(y, z)
  {
    hide OrderOk, BufferedOk, ClosedOk, WindowOk;
  }

  lemma ConnectKeeps(x: Core, y: Core)
    requires Around(x, y) && !x.dead
    ensures Around(Connect(x), y)
  {
    if x.state == Closed {
      hide QueueOk, FinOk, BufferOk, FeedOk, MessagesOk, OrderOk, BufferedOk, ClosedOk, WindowOk, DataOf;
      var s, z := Sent(SYN, 0, []), Connect(x);
      LogAppend(x.trace.log, s);
      FlightAppend(x.trace.log, x.unacked, x.sendNext, s);
      WireGrow(x.outbox, x.trace.log, x.rcvNext, x.window, s);
      LogGrowthKeepsLink(x, y, z, s);
      SameReceiver(x, y, z);
      QueueGrow(x.trace.log, x.trace.queued, x.sendQueue, s);
      NoFinOk(z.trace.log, z.trace.queued, z.trace.finMark, z.trace.passive);
    }
  }

  lemma QueueGrow(log: seq<Sent>, queued: seq<Payload>, sendQueue: seq<Payload>, s: Sent)
    requires QueueOk(log, queued, sendQueue, false)
    requires s.data == [] || (sendQueue != [] && s.data == sendQueue[0])
    ensures QueueOk(log + [s], queued, if s.data == [] then sendQueue else sendQueue[1..], false)
  {
    DataOfSnoc(log, s);
    if s.data != [] {
      assert DataOf(log) + sendQueue == DataOf(log) + [s.data] + sendQueue[1..];
      assert forall d :: d in sendQueue[1..] ==> d in sendQueue;
    }
  }

  lemma NoFinOk(log: seq<Sent>, queued: seq<Payload>, finMark: nat, passive: bool)
    requires !HasFin(log)
    ensures FinOk(log, queued, finMark, passive)
  {
  }

  // ---- pump

  lemma PumpStepKeeps(x: Core, y: Core)
    requires Around(x, y) && x.state == Established && x.sendQueue != [] && |x.unacked| < SendLimit(x)
    ensures var z := EmitNext(x.(sendQueue := x.sendQueue[1..]), ACK, x.sendQueue[0]);
            Around(z, y) && SendLimit(z) == SendLimit(x)
  {
    hide FinOk, BufferOk, FeedOk, MessagesOk, OrderOk, BufferedOk, ClosedOk, WindowOk, DataOf, LogOk, FlightOk, WireOk;
    var s := Sent(ACK, x.sendNext, x.sendQueue[0]);
    var z := EmitNext(x.(sendQueue := x.sendQueue[1..]), ACK, x.sendQueue[0]);
    FlightLength(x.trace.log, x.unacked, x.sendNext);
    assert x.sendQueue[0] in x.sendQueue;
    LogAppend(x.trace.log, s);
    FlightAppend(x.trace.log, x.unacked, x.sendNext, s);
    WireGrow(x.outbox, x.trace.log, x.rcvNext, x.window, s);
    LogGrowthKeepsLink(x, y, z, s);
    SameReceiver(x, y, z);
    QueueGrow(x.trace.log, x.trace.queued, x.sendQueue, s);
    NoFinOk(z.trace.log, z.trace.queued, z.trace.finMark, z.trace.passive);
  }

  lemma FlightLength(log: seq<Sent>, unacked: seq<Sent>, sendNext: nat)
    requires FlightOk(log, unacked, sendNext)
    ensures |unacked| <= |log| == sendNext
  {
  }

  lemma {:induction false} PumpDataKeeps(x: Core, y: Core)
    requires Around(x, y) && x.state == Established
    ensures var z := PumpData(x, SendLimit(x));
            && Around(z, y) && z.state == Established && SendLimit(z) == SendLimit(x)
            && z.recvBuffer == x.recvBuffer && z.rcvNext == x.rcvNext
    decreases |x.sendQueue|
  {
    hide Around, SendLimit;
    if x.sendQueue != [] && |x.unacked| < SendLimit(x) {
      PumpStepKeeps(x, y);
      PumpDataKeeps(EmitNext(x.(sendQueue := x.sendQueue[1..]), ACK, x.sendQueue[0]), y);
    }
  }

  lemma EmitFinKeeps(x: Core, y: Core, passive: bool)
    requires Around(x, y) && x.state == Established
    requires !passive ==> x.sendQueue == [] && |x.unacked| < SendLimit(x)
    ensures Around(EmitFin(x, passive), y)
  {
    hide BufferOk, FeedOk, MessagesOk, OrderOk, BufferedOk, ClosedOk, WindowOk, DataOf, LogOk, FlightOk, WireOk;
    var s, z := Sent(FIN_ACK, x.sendNext, []), EmitFin(x, passive);
    FlightLength(x.trace.log, x.unacked, x.sendNext);
    LogAppend(x.trace.log, s);
    FlightAppend(x.trace.log, x.unacked, x.sendNext, s);
    WireGrow(x.outbox, x.trace.log, x.rcvNext, x.window, s);
    LogGrowthKeepsLink(x, y, z, s);
    SameReceiver(x, y, z);
    QueueGrow(x.trace.log, x.trace.queued, x.sendQueue, s);
  }

  lemma EmitFinReceiver(x: Core, passive: bool)
    ensures EmitFin(x, passive).recvBuffer == x.recvBuffer && EmitFin(x, passive).rcvNext == x.rcvNext
  {
  }

  lemma PumpKeeps(x: Core, y: Core)
    requires Around(x, y) && !x.dead
    ensures Around(Pump(x), y)
    ensures Pump(x).recvBuffer == x.recvBuffer && Pump(x).rcvNext == x.rcvNext
  {
    hide Around, SendLimit, PumpData, EmitFin;
    if x.state == Established {
      PumpDataKeeps(x, y);
      var d := PumpData(x, SendLimit(x));
      if d.closing && d.sendQueue == [] && |d.unacked| < SendLimit(x) {
        EmitFinKeeps(d, y, false);
        ClosingIsFree(EmitFin(d, false), y, false);
        EmitFinReceiver(d, false);
      }
    }
  }

  lemma ClosingIsFree(x: Core, y: Core, closing: bool)
    requires Around(x, y)
    ensures Around(x.(closing := closing), y)
  {
    hide LogOk, FlightOk, WireOk, QueueOk, FinOk, BufferOk, FeedOk, MessagesOk;
    hide OrderOk, BufferedOk, ClosedOk, WindowOk, HasFin;
  }

  lemma CloseKeeps(x: Core, y: Core)
    requires Around(x, y) && !x.dead
    ensures Around(Close(x), y) && Close(x).recvBuffer == x.recvBuffer && Close(x).rcvNext == x.rcvNext
  {
    hide Around;
    ClosingIsFree(x, y, true);
    PumpKeeps(x.(closing := true), y);
  }

  // ---- send_message

  lemma {:induction false} ChunksSnoc(msgs: seq<Message>, m: Message, size: nat)
    requires Sendable(msgs, size) && Fragmentable(m.payload, size)
    ensures Sendable(msgs + [m], size)
    ensures Chunks(msgs + [m], size) == Chunks(msgs, size) + Fragment(m.payload, size, m.fid)
  {
    hide Fragment, Fragmentable;
    if msgs == [] {
      assert msgs + [m] == [m] && [m][1..] == [];
    } else {
      ChunksSnoc(msgs[1..], m, size);
      assert (msgs + [m])[1..] == msgs[1..] + [m];
    }
  }

  lemma EnqueueKeeps(x: Core, y: Core, m: Message)
    requires Around(x, y) && !x.dead && Fragmentable(m.payload, MAX_CHUNK_PAYLOAD)
    ensures Around(Enqueue(x, m), y)
  {
    hide LogOk, FlightOk, WireOk, BufferOk, FeedOk, OrderOk, BufferedOk, ClosedOk, WindowOk, HasFin, Fragment, DataOf,
        Chunks;
    ChunksSnoc(x.trace.messages, m, MAX_CHUNK_PAYLOAD);
  }

  lemma SendKeeps(x: Core, y: Core, m: Message)
    requires Around(x, y) && !x.dead && Fragmentable(m.payload, MAX_CHUNK_PAYLOAD)
    ensures var z := SendMessage(x, m); Around(z, y) && z.recvBuffer == x.recvBuffer && z.rcvNext == x.rcvNext
  {
    hide Around, Pump, Fragment, Fragmentable;
    EnqueueKeeps(x, y, m);
    PumpKeeps(Enqueue(x, m), y);
  }
}
