/** A round delivered in any order, with repeats, is as good as one delivered in order; and what `pump` sends,
    exactly. */
module ChannelReorder {
  import opened ChannelFrames
  import opened Fragments
  import opened ChannelCore
  import opened ChannelInvariant
  import opened ChannelSteps
  import opened ChannelNetwork
  import opened ChannelProgress

  // ---- Any order

  /** What has been delivered is processed or waiting in the reorder buffer. */
  ghost predicate Kept(r: Core, seqno: int)
  {
    seqno < r.rcvNext || seqno in r.recvBuffer
  }

  ghost predicate KeepsAll(c: Core, z: Core)
  {
    forall k :: Kept(c, k) ==> Kept(z, k)
  }

  lemma DrainOneKeepsAll(c: Core, clock: Clock)
    requires c.rcvNext in c.recvBuffer
    ensures KeepsAll(c, DrainOne(c, clock))
  {
  }

  lemma {:induction false} DrainKeepsAll(c: Core, clock: Clock)
    ensures KeepsAll(c, Drain(c, clock))
    decreases |c.recvBuffer|
  {
    if c.rcvNext in c.recvBuffer {
      hide DrainOne;
      DrainOneShrinks(c, clock);
      DrainOneKeepsAll(c, clock);
      DrainKeepsAll(DrainOne(c, clock), clock);
    }
  }

  /** A sequenced frame within the window is kept, in order or not. */
  lemma DeliverKeepsIt(c: Core, f: Frame, clock: Clock)
    requires ConsumesSeq(f) && f.seqno < c.rcvNext + c.window
    ensures KeepsAll(c, Deliver(c, f, clock)) && Kept(Deliver(c, f, clock), f.seqno)
  {
    hide Drain;
    if !(f.seqno < c.rcvNext || f.seqno in c.recvBuffer) {
      var b := c.(recvBuffer := c.recvBuffer[f.seqno := f]);
      DrainKeepsAll(b, clock);
      assert Kept(b, f.seqno) && KeepsAll(c, b);
    }
  }

  /** The frames of a round that `pump` once emitted: data, and the FIN of an active close. */
  ghost predicate AllPumped(s: Core)
  {
    forall i :: 0 <= i < |s.unacked| ==> Pumped(s.unacked[i], s.trace.passive)
  }

  lemma FrameIsKept(x: Core, s: Core, i: nat, clock: Clock)
    requires Around(x, s) && Synced(x) && Settled(x) && !s.dead && x.window >= 1 && Around(s, x) && AllPumped(s)
    requires i < |Round(s)|
    ensures var z := OnFrame(x, Round(s)[i], clock);
            && Around(z, s) && Synced(z) && Settled(z) && z.window == x.window
            && KeepsAll(x, z) && Kept(z, Base(s) + i)
  {
    hide LogOk, FlightOk, Round, Deliver, Pump, Ack, Kept, AllPumped, Around;
    RoundFacts(s, x);
    RoundFrames(s, i);
    var f := Round(s)[i];
    SyncedIsAlive(x, s);
    AckKeeps(x, s, f);
    var a := Ack(x, f.ackNum).(peerWindow := f.window);
    AckFrame(x, f.ackNum);
    DeliverKeeps(a, s, f, clock);
    InWindow(s, x, i);
    DeliverKeepsIt(a, f, clock);
    var d := Deliver(a, f, clock);
    SyncedIsAlive(d, s);
    PumpKeeps(d, s);
    PumpWire(d);
    SameKept(x, a);
    SameKept(d, Pump(d));
  }

  lemma AckFrame(x: Core, ackNum: nat)
    ensures var a := Ack(x, ackNum); a == x.(unacked := a.unacked, retries := a.retries)
  {
    hide DropAcked;
  }

  lemma SameKept(c: Core, z: Core)
    requires c.rcvNext == z.rcvNext && c.recvBuffer == z.recvBuffer
    ensures forall k :: Kept(c, k) <==> Kept(z, k)
  {
  }

  lemma InWindow(s: Core, x: Core, i: nat)
    requires Around(s, x) && AllPumped(s) && x.window >= 1 && i < |s.unacked|
    ensures Base(s) + i < x.rcvNext + x.window
  {
    hide LogOk, WireOk, StateOk, QueueOk, FinOk, BufferOk, FeedOk, MessagesOk, OrderOk, BufferedOk, ClosedOk;
    assert s.unacked[i] == s.trace.log[Base(s) + i];
  }

  /** Deliver the frames of the round at these positions, one after the other. */
  ghost function DeliverPicked(r: Core, s: Core, picks: seq<nat>, clock: Clock): Core
    requires forall k :: 0 <= k < |picks| ==> picks[k] < |Round(s)|
  {
    if picks == [] then r
    else OnFrame(DeliverPicked(r, s, picks[..|picks| - 1], clock), Round(s)[picks[|picks| - 1]], clock)
  }

  lemma {:induction false} PicksAreKept(r: Core, s: Core, picks: seq<nat>, clock: Clock)
    requires NetInv(Net(s, r)) && Synced(r) && !s.dead && r.window >= 1 && AllPumped(s)
    requires forall k :: 0 <= k < |picks| ==> picks[k] < |Round(s)|
    ensures var z := DeliverPicked(r, s, picks, clock);
            && Around(z, s) && Synced(z) && Settled(z) && z.window == r.window && KeepsAll(r, z)
            && forall k :: 0 <= k < |picks| ==> Kept(z, Base(s) + picks[k])
  {
    hide Around, Round, OnFrame, Kept, Synced, Settled, AllPumped;
    if picks != [] {
      var n := |picks| - 1;
      PicksAreKept(r, s, picks[..n], clock);
      var z := DeliverPicked(r, s, picks[..n], clock);
      Turned(z, s, r);
      FrameIsKept(z, s, picks[n], clock);
      var next := OnFrame(z, Round(s)[picks[n]], clock);
      forall k | 0 <= k < n ensures Kept(next, Base(s) + picks[k]) {
        assert picks[..n][k] == picks[k];
        assert Kept(z, Base(s) + picks[k]);
      }
    }
  }

  lemma Turned(z: Core, s: Core, r: Core)
    requires Around(z, s) && Around(s, r)
    ensures Around(s, z)
  {
    hide Local, Link;
  }

  /** A retransmission round delivered in any order, with any repeats, as long as each of its frames comes at least
      once: the receiver is up to date. */
  lemma AnyOrderCatchesUp(s: Core, r: Core, picks: seq<nat>, clock: Clock)
    requires Reachable(s, r) && !s.dead && Synced(r) && r.window >= 1 && AllPumped(s)
    requires forall k :: 0 <= k < |picks| ==> picks[k] < |Round(s)|
    requires forall i :: 0 <= i < |Round(s)| ==> i in picks
    ensures DeliverPicked(r, s, picks, clock).rcvNext == s.sendNext
  {
    hide Reachable, Around, Round, DeliverPicked, AllPumped, Synced;
    ReachableInv(s, r);
    RoundFacts(s, r);
    PicksAreKept(r, s, picks, clock);
    var z := DeliverPicked(r, s, picks, clock);
    NeverAhead(z, s);
    BaseHolds(z, s);
    forall q | Base(s) <= q < s.sendNext ensures Kept(z, q) {
      assert q - Base(s) in picks;
      var k :| 0 <= k < |picks| && picks[k] == q - Base(s);
      assert Kept(z, Base(s) + picks[k]);
    }
    NothingWaitsAtTheEnd(z, Base(s), s.sendNext);
  }

  lemma NothingWaitsAtTheEnd(z: Core, base: int, end: nat)
    requires Settled(z) && base <= z.rcvNext <= end && forall q :: base <= q < end ==> Kept(z, q)
    ensures z.rcvNext == end
  {
    assert !Kept(z, z.rcvNext);
  }

  lemma BaseHolds(z: Core, s: Core)
    requires Around(z, s) && !s.dead
    ensures Base(s) <= z.rcvNext
  {
    hide Local, OrderOk, BufferedOk, ClosedOk, WindowOk;
  }

  // ---- Exactly what `pump` takes

  function Least(a: nat, b: nat): nat
  {
    if a <= b then a else b
  }

  ghost function DataFrames(chunks: seq<Payload>, from: nat): seq<Sent>
  {
    seq(|chunks|, i requires 0 <= i < |chunks| => Sent(ACK, from + i, chunks[i]))
  }

  /** As many chunks as the window has room for, from the front of the queue, in order, under the next sequences. */
  lemma {:induction false} PumpDataExactly(c: Core, limit: nat)
    requires |c.unacked| <= limit
    ensures var n, z := Least(limit - |c.unacked|, |c.sendQueue|), PumpData(c, limit);
            && z.sendQueue == c.sendQueue[n..] && z.sendNext == c.sendNext + n
            && z.unacked == c.unacked + DataFrames(c.sendQueue[..n], c.sendNext)
    decreases |c.sendQueue|
  {
    if c.sendQueue != [] && |c.unacked| < limit {
      var d := EmitNext(c.(sendQueue := c.sendQueue[1..]), ACK, c.sendQueue[0]);
      var n := Least(limit - |c.unacked|, |c.sendQueue|);
      PumpDataExactly(d, limit);
      assert PumpData(c, limit) == PumpData(d, limit);
      hide PumpData, DataFrames;
      FirstDataFrame(c.sendQueue, n, c.sendNext);
      assert c.sendQueue[1..][n - 1..] == c.sendQueue[n..];
    }
  }

  lemma FirstDataFrame(queue: seq<Payload>, n: nat, from: nat)
    requires 0 < n <= |queue|
    ensures DataFrames(queue[..n], from) == [Sent(ACK, from, queue[0])] + DataFrames(queue[1..][..n - 1], from + 1)
  {
    assert queue[1..][..n - 1] == queue[..n][1..];
  }

  /** The limit is the peer's window, but never less than one frame. */
  lemma PumpFillsWindow(c: Core)
    requires c.state == Established && !c.closing && |c.unacked| <= c.peerWindow
    ensures var n := Least(if c.peerWindow == 0 then 1 else c.peerWindow - |c.unacked|, |c.sendQueue|);
            Pump(c).sendQueue == c.sendQueue[n..] && |Pump(c).unacked| == |c.unacked| + n
  {
    PumpDataExactly(c, SendLimit(c));
    PumpDataState(c, SendLimit(c));
  }

  lemma {:induction false} PumpDataState(c: Core, limit: nat)
    ensures PumpData(c, limit).closing == c.closing
    decreases |c.sendQueue|
  {
    if c.sendQueue != [] && |c.unacked| < limit {
      PumpDataState(EmitNext(c.(sendQueue := c.sendQueue[1..]), ACK, c.sendQueue[0]), limit);
    }
  }
}
