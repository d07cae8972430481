/** The mutable Channel core: every method, loop by loop, against the transitions in `ChannelCore`. */
module ChannelObject {
  import Reassembly
  import opened BigEndian
  import opened ChannelFrames
  import opened Fragments
  import opened ReassemblyInvariant
  import opened ReassemblyOrder
  import opened ReassemblerObject
  import Spec = ChannelCore

  class Channel {
    var state: Spec.ConnState
    var sendNext: nat
    var unacked: seq<Spec.Sent>
    var sendQueue: seq<Payload>
    var peerWindow: nat
    var closing: bool
    var rcvNext: nat
    var recvBuffer: map<nat, Frame>
    const reassembler: Reassembler
    const window: nat
    var retries: nat
    var outbox: seq<seq<byte>>
    var delivered: seq<Payload>
    var justEstablished: bool
    var peerClosed: bool
    var dead: bool

    ghost var emitted: seq<Frame>
    ghost var trace: Spec.Trace

    /** The outbox holds the serialized form of every emitted frame, in order. */
    ghost predicate Valid()
      reads this, reassembler
    {
      && |outbox| == |emitted|
      && (forall i :: 0 <= i < |outbox| ==> outbox[i] == Serialize(emitted[i]))
      && Inv(reassembler.Value())
    }

    ghost function Value(): Spec.Core
      reads this, reassembler
    {
      Spec.Core(state, sendNext, unacked, sendQueue, peerWindow, closing, rcvNext, recvBuffer, reassembler.Value(),
          window,
                retries, emitted, delivered, justEstablished, peerClosed, dead, trace)
    }

    constructor (window: nat)
      ensures Valid() && Value() == Spec.New(window) && fresh(reassembler)
    {
      var r := new Reassembler.ForChunkSize(MAX_CHUNK_PAYLOAD);
      reassembler := r;
      this.window := window;
      state, sendNext, unacked, sendQueue, peerWindow, closing := Spec.Closed, 0, [], [], Spec.DEFAULT_WINDOW, false;
      rcvNext, recvBuffer, retries, outbox, delivered := 0, map[], 0, [], [];
      justEstablished, peerClosed, dead := false, false, false;
      emitted, trace := [], Spec.Trace([], [], [], [], 0, 0, false);
    }

    method Emit(flags: Flags, seqno: nat, data: Payload)
      requires Valid()
      modifies this`outbox, this`emitted
      ensures Valid() && Value() == Spec.Emit(old(Value()), flags, seqno, data)
    {
      hide Inv, Serialize;
      var f := Frame(flags, rcvNext, window, seqno, data);
      outbox := outbox + [Serialize(f)];
      emitted := emitted + [f];
    }

    method EmitPureAck()
      requires Valid()
      modifies this`outbox, this`emitted
      ensures Valid() && Value() == Spec.EmitPureAck(old(Value()))
    {
      hide Inv, Serialize;
      Emit(ACK, sendNext, []);
    }

    /** Take the next inner sequence and emit a frame that is kept until acknowledged. */
    method EmitReliable(flags: Flags, data: Payload)
      requires Valid()
      modifies this`sendNext, this`unacked, this`outbox, this`emitted, this`trace
      ensures Valid() && Value() == Spec.EmitNext(old(Value()), flags, data)
    {
      hide Inv, Serialize;
      var seqno := sendNext;
      sendNext := sendNext + 1;
      unacked := unacked + [Spec.Sent(flags, seqno, data)];
      trace := trace.(log := trace.log + [Spec.Sent(flags, seqno, data)]);
      Emit(flags, seqno, data);
    }

    method EmitFin(ghost passive: bool)
      requires Valid()
      modifies this`state, this`sendNext, this`unacked, this`outbox, this`emitted, this`trace
      ensures Valid() && Value() == Spec.EmitFin(old(Value()), passive)
    {
      hide Inv, Serialize;
      ghost var mark := |trace.queued|;
      EmitReliable(FIN_ACK, []);
      state := Spec.FinSent;
      trace := trace.(finMark := mark, passive := passive);
    }

    method Connect()
      requires Valid()
      modifies this
      ensures Valid() && Value() == Spec.Connect(old(Value()))
    {
      hide Inv, Serialize;
      if state != Spec.Closed {
        return;
      }
      state := Spec.SynSent;
      EmitReliable(SYN, []);
    }

    /** Chunks off the queue while the window allows. */
    method PumpData(limit: nat)
      requires Valid()
      modifies this
      ensures Valid() && Value() == Spec.PumpData(old(Value()), limit)
    {
      hide Inv, Serialize;
      while sendQueue != [] && |unacked| < limit
        invariant Valid() && Spec.PumpData(Value(), limit) == Spec.PumpData(old(Value()), limit)
        decreases |sendQueue|
      {
        var data := sendQueue[0];
        sendQueue := sendQueue[1..];
        EmitReliable(ACK, data);
      }
    }

    method Pump()
      requires Valid()
      modifies this
      ensures Valid() && Value() == Spec.Pump(old(Value()))
    {
      hide Inv, Serialize, Spec.PumpData, Spec.EmitFin;
      if state != Spec.Established {
        return;
      }
      var limit := if peerWindow == 0 then 1 else peerWindow;
      PumpData(limit);
      if closing && sendQueue == [] && |unacked| < limit {
        EmitFin(false);
        closing := false;
      }
    }

    method SendMessage(payload: Payload, fid: FragmentId)
      requires Valid() && Fragmentable(payload, MAX_CHUNK_PAYLOAD)
      modifies this
      ensures Valid() && Value() == Spec.SendMessage(old(Value()), Message(fid, payload))
    {
      hide Fragment, Fragmentable, Spec.Pump, Inv, Serialize;
      var chunks := Fragment(payload, MAX_CHUNK_PAYLOAD, fid);
      var i := 0;
      while i < |chunks|
        invariant 0 <= i <= |chunks| && Valid()
        invariant sendQueue == old(sendQueue) + chunks[..i]
        invariant Value() == old(Value()).(sendQueue := sendQueue)
      {
        sendQueue := sendQueue + [chunks[i]];
        i := i + 1;
      }
      assert chunks[..i] == chunks;
      trace := trace.(queued := trace.queued + chunks, messages := trace.messages + [Message(fid, payload)]);
      Pump();
    }

    method Close()
      requires Valid()
      modifies this
      ensures Valid() && Value() == Spec.Close(old(Value()))
    {
      hide Inv, Serialize;
      closing := true;
      Pump();
    }

    method Ack(ackNum: nat)
      requires Valid()
      modifies this`unacked, this`retries
      ensures Valid() && Value() == Spec.Ack(old(Value()), ackNum)
    {
      hide Inv, Serialize;
      var clamped := if ackNum < sendNext then ackNum else sendNext;
      var before := |unacked|;
      while unacked != [] && unacked[0].seqno < clamped
        invariant Valid() && Value() == old(Value()).(unacked := unacked)
        invariant Spec.DropAcked(unacked, clamped) == Spec.DropAcked(old(unacked), clamped)
        decreases |unacked|
      {
        unacked := unacked[1..];
      }
      if |unacked| != before {
        retries := 0;
      }
    }

    method Teardown()
      requires Valid()
      modifies this`state, this`unacked, this`sendQueue, this`dead
      ensures Valid() && Value() == Spec.Teardown(old(Value()))
    {
      hide Inv, Serialize;
      state := Spec.Closed;
      unacked := [];
      sendQueue := [];
      dead := true;
    }

    method OnTimeout()
      requires Valid()
      modifies this
      ensures Valid() && Value() == Spec.OnTimeout(old(Value()))
    {
      hide Inv, Serialize;
      if unacked == [] {
        return;
      }
      if retries >= Spec.MAX_RETRIES {
        Teardown();
        return;
      }
      retries := retries + 1;
      trace := trace.(rounds := trace.rounds + 1);
      ghost var c := Value();
      var pending := unacked;
      while pending != []
        invariant Valid() && Spec.Retransmit(Value(), pending) == Spec.Retransmit(c, c.unacked)
        decreases |pending|
      {
        Emit(pending[0].flags, pending[0].seqno, pending[0].data);
        pending := pending[1..];
      }
    }

    /** Do with one in-order frame what it asks. */
    method Consume(f: Frame, now: Spec.Instant)
      requires Valid()
      modifies this, reassembler
      ensures Valid() && Value() == Spec.Consume(old(Value()), f, now)
    {
      hide Reassembly.Feed, Inv;
      if f.flags.fin {
        peerClosed := true;
        if state == Spec.Established {
          EmitFin(true);
        }
      } else if f.data != [] {
        var out := reassembler.Feed(f.data, now);
        if out.Some? {
          delivered := delivered + [out.value];
        }
        trace := trace.(fed := trace.fed + [Input(f.data, now)]);
      }
    }

    method Drain(clock: Spec.Clock)
      requires Valid()
      modifies this, reassembler
      ensures Valid() && Value() == Spec.Drain(old(Value()), clock)
    {
      hide Inv, Spec.Consume;
      while rcvNext in recvBuffer
        invariant Valid() && Spec.Drain(Value(), clock) == Spec.Drain(old(Value()), clock)
        decreases |recvBuffer|
      {
        Spec.DrainOneShrinks(Value(), clock);
        ghost var before := Value();
        var now := clock(rcvNext);
        var f := recvBuffer[rcvNext];
        recvBuffer := recvBuffer - {rcvNext};
        rcvNext := rcvNext + 1;
        Consume(f, now);
        assert Value() == Spec.DrainOne(before, clock);
      }
    }

    method Deliver(f: Frame, clock: Spec.Clock)
      requires Valid()
      modifies this, reassembler
      ensures Valid() && Value() == Spec.Deliver(old(Value()), f, clock)
    {
      hide Inv, Spec.Drain;
      if !ConsumesSeq(f) {
        return;
      }
      if f.seqno < rcvNext || f.seqno in recvBuffer {
        EmitPureAck();
        return;
      }
      if f.seqno >= rcvNext + window {
        EmitPureAck();
        return;
      }
      recvBuffer := recvBuffer[f.seqno := f];
      Drain(clock);
      EmitPureAck();
    }

    method Join(seqno: nat)
      requires Valid()
      modifies this`rcvNext, this`state, this`justEstablished
      ensures Valid() && Value() == Spec.Join(old(Value()), seqno)
    {
      hide Inv, Serialize;
      rcvNext := seqno + 1;
      state := Spec.Established;
      justEstablished := true;
    }

    method OnFrame(f: Frame, clock: Spec.Clock)
      requires Valid()
      modifies this, reassembler
      ensures Valid() && Value() == Spec.OnFrame(old(Value()), f, clock)
    {
      hide Inv, Spec.Deliver, Spec.Pump, Spec.Ack, Spec.EmitNext;
      Ack(f.ackNum);
      peerWindow := f.window;
      if f.flags.rst {
        peerClosed := true;
        Teardown();
        return;
      }
      match state
      case Closed =>
        if f.flags.syn {
          Join(f.seqno);
          EmitReliable(SYN_ACK, []);
        }
      case SynSent =>
        if f.flags.syn && f.flags.ack {
          Join(f.seqno);
          EmitPureAck();
          Pump();
        } else if f.flags.syn {
          Join(f.seqno);
          EmitReliable(SYN_ACK, []);
        }
      case _ =>
        Deliver(f, clock);
        Pump();
    }
  }
}
