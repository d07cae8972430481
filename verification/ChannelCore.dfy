/** The reliable Channel's state machine, as values (rust/telesthete/src/channel.rs). */
module ChannelCore {
  import Reassembly
  import opened BigEndian
  import opened ChannelFrames
  import opened Fragments
  import opened ReassemblyInvariant
  import opened ReassemblyOrder

  const DEFAULT_WINDOW := 32
  const MAX_RETRIES := 10

  type Instant = Reassembly.Instant
  /** The instant at which the frame with a given inner sequence reaches the reassembler. */
  type Clock = nat -> Instant

  datatype ConnState = Closed | SynSent | Established | FinSent

  /** A sequenced frame as kept for retransmission. */
  datatype Sent = Sent(flags: Flags, seqno: nat, data: Payload)

  /** What has happened so far. Recorded for the statements below; no operation reads it. */
  datatype Trace = Trace(
    log: seq<Sent>,           // every sequenced frame, once, in the order first emitted
    messages: seq<Message>,   // every message passed to `send_message`
    queued: seq<Payload>,     // every chunk ever put on the send queue
    fed: seq<Input>,          // every chunk handed to the reassembler, and when
    rounds: nat,              // retransmission rounds
    finMark: nat,             // chunks queued by the time our FIN was emitted
    passive: bool)            // our FIN answered the peer's

  datatype Core = Core(
    state: ConnState,
    sendNext: nat,
    unacked: seq<Sent>,
    sendQueue: seq<Payload>,
    peerWindow: nat,
    closing: bool,
    rcvNext: nat,
    recvBuffer: map<nat, Frame>,
    reassembler: Reassembly.State,
    window: nat,
    retries: nat,
    outbox: seq<Frame>,       // never drained here: the whole of what the network may deliver
    delivered: seq<Payload>,  // never drained here: everything given to the application
    justEstablished: bool,
    peerClosed: bool,
    dead: bool,
    trace: Trace)

  function New(window: nat): Core
  {
    Core(Closed, 0, [], [], DEFAULT_WINDOW, false, 0, map[], Reassembly.ForChunkSize(MAX_CHUNK_PAYLOAD), window, 0,
         [], [], false, false, false, Trace([], [], [], [], 0, 0, false))
  }

  // ---- Emitting

  function Emit(c: Core, flags: Flags, seqno: nat, data: Payload): Core
  {
    c.(outbox := c.outbox + [Frame(flags, c.rcvNext, c.window, seqno, data)])
  }

  function EmitPureAck(c: Core): Core
  {
    Emit(c, ACK, c.sendNext, [])
  }

  /** Take the next inner sequence, retain the frame, emit it. */
  function EmitNext(c: Core, flags: Flags, data: Payload): Core
  {
    var s := Sent(flags, c.sendNext, data);
    Emit(c.(sendNext := c.sendNext + 1, unacked := c.unacked + [s], trace := c.trace.(log := c.trace.log + [s])),
         flags, s.seqno, data)
  }

  // ---- Commands

  function Connect(c: Core): Core
  {
    if c.state != Closed then c else EmitNext(c.(state := SynSent), SYN, [])
  }

  function PumpData(c: Core, limit: nat): Core
    decreases |c.sendQueue|
  {
    if c.sendQueue != [] && |c.unacked| < limit
    then PumpData(EmitNext(c.(sendQueue := c.sendQueue[1..]), ACK, c.sendQueue[0]), limit)
    else c
  }

  function EmitFin(c: Core, passive: bool): Core
  {
    EmitNext(c, FIN_ACK, []).(state := FinSent,
                              trace := EmitNext(c, FIN_ACK, []).trace.(finMark := |c.trace.queued|, passive := passive))
  }

  function SendLimit(c: Core): nat
  {
    if c.peerWindow == 0 then 1 else c.peerWindow
  }

  /** Data while the window allows, then a pending FIN once the queue is empty. */
  function Pump(c: Core): Core
  {
    if c.state != Established then c
    else
      var d := PumpData(c, SendLimit(c));
      if d.closing && d.sendQueue == [] && |d.unacked| < SendLimit(c)
      then EmitFin(d, false).(closing := false) else d
  }

  function Enqueue(c: Core, m: Message): Core
    requires Fragmentable(m.payload, MAX_CHUNK_PAYLOAD)
  {
    var chunks := Fragment(m.payload, MAX_CHUNK_PAYLOAD, m.fid);
    c.(sendQueue := c.sendQueue + chunks,
       trace := c.trace.(queued := c.trace.queued + chunks, messages := c.trace.messages + [m]))
  }

  function SendMessage(c: Core, m: Message): Core
    requires Fragmentable(m.payload, MAX_CHUNK_PAYLOAD)
  {
    Pump(Enqueue(c, m))
  }

  function Close(c: Core): Core
  {
    Pump(c.(closing := true))
  }

  // ---- Acknowledgement and retransmission

  function DropAcked(unacked: seq<Sent>, ackNum: nat): seq<Sent>
  {
    if unacked != [] && unacked[0].seqno < ackNum then DropAcked(unacked[1..], ackNum) else unacked
  }

  function Ack(c: Core, ackNum: nat): Core
  {
    var left := DropAcked(c.unacked, if ackNum < c.sendNext then ackNum else c.sendNext);
    c.(unacked := left, retries := if |left| != |c.unacked| then 0 else c.retries)
  }

  function Retransmit(c: Core, pending: seq<Sent>): Core
    decreases |pending|
  {
    if pending == [] then c
    else Retransmit(Emit(c, pending[0].flags, pending[0].seqno, pending[0].data), pending[1..])
  }

  function Teardown(c: Core): Core
  {
    c.(state := Closed, unacked := [], sendQueue := [], dead := true)
  }

  function OnTimeout(c: Core): Core
  {
    if c.unacked == [] then c
    else if c.retries >= MAX_RETRIES then Teardown(c)
    else Retransmit(c.(retries := c.retries + 1, trace := c.trace.(rounds := c.trace.rounds + 1)), c.unacked)
  }

  // ---- Receiving

  /** Hand one in-order frame on: a FIN closes, data goes to the reassembler. */
  ghost function Consume(c: Core, f: Frame, now: Instant): Core
  {
    if f.flags.fin then
      var p := c.(peerClosed := true);
      if c.state == Established then EmitFin(p, true) else p
    else if f.data != [] then
      var (r, out) := Reassembly.Feed(c.reassembler, f.data, now);
      c.(reassembler := r,
         delivered := c.delivered + (match out case None => [] case Some(m) => [m]),
         trace := c.trace.(fed := c.trace.fed + [Input(f.data, now)]))
    else c
  }

  ghost function DrainOne(c: Core, clock: Clock): Core
    requires c.rcvNext in c.recvBuffer
  {
    Consume(c.(rcvNext := c.rcvNext + 1, recvBuffer := c.recvBuffer - {c.rcvNext}),
            c.recvBuffer[c.rcvNext], clock(c.rcvNext))
  }

  lemma DrainOneShrinks(c: Core, clock: Clock)
    requires c.rcvNext in c.recvBuffer
    ensures |DrainOne(c, clock).recvBuffer| < |c.recvBuffer|
  {
    assert (c.recvBuffer - {c.rcvNext}).Keys == c.recvBuffer.Keys - {c.rcvNext};
  }

  ghost function Drain(c: Core, clock: Clock): Core
    decreases |c.recvBuffer|
  {
    if c.rcvNext in c.recvBuffer then
      DrainOneShrinks(c, clock);
      Drain(DrainOne(c, clock), clock)
    else c
  }

  /** Reorder, dedup, deliver; duplicates and out-of-window frames are only re-acknowledged. */
  ghost function Deliver(c: Core, f: Frame, clock: Clock): Core
  {
    if !ConsumesSeq(f) then c
    else if f.seqno < c.rcvNext || f.seqno in c.recvBuffer then EmitPureAck(c)
    else if f.seqno >= c.rcvNext + c.window then EmitPureAck(c)
    else EmitPureAck(Drain(c.(recvBuffer := c.recvBuffer[f.seqno := f]), clock))
  }

  /** Synchronise with the peer's SYN and count as connected. */
  function Join(c: Core, seqno: nat): Core
  {
    c.(rcvNext := seqno + 1, state := Established, justEstablished := true)
  }

  ghost function Handle(c: Core, f: Frame, clock: Clock): Core
  {
    if f.flags.rst then Teardown(c.(peerClosed := true))
    else
      match c.state
      case Closed =>
        if f.flags.syn then EmitNext(Join(c, f.seqno), SYN_ACK, []) else c
      case SynSent =>
        if f.flags.syn && f.flags.ack then Pump(EmitPureAck(Join(c, f.seqno)))
        else if f.flags.syn then EmitNext(Join(c, f.seqno), SYN_ACK, [])
        else c
      case _ => Pump(Deliver(c, f, clock))
  }

  ghost function OnFrame(c: Core, f: Frame, clock: Clock): Core
  {
    Handle(Ack(c, f.ackNum).(peerWindow := f.window), f, clock)
  }

  // ---- One step of a core, as its driving task takes them

  datatype Op =
    | DoConnect
    | DoSend(message: Message)
    | DoClose
    | DoTimeout
    | DoReceive(raw: seq<byte>, clock: Clock)

  /** A message must be fragmentable; a malformed frame never reaches the state machine. */
  ghost predicate Acceptable(op: Op)
  {
    && (op.DoSend? ==> Fragmentable(op.message.payload, MAX_CHUNK_PAYLOAD))
    && (op.DoReceive? ==> Parse(op.raw).Some?)
  }

  /** A dead core takes no further steps: its task has ended. */
  ghost function Apply(c: Core, op: Op): Core
    requires Acceptable(op)
  {
    if c.dead then c
    else
      match op
      case DoConnect => Connect(c)
      case DoSend(m) => SendMessage(c, m)
      case DoClose => Close(c)
      case DoTimeout => OnTimeout(c)
      case DoReceive(raw, clock) => OnFrame(c, Parse(raw).value, clock)
  }
}
