/** Session epochs and replay watermarks of one Band (telesthete/band.py, telesthete/protocol/control.py,
    telesthete/protocol/stream.py), as values. Encryption is ideal: a packet opens only under its own key. */
module Session {
  import opened BigEndian

  type Addr = nat
  type StreamId = nat
  type Cipher = string

  const BASELINE: Cipher := "chacha20-poly1305"
  const MAX_PEERS := 4096
  const UNKNOWN_EPOCH := -1

  /** The base key bootstraps handshakes; everything else uses a key per suite and sender epoch. */
  datatype Key = Base | Data(cipher: Cipher, epoch: int)

  /** `ciphers` is `None` when the field is not something a suite can be selected from: the handler then raises
      before it has touched the peer record. `OtherControl` is a known type without a handler here; `Unknown` is
      an unknown type or an unreadable body. */
  datatype Control =
    | Hello(epoch: int, ciphers: Option<seq<Cipher>>)
    | HelloAck(epoch: int, cipher: Cipher)
    | Keepalive
    | Goodbye
    | OtherControl
    | Unknown

  datatype ControlPacket = ControlPacket(key: Key, seqno: nat, body: Control)
  datatype StreamPacket = StreamPacket(key: Key, seqno: nat)

  datatype Peer = Peer(epoch: int, cipher: Cipher, lastSeen: nat)

  /** One authenticated, fresh packet: who, on what, and its place in the peer's numbering. */
  datatype Receipt = Receipt(addr: Addr, epoch: int, seqno: nat)

  datatype Band = Band(
    ciphers: seq<Cipher>,
    peers: map<Addr, Peer>,
    session: map<Addr, int>,                      // control channel: epoch per peer
    watermark: map<Addr, nat>,                    // control channel: highest sequence per peer
    streams: map<StreamId, map<Addr, nat>>,       // per stream: highest sequence per peer
    dispatched: seq<Receipt>,                     // history of accepted control packets
    accepted: map<StreamId, seq<Receipt>>)        // history of accepted stream packets

  function NewBand(ciphers: seq<Cipher>): Band
  {
    Band(if BASELINE in ciphers then ciphers else ciphers + [BASELINE], map[], map[], map[], map[], [], map[])
  }

  function SessionOf(session: map<Addr, int>, addr: Addr): int
  {
    if addr in session then session[addr] else UNKNOWN_EPOCH
  }

  function RecvKey(b: Band, addr: Addr): Option<Key>
  {
    if addr !in b.peers || b.peers[addr].epoch < 0 then None
    else Some(Data(b.peers[addr].cipher, b.peers[addr].epoch))
  }

  // ---- Peers

  function RemovePeer(b: Band, addr: Addr): Band
  {
    b.(peers := b.peers - {addr})
  }

  function Touch(b: Band, addr: Addr, now: nat): Band
  {
    if addr in b.peers then b.(peers := b.peers[addr := b.peers[addr].(lastSeen := now)]) else b
  }

  ghost predicate IsStalest(peers: map<Addr, Peer>, addr: Addr)
  {
    addr in peers && forall a :: a in peers ==> peers[addr].lastSeen <= peers[a].lastSeen
  }

  /** `now` is when the packet came in; at the cap the least recently seen peer `victim` makes way. */
  function EnsurePeer(b: Band, addr: Addr, victim: Addr, now: nat): Band
  {
    if addr in b.peers then b
    else
      var b1 := if |b.peers| >= MAX_PEERS then RemovePeer(b, victim) else b;
      b1.(peers := b1.peers[addr := Peer(UNKNOWN_EPOCH, BASELINE, now)])
  }

  /** The first of the initiator's suites that we support, else the baseline. */
  function SelectCipher(prefs: seq<Cipher>, supported: seq<Cipher>): Cipher
  {
    if prefs == [] then BASELINE
    else if prefs[0] in supported || prefs[0] == BASELINE then prefs[0]
    else SelectCipher(prefs[1..], supported)
  }

  /** Adopt a handshake's epoch and suite, unless it is older than what we hold. */
  function Adopt(b: Band, addr: Addr, epoch: int, cipher: Cipher, victim: Addr, now: nat): Band
  {
    var e := EnsurePeer(b, addr, victim, now);
    if addr in e.peers && epoch < e.peers[addr].epoch then e
    else e.(peers := e.peers[addr := Peer(epoch, cipher, now)])
  }

  function Dispatch(b: Band, addr: Addr, m: Control, victim: Addr, now: nat): Band
  {
    match m
    case Hello(epoch, ciphers) =>
      if ciphers.None? then b else Adopt(b, addr, epoch, SelectCipher(ciphers.value, b.ciphers), victim, now)
    case HelloAck(epoch, cipher) =>
      Adopt(b, addr, epoch, if cipher in b.ciphers then cipher else BASELINE, victim, now)
    case Keepalive => Touch(b, addr, now)
    case Goodbye => RemovePeer(b, addr)
    case _ => b
  }

  // ---- Packets

  /** A restart of the peer: forget where its streams had got to. */
  function ResetStreams(streams: map<StreamId, map<Addr, nat>>, addr: Addr): map<StreamId, map<Addr, nat>>
  {
    map sid | sid in streams :: streams[sid] - {addr}
  }

  function Raise(watermark: map<Addr, nat>, addr: Addr, seqno: nat): map<Addr, nat>
  {
    watermark[addr := seqno]
  }

  /** History: one more receipt on a stream. */
  function Record(accepted: map<StreamId, seq<Receipt>>, sid: StreamId, r: Receipt): map<StreamId, seq<Receipt>>
  {
    accepted[sid := (if sid in accepted then accepted[sid] else []) + [r]]
  }

  predicate Authentic(b: Band, addr: Addr, key: Key)
  {
    RecvKey(b, addr) == Some(key) || key == Base
  }

  predicate IsHandshake(m: Control)
  {
    m.Hello? || m.HelloAck?
  }

  /** Record a control packet as accepted and hand it to its handler. */
  function AcceptControl(b: Band, addr: Addr, p: ControlPacket, victim: Addr, now: nat): Band
  {
    var r := Receipt(addr, SessionOf(b.session, addr), p.seqno);
    Dispatch(b.(watermark := Raise(b.watermark, addr, p.seqno), dispatched := b.dispatched + [r]), addr, p.body,
        victim, now)
  }

  function HandleControl(b: Band, addr: Addr, p: ControlPacket, victim: Addr, now: nat): Band
  {
    var t := Touch(b, addr, now);
    if !Authentic(t, addr, p.key) || p.body.Unknown? then t
    else
      var prev := SessionOf(t.session, addr);
      if IsHandshake(p.body) && p.body.epoch < prev then t
      else if IsHandshake(p.body) && p.body.epoch > prev then
        AcceptControl(t.(session := t.session[addr := p.body.epoch], streams := ResetStreams(t.streams, addr)),
                      addr, p, victim, now)
      else if addr in t.watermark && p.seqno <= t.watermark[addr] then t
      else AcceptControl(t, addr, p, victim, now)
  }

  function HandleStream(b: Band, sid: StreamId, addr: Addr, p: StreamPacket, now: nat): Band
  {
    var t := Touch(b, addr, now);
    if sid !in t.streams then t
    else if addr in t.streams[sid] && p.seqno <= t.streams[sid][addr] then t
    else if RecvKey(t, addr) != Some(p.key) then t
    else
      t.(streams := t.streams[sid := Raise(t.streams[sid], addr, p.seqno)],
         accepted := Record(t.accepted, sid, Receipt(addr, p.key.epoch, p.seqno)))
  }

  function OpenStream(b: Band, sid: StreamId): Band
  {
    if sid in b.streams then b
    else b.(streams := b.streams[sid := map[]], accepted := b.accepted[sid := []])
  }
}
