/** The hub's band registry (rust/telesthitium/src/registry.rs): membership, UDP validation, addressed routing. */
module Registry {
  import opened BigEndian

  const BAND_ID_LEN := 16
  const MIN_PACKET_LEN := 43

  type BandId = s: seq<byte> | |s| == BAND_ID_LEN witness [0, 0, 0, 0, 0, 0, 0, 0, 0, 0, 0, 0, 0, 0, 0, 0]
  type Packet = seq<byte>
  type Instant = nat

  /** The egress queue of one peer, by identity. */
  type Sink = nat

  datatype Kind = Route | Addressed | OtherKind
  datatype Header = Header(band: BandId, kind: Kind, id: nat)

  datatype PeerKey = Udp(ip: nat, port: nat) | Conn(id: nat)

  datatype Peer = Peer(
    sink: Option<Sink>,
    firstSeen: Instant,
    lastSeen: Instant,
    eligible: bool,
    seen: nat,
    route: Option<nat>)

  type Peers = map<PeerKey, Peer>
  type Bands = map<BandId, Peers>

  datatype Limits = Limits(maxBands: nat, maxPeers: nat, validation: nat)

  datatype Admission = Admitted | BandCap | PeerCap

  /** The cleartext header; `None` for a packet too short to be a frame. */
  function RouteInfo(frame: Packet): Option<Header>
  {
    if |frame| < MIN_PACKET_LEN then None
    else Some(Header(frame[..BAND_ID_LEN],
                     if frame[16] == 5 then Route else if frame[16] == 6 then Addressed else OtherKind,
                     FromBytes(frame[17..19])))
  }

  /** The fields of a frame long enough to be one are read back from their fixed places. */
  lemma HeaderRoundTrip(band: BandId, kind: byte, id: nat, rest: Packet)
    requires id < U16_LIMIT && |rest| >= MIN_PACKET_LEN - 19
    ensures RouteInfo(band + [kind] + ToBytes(id, 2) + rest)
         == Some(Header(band, if kind == 5 then Route else if kind == 6 then Addressed else OtherKind, id))
  {
    hide ToBytes, FromBytes;
    CapacityOfHeaderFields();
    FromToBytes(id, 2);
    var frame := band + [kind] + ToBytes(id, 2) + rest;
    assert frame[..BAND_ID_LEN] == band && frame[16] == kind && frame[17..19] == ToBytes(id, 2);
  }

  /** A saturating 32-bit counter. */
  function Count(seen: nat): nat
  {
    if seen + 1 < U32_LIMIT then seen + 1 else seen
  }

  // ---- Membership

  function NewPeer(limits: Limits, sink: Sink, conn: bool, now: Instant): Peer
  {
    var eligible := conn || limits.validation <= 1;
    Peer(if eligible then Some(sink) else None, now, now, eligible, 1, None)
  }

  function PeersOf(bands: Bands, band: BandId): Peers
  {
    if band in bands then bands[band] else map[]
  }

  function Admit(bands: Bands, limits: Limits, band: BandId): Admission
  {
    if band !in bands && |bands| >= limits.maxBands then BandCap
    else if |PeersOf(bands, band)| >= limits.maxPeers then PeerCap
    else Admitted
  }

  function Insert(bands: Bands, limits: Limits, band: BandId, key: PeerKey, sink: Sink, conn: bool, now: Instant): Bands
  {
    if Admit(bands, limits, band) != Admitted then bands
    else bands[band := PeersOf(bands, band)[key := NewPeer(limits, sink, conn, now)]]
  }

  /** `q` looks like the dead mapping `key` has rebound from. */
  predicate Rebound(peers: Peers, key: PeerKey, q: PeerKey)
  {
    && key in peers && q in peers && key.Udp? && q.Udp? && q != key && q.ip == key.ip
    && peers[key].eligible && peers[key].route.Some?
    && peers[q].route == peers[key].route && peers[q].lastSeen < peers[key].firstSeen
  }

  function Supersede(peers: Peers, key: PeerKey): Peers
  {
    map q | q in peers :: if Rebound(peers, key, q) then peers[q].(route := None) else peers[q]
  }

  /** One more packet from a known peer; a UDP peer that has now sent enough gets its queue. */
  function Refresh(p: Peer, limits: Limits, sink: Sink, now: Instant): Peer
  {
    var counted := p.(lastSeen := now, seen := Count(p.seen));
    if !p.eligible && counted.seen >= limits.validation then counted.(eligible := true, sink := Some(sink)) else counted
  }

  function ObserveUdp(bands: Bands, limits: Limits, band: BandId, ip: nat, port: nat, sink: Sink, now: Instant): Bands
  {
    var key := Udp(ip, port);
    if key in PeersOf(bands, band) then
      var was := PeersOf(bands, band)[key];
      var peers := PeersOf(bands, band)[key := Refresh(was, limits, sink, now)];
      bands[band := if !was.eligible && peers[key].eligible then Supersede(peers, key) else peers]
    else Insert(bands, limits, band, key, sink, false, now)
  }

  function Touch(bands: Bands, band: BandId, key: PeerKey, now: Instant): Bands
  {
    var peers := PeersOf(bands, band);
    if key !in peers then bands
    else bands[band := peers[key := peers[key].(lastSeen := now, seen := Count(peers[key].seen))]]
  }

  /** Put back a band's peers, or forget the band when it has none. */
  function Settle(bands: Bands, band: BandId, peers: Peers): Bands
  {
    if peers == map[] then bands - {band} else bands[band := peers]
  }

  function Disconnect(bands: Bands, band: BandId, key: PeerKey): Bands
  {
    if band !in bands then bands else Settle(bands, band, bands[band] - {key})
  }

  predicate Fresh(k: PeerKey, p: Peer, ttl: nat, now: Instant)
  {
    k.Conn? || now <= p.lastSeen + ttl
  }

  function PrunePeers(peers: Peers, ttl: nat, now: Instant): Peers
  {
    map k | k in peers && Fresh(k, peers[k], ttl, now) :: peers[k]
  }

  function Prune(bands: Bands, ttl: nat, now: Instant): Bands
  {
    map b | b in bands && PrunePeers(bands[b], ttl, now) != map[] :: PrunePeers(bands[b], ttl, now)
  }

  // ---- Relay

  predicate Declares(peers: Peers, from: Option<PeerKey>, id: nat, k: PeerKey)
  {
    k in peers && Some(k) != from && peers[k].eligible && peers[k].route == Some(id)
  }

  predicate IsAddressed(peers: Peers, from: Option<PeerKey>, h: Header)
  {
    h.kind == Addressed && h.id != 0 && exists k :: k in peers && Declares(peers, from, h.id, k)
  }

  /** The peers a frame goes to. A queue is cloned only where one exists. */
  function Targets(peers: Peers, from: Option<PeerKey>, h: Header): set<PeerKey>
  {
    var addressed := IsAddressed(peers, from, h);
    set k | k in peers && Some(k) != from && peers[k].eligible && (addressed ==> Declares(peers, from, h.id, k))
        && peers[k].sink.Some?
  }

  function SetRoute(peers: Peers, key: PeerKey, id: nat): Peers
  {
    if key in peers then peers[key := peers[key].(route := if id != 0 then Some(id) else None)] else peers
  }

  function Declare(peers: Peers, key: PeerKey, id: nat): Peers
  {
    Supersede(SetRoute(peers, key, id), key)
  }

  /** A frame from a local peer: the new registry, the peers it is queued to, and whether it is offered to linked
      hubs. */
  function Forward(bands: Bands, band: BandId, from: PeerKey, frame: Packet): (Bands, set<PeerKey>, bool)
  {
    var h := RouteInfo(frame);
    if h.None? || band !in bands then (bands, {}, false)
    else if h.value.kind == Route then (bands[band := Declare(bands[band], from, h.value.id)], {}, false)
    else (bands, Targets(bands[band], Some(from), h.value), true)
  }

  /** A frame from a linked hub: the peers it is queued to. It is never offered to another link. */
  function Inject(bands: Bands, band: BandId, frame: Packet): set<PeerKey>
  {
    var h := RouteInfo(frame);
    if h.None? || h.value.kind == Route || band !in bands then {}
    else Targets(bands[band], None, h.value)
  }
}
