/** A UDP source that has not been validated: whatever it sends, nobody else can tell. */
module RegistryBystander {
  import opened BigEndian
  import opened Registry
  import opened RegistryTheorems

  // ---- One datagram

  /** One datagram: its bytes, the queue made for its source should it become eligible now, and the time. */
  datatype Sent = Sent(frame: Packet, sink: Sink, now: Instant)

  /** What the UDP transport does with one datagram: refresh or admit the source, then forward unless it was refused. */
  function Datagram(bands: Bands, limits: Limits, ip: nat, port: nat, s: Sent): Bands
  {
    if RouteInfo(s.frame).None? then bands
    else
      var band := RouteInfo(s.frame).value.band;
      var seen := ObserveUdp(bands, limits, band, ip, port, s.sink, s.now);
      if Udp(ip, port) !in PeersOf(bands, band) && Admit(bands, limits, band) != Admitted then seen
      else Forward(seen, band, Udp(ip, port), s.frame).0
  }

  ghost predicate Unvalidated(bands: Bands, key: PeerKey)
  {
    forall b :: b in bands && key in bands[b] ==> !bands[b][key].eligible
  }

  /** Forwarding never changes who is eligible. */
  lemma ForwardKeepsEligible(bands: Bands, band: BandId, key: PeerKey, frame: Packet)
    ensures Unvalidated(Forward(bands, band, key, frame).0, key) ==> Unvalidated(bands, key)
  {
    hide Targets, RouteInfo;
    if band in bands && RouteInfo(frame).Some? {
      var after := Declare(bands[band], key, RouteInfo(frame).value.id);
      assert forall k :: k in bands[band] ==> k in after && after[k].eligible == bands[band][k].eligible;
      var next := bands[band := after];
      if Unvalidated(next, key) {
        forall c | c in bands && key in bands[c] ensures !bands[c][key].eligible {
          assert c in next && key in next[c];
        }
      }
    }
  }

  /** A packet that leaves its source ineligible changes no eligible peer, and never revokes eligibility. */
  lemma ObserveEligibility(bands: Bands, limits: Limits, band: BandId, ip: nat, port: nat, sink: Sink, now: Instant,
                           b: BandId)
    ensures var x, y := PeersOf(bands, b), PeersOf(ObserveUdp(bands, limits, band, ip, port, sink, now), b);
            var key := Udp(ip, port);
            && (forall k :: k in x ==> k in y)
            && (forall k :: k in y && k != key ==> k in x && y[k].eligible == x[k].eligible && y[k].sink == x[k].sink)
            && (key in x && x[key].eligible ==> y[key].eligible)
            && (key in y && !y[key].eligible ==> forall k :: k in x && k != key ==> y[k] == x[k])
            && (key !in y ==> y == x)
  {
    hide Supersede;
    var key := Udp(ip, port);
    var x := PeersOf(bands, b);
    if key in PeersOf(bands, band) && b == band {
      var peers := x[key := Refresh(x[key], limits, sink, now)];
      SupersedeFrame(peers, key);
    }
  }

  lemma SupersedeFrame(peers: Peers, key: PeerKey)
    ensures var z := Supersede(peers, key);
            z.Keys == peers.Keys && forall k :: k in peers ==> z[k] == peers[k].(route := z[k].route)
  {
  }

  /** The same peers apart from `key`, which is at most there and not eligible. */
  ghost predicate Beside(x: Bands, y: Bands, key: PeerKey)
  {
    Unvalidated(x, key) && forall b :: PeersOf(x, b) - {key} == PeersOf(y, b)
  }

  /** A declaration by a peer that is not eligible changes at most its own entry. */
  lemma OwnDeclaration(peers: Peers, key: PeerKey, id: nat)
    requires key in peers ==> !peers[key].eligible
    ensures Declare(peers, key, id) - {key} == peers - {key}
  {
    assert Supersede(SetRoute(peers, key, id), key) == SetRoute(peers, key, id);
  }

  lemma OwnDatagram(x: Bands, y: Bands, limits: Limits, ip: nat, port: nat, s: Sent)
    requires Beside(x, y, Udp(ip, port)) && Unvalidated(Datagram(x, limits, ip, port, s), Udp(ip, port))
    ensures Beside(Datagram(x, limits, ip, port, s), y, Udp(ip, port))
  {
    hide Datagram, Unvalidated, PeersOf;
    forall b ensures PeersOf(Datagram(x, limits, ip, port, s), b) - {Udp(ip, port)} == PeersOf(y, b) {
      OwnDatagramByBand(x, limits, ip, port, s, b);
    }
  }

  lemma OwnDatagramByBand(x: Bands, limits: Limits, ip: nat, port: nat, s: Sent, b: BandId)
    requires Unvalidated(Datagram(x, limits, ip, port, s), Udp(ip, port))
    ensures PeersOf(Datagram(x, limits, ip, port, s), b) - {Udp(ip, port)} == PeersOf(x, b) - {Udp(ip, port)}
  {
    hide RouteInfo, ObserveUdp, Forward, PeersOf, Unvalidated;
    if RouteInfo(s.frame).Some? {
      var key, band := Udp(ip, port), RouteInfo(s.frame).value.band;
      var seen := ObserveUdp(x, limits, band, ip, port, s.sink, s.now);
      ForwardKeepsEligible(seen, band, key, s.frame);
      ObservedByBand(x, limits, band, ip, port, s.sink, s.now, b);
      ForwardedByBand(seen, band, key, s.frame, b);
    }
  }

  lemma ObservedByBand(x: Bands, limits: Limits, band: BandId, ip: nat, port: nat, sink: Sink, now: Instant, b: BandId)
    requires Unvalidated(ObserveUdp(x, limits, band, ip, port, sink, now), Udp(ip, port))
    ensures PeersOf(ObserveUdp(x, limits, band, ip, port, sink, now), b) - {Udp(ip, port)}
        == PeersOf(x, b) - {Udp(ip, port)}
  {
    ObserveEligibility(x, limits, band, ip, port, sink, now, b);
    hide ObserveUdp;
  }

  lemma ForwardedByBand(x: Bands, band: BandId, key: PeerKey, frame: Packet, b: BandId)
    requires Unvalidated(x, key)
    ensures PeersOf(Forward(x, band, key, frame).0, b) - {key} == PeersOf(x, b) - {key}
  {
    hide RouteInfo, Targets, Declare;
    if RouteInfo(frame).Some? && b == band && b in x {
      OwnDeclaration(x[b], key, RouteInfo(frame).value.id);
    }
  }

  // ---- Other peers' events, band by band

  /** The event is not the doing of `key`. */
  ghost predicate ByOthers(e: Event, key: PeerKey)
  {
    && key.Udp? && (e.Observe? ==> Udp(e.ip, e.port) != key) && (e.ForwardFrom? ==> e.key != key)
  }

  /** No cap turns anybody away. */
  ghost predicate Room(bands: Bands, limits: Limits, e: Event)
  {
    && (e.ConnectAs? ==> Admit(bands, limits, e.band) == Admitted)
    && (e.Observe? && Udp(e.ip, e.port) !in PeersOf(bands, e.band) ==> Admit(bands, limits, e.band) == Admitted)
  }

  /** What an event for which there is room does to the peers of one band. */
  ghost function PeersAfter(peers: Peers, limits: Limits, e: Event, b: BandId): Peers
  {
    if e.PruneAt? then PrunePeers(peers, e.ttl, e.now)
    else if b != e.band then peers
    else match e
      case ConnectAs(_, id, sink, now) => peers[Conn(id) := NewPeer(limits, sink, true, now)]
      case Observe(_, ip, port, sink, now) => Observed(peers, limits, Udp(ip, port), sink, now)
      case TouchConn(_, id, now) =>
        if Conn(id) !in peers then peers
        else peers[Conn(id) := peers[Conn(id)].(lastSeen := now, seen := Count(peers[Conn(id)].seen))]
      case ForwardFrom(_, key, frame) =>
        if RouteInfo(frame).Some? && RouteInfo(frame).value.kind == Route
            then Declare(peers, key, RouteInfo(frame).value.id) else peers
      case DisconnectConn(_, id) => peers - {Conn(id)}
  }

  ghost function Observed(peers: Peers, limits: Limits, key: PeerKey, sink: Sink, now: Instant): Peers
  {
    if key !in peers then peers[key := NewPeer(limits, sink, false, now)]
    else
      var next := peers[key := Refresh(peers[key], limits, sink, now)];
      if !peers[key].eligible && next[key].eligible then Supersede(next, key) else next
  }

  lemma ApplyByBand(bands: Bands, limits: Limits, e: Event, b: BandId)
    requires Room(bands, limits, e)
    ensures PeersOf(Apply(bands, limits, e), b) == PeersAfter(PeersOf(bands, b), limits, e, b)
  {
    hide Targets, Supersede, RouteInfo, PrunePeers;
    if e.PruneAt? {
      assert PrunePeers(map[], e.ttl, e.now) == map[] by { EmptyPrune(e.ttl, e.now); }
    }
    if e.ForwardFrom? {
      EmptyDeclare(e.key);
    }
  }

  lemma EmptyPrune(ttl: nat, now: Instant)
    ensures PrunePeers(map[], ttl, now) == map[]
  {
  }

  lemma EmptyDeclare(key: PeerKey)
    ensures forall id :: Declare(map[], key, id) == map[]
  {
  }

  /** Without `key` the event does the same to everyone else, and it does not make `key` eligible. */
  lemma PeersAfterBeside(peers: Peers, limits: Limits, e: Event, b: BandId, key: PeerKey)
    requires ByOthers(e, key)
    ensures var after := PeersAfter(peers, limits, e, b);
            && after - {key} == PeersAfter(peers - {key}, limits, e, b)
            && (key in after ==> key in peers && after[key].eligible == peers[key].eligible)
  {
    hide RouteInfo;
    match e
    case Observe(_, ip, port, sink, now) => ObservedBeside(peers, limits, Udp(ip, port), sink, now, key);
    case ForwardFrom(_, from, frame) =>
      if RouteInfo(frame).Some? { DeclareBeside(peers, from, RouteInfo(frame).value.id, key); }
    case _ =>
  }

  lemma SupersedeBeside(peers: Peers, k: PeerKey, key: PeerKey)
    requires k != key
    ensures Supersede(peers, k) - {key} == Supersede(peers - {key}, k)
    ensures key in Supersede(peers, k) ==> key in peers && Supersede(peers, k)[key].eligible == peers[key].eligible
  {
    assert forall q :: q in peers && q != key ==> (Rebound(peers, k, q) <==> Rebound(peers - {key}, k, q));
  }

  lemma ObservedBeside(peers: Peers, limits: Limits, k: PeerKey, sink: Sink, now: Instant, key: PeerKey)
    requires k != key
    ensures var after := Observed(peers, limits, k, sink, now);
            && after - {key} == Observed(peers - {key}, limits, k, sink, now)
            && (key in after ==> key in peers && after[key].eligible == peers[key].eligible)
  {
    hide Supersede;
    if k in peers {
      var next := peers[k := Refresh(peers[k], limits, sink, now)];
      SupersedeBeside(next, k, key);
      assert next - {key} == (peers - {key})[k := Refresh(peers[k], limits, sink, now)];
    }
  }

  lemma DeclareBeside(peers: Peers, k: PeerKey, id: nat, key: PeerKey)
    requires k != key
    ensures Declare(peers, k, id) - {key} == Declare(peers - {key}, k, id)
    ensures key in Declare(peers, k, id) ==> key in peers && Declare(peers, k, id)[key].eligible == peers[key].eligible
  {
    hide Supersede;
    SupersedeBeside(SetRoute(peers, k, id), k, key);
    assert SetRoute(peers, k, id) - {key} == SetRoute(peers - {key}, k, id);
  }

  /** Room with the bystander means room without it. */
  lemma RoomWithout(x: Bands, y: Bands, limits: Limits, e: Event, key: PeerKey)
    requires Beside(x, y, key) && Inv(x, limits) && Inv(y, limits) && Room(x, limits, e) && ByOthers(e, key)
    ensures Room(y, limits, e)
  {
    if e.ConnectAs? {
      AdmitWithout(x, y, limits, e.band, key);
    } else if e.Observe? {
      assert PeersOf(x, e.band) - {key} == PeersOf(y, e.band);
      if Udp(e.ip, e.port) !in PeersOf(x, e.band) {
        AdmitWithout(x, y, limits, e.band, key);
      }
    }
  }

  /** Every band there is without the bystander is there with it. */
  lemma BandsWithout(x: Bands, y: Bands, limits: Limits, key: PeerKey)
    requires Beside(x, y, key) && Inv(y, limits)
    ensures y.Keys <= x.Keys
  {
    forall b | b in y ensures b in x {
      assert PeersOk(y[b], limits) && PeersOf(x, b) - {key} == PeersOf(y, b);
    }
  }

  lemma OneLess(x: Bands, band: BandId)
    requires band in x
    ensures |x - {band}| == |x| - 1
  {
    assert (x - {band}).Keys == x.Keys - {band};
  }

  lemma AdmitWithout(x: Bands, y: Bands, limits: Limits, band: BandId, key: PeerKey)
    requires Beside(x, y, key) && Inv(x, limits) && Inv(y, limits) && Admit(x, limits, band) == Admitted
    ensures Admit(y, limits, band) == Admitted
  {
    hide PeersOk;
    BandsWithout(x, y, limits, key);
    assert PeersOf(x, band) - {key} == PeersOf(y, band);
    FewerKeys(PeersOf(y, band), PeersOf(x, band));
    assert |x| <= limits.maxBands;
    hide Beside, Inv, PeersOf;
    FewerKeys(y, x);
    if band !in y && band in x {
      FewerKeys(y, x - {band});
      OneLess(x, band);
    }
  }

  lemma OthersEvent(x: Bands, y: Bands, limits: Limits, e: Event, key: PeerKey)
    requires Beside(x, y, key) && Inv(x, limits) && Inv(y, limits) && Room(x, limits, e) && ByOthers(e, key)
    ensures Beside(Apply(x, limits, e), Apply(y, limits, e), key)
  {
    RoomWithout(x, y, limits, e, key);
    hide Apply, PeersAfter, Room, ByOthers, Inv;
    var next := Apply(x, limits, e);
    forall b ensures PeersOf(next, b) - {key} == PeersOf(Apply(y, limits, e), b) {
      ApplyByBand(x, limits, e, b);
      ApplyByBand(y, limits, e, b);
      PeersAfterBeside(PeersOf(x, b), limits, e, b, key);
    }
    forall b | b in next && key in next[b] ensures !next[b][key].eligible {
      ApplyByBand(x, limits, e, b);
      PeersAfterBeside(PeersOf(x, b), limits, e, b, key);
    }
  }

  // ---- Whole runs

  datatype Happening = Own(sent: Sent) | Other(event: Event)

  function Step(bands: Bands, limits: Limits, ip: nat, port: nat, h: Happening): Bands
  {
    match h
    case Own(s) => Datagram(bands, limits, ip, port, s)
    case Other(e) => Apply(bands, limits, e)
  }

  /** Everything that happens. */
  function With(bands: Bands, limits: Limits, ip: nat, port: nat, hs: seq<Happening>): Bands
  {
    if hs == [] then bands
    else Step(With(bands, limits, ip, port, hs[..|hs| - 1]), limits, ip, port, hs[|hs| - 1])
  }

  /** The same without the source's datagrams. */
  function Without(bands: Bands, limits: Limits, hs: seq<Happening>): Bands
  {
    if hs == [] then bands
    else
      var before, last := Without(bands, limits, hs[..|hs| - 1]), hs[|hs| - 1];
      if last.Own? then before else Apply(before, limits, last.event)
  }

  /** The source is never validated on the way, and no cap turns another peer away. */
  ghost predicate Calm(bands: Bands, limits: Limits, ip: nat, port: nat, hs: seq<Happening>)
  {
    hs == [] ||
    var before, last := With(bands, limits, ip, port, hs[..|hs| - 1]), hs[|hs| - 1];
    && Calm(bands, limits, ip, port, hs[..|hs| - 1])
    && Unvalidated(Step(before, limits, ip, port, last), Udp(ip, port))
    && (last.Other? ==> Room(before, limits, last.event) && ByOthers(last.event, Udp(ip, port)))
  }

  lemma DatagramKeepsInv(bands: Bands, limits: Limits, ip: nat, port: nat, s: Sent)
    requires Inv(bands, limits) && limits.validation < U32_LIMIT
    ensures Inv(Datagram(bands, limits, ip, port, s), limits)
  {
    hide Inv, ObserveUdp, Forward, RouteInfo;
    if RouteInfo(s.frame).Some? {
      var band := RouteInfo(s.frame).value.band;
      ApplyKeepsInv(bands, limits, Observe(band, ip, port, s.sink, s.now));
      ApplyKeepsInv(ObserveUdp(bands, limits, band, ip, port, s.sink, s.now), limits,
          ForwardFrom(band, Udp(ip, port), s.frame));
    }
  }

  lemma {:induction false} RunsBeside(bands: Bands, limits: Limits, ip: nat, port: nat, hs: seq<Happening>)
    requires Inv(bands, limits) && limits.validation < U32_LIMIT && Calm(bands, limits, ip, port, hs)
    requires forall b :: b in bands ==> Udp(ip, port) !in bands[b]
    ensures var x, y := With(bands, limits, ip, port, hs), Without(bands, limits, hs);
            Inv(x, limits) && Inv(y, limits) && Beside(x, y, Udp(ip, port))
  {
    if hs == [] {
      forall b ensures PeersOf(bands, b) - {Udp(ip, port)} == PeersOf(bands, b) { }
    } else {
      hide Inv, Beside, Apply, Datagram, Room, ByOthers, Unvalidated;
      RunsBeside(bands, limits, ip, port, hs[..|hs| - 1]);
      var x, y := With(bands, limits, ip, port, hs[..|hs| - 1]), Without(bands, limits, hs[..|hs| - 1]);
      match hs[|hs| - 1]
      case Own(s) =>
        DatagramKeepsInv(x, limits, ip, port, s);
        OwnDatagram(x, y, limits, ip, port, s);
      case Other(e) =>
        ApplyKeepsInv(x, limits, e);
        ApplyKeepsInv(y, limits, e);
        OthersEvent(x, y, limits, e, Udp(ip, port));
    }
  }

  lemma BesideRoutesAlike(x: Bands, y: Bands, key: PeerKey, b: BandId, from: Option<PeerKey>, h: Header)
    requires Beside(x, y, key)
    ensures Targets(PeersOf(x, b), from, h) == Targets(PeersOf(y, b), from, h)
  {
    hide Targets;
    var p, q := PeersOf(x, b), PeersOf(y, b);
    assert p - {key} == q;
    assert key in p ==> !p[key].eligible;
    assert forall k :: k in q ==> k in p && p[k] == q[k];
    assert forall k :: k in p && k != key ==> k in q;
    SameTargets(p, q, from, h);
  }

  /** Whatever datagrams a UDP source sends, ROUTE frames included, to whatever bands, in between whatever other peers
      do: as long as it is never validated and no cap turns another peer away, every frame of every peer goes exactly
      where it would have gone had the source sent nothing. */
  lemma UnvalidatedSourceIsInert(bands: Bands, limits: Limits, ip: nat, port: nat, hs: seq<Happening>,
                                 b: BandId, from: Option<PeerKey>, h: Header)
    requires Inv(bands, limits) && limits.validation < U32_LIMIT && Calm(bands, limits, ip, port, hs)
    requires forall c :: c in bands ==> Udp(ip, port) !in bands[c]
    ensures Targets(PeersOf(With(bands, limits, ip, port, hs), b), from, h)
         == Targets(PeersOf(Without(bands, limits, hs), b), from, h)
  {
    hide Calm, Inv, With, Without, Beside, Targets, PeersOf;
    RunsBeside(bands, limits, ip, port, hs);
    BesideRoutesAlike(With(bands, limits, ip, port, hs), Without(bands, limits, hs), Udp(ip, port), b, from, h);
  }
}
