/** What holds in every reachable registry, and where frames go there. */
module RegistryTheorems {
  import opened BigEndian
  import opened Registry
  import opened Sums

  // ---- Every reachable registry

  ghost predicate PeerOk(k: PeerKey, p: Peer, limits: Limits)
  {
    && (p.sink.Some? <==> p.eligible)
    && (k.Conn? ==> p.eligible)
    && (k.Udp? ==> (p.eligible <==> p.seen >= limits.validation))
    && 1 <= p.seen < U32_LIMIT
    && p.route != Some(0)
  }

  ghost predicate PeersOk(peers: Peers, limits: Limits)
  {
    && 0 < |peers| <= limits.maxPeers
    && forall k :: k in peers ==> PeerOk(k, peers[k], limits)
  }

  ghost predicate Inv(bands: Bands, limits: Limits)
  {
    && |bands| <= limits.maxBands
    && forall b :: b in bands ==> PeersOk(bands[b], limits)
  }

  /** What transports and timers do. Connection transports use `Conn` keys, the UDP transport `Udp` keys. */
  datatype Event =
    | ConnectAs(band: BandId, id: nat, sink: Sink, now: Instant)
    | Observe(band: BandId, ip: nat, port: nat, sink: Sink, now: Instant)
    | TouchConn(band: BandId, id: nat, now: Instant)
    | ForwardFrom(band: BandId, key: PeerKey, frame: Packet)
    | DisconnectConn(band: BandId, id: nat)
    | PruneAt(ttl: nat, now: Instant)

  function Apply(bands: Bands, limits: Limits, e: Event): Bands
  {
    match e
    case ConnectAs(band, id, sink, now) => Insert(bands, limits, band, Conn(id), sink, true, now)
    case Observe(band, ip, port, sink, now) => ObserveUdp(bands, limits, band, ip, port, sink, now)
    case TouchConn(band, id, now) => Touch(bands, band, Conn(id), now)
    case ForwardFrom(band, key, frame) => Forward(bands, band, key, frame).0
    case DisconnectConn(band, id) => Disconnect(bands, band, Conn(id))
    case PruneAt(ttl, now) => Prune(bands, ttl, now)
  }

  function Run(limits: Limits, events: seq<Event>): Bands
  {
    if events == [] then map[]
    else Apply(Run(limits, events[..|events| - 1]), limits, events[|events| - 1])
  }

  lemma KeyCount<K, V>(m: map<K, V>, k: K, v: V)
    ensures |m[k := v]| == if k in m then |m| else |m| + 1
  {
    assert m[k := v].Keys == m.Keys + {k};
    if k in m {
      assert m.Keys + {k} == m.Keys;
    }
  }

  lemma FewerKeys<K, V, W>(small: map<K, V>, big: map<K, W>)
    requires small.Keys <= big.Keys
    ensures |small| <= |big|
  {
    SubsetCard(small.Keys, big.Keys);
  }

  /** Replacing the peers of one band by good ones. */
  lemma PutKeepsInv(bands: Bands, limits: Limits, band: BandId, peers: Peers)
    requires Inv(bands, limits) && PeersOk(peers, limits) && (band !in bands ==> |bands| < limits.maxBands)
    ensures Inv(bands[band := peers], limits)
  {
    hide PeersOk;
    KeyCount(bands, band, peers);
  }

  lemma InsertKeepsInv(bands: Bands, limits: Limits, band: BandId, key: PeerKey, sink: Sink, conn: bool, now: Instant)
    requires Inv(bands, limits) && conn == key.Conn?
    ensures Inv(Insert(bands, limits, band, key, sink, conn, now), limits)
  {
    if Admit(bands, limits, band) == Admitted {
      var peers := PeersOf(bands, band);
      var next := peers[key := NewPeer(limits, sink, conn, now)];
      KeyCount(peers, key, NewPeer(limits, sink, conn, now));
      assert PeersOk(next, limits);
      PutKeepsInv(bands, limits, band, next);
    }
  }

  lemma SupersedeKeeps(peers: Peers, limits: Limits, key: PeerKey)
    requires PeersOk(peers, limits)
    ensures PeersOk(Supersede(peers, key), limits)
  {
    assert Supersede(peers, key).Keys == peers.Keys;
    FewerKeys(Supersede(peers, key), peers);
    FewerKeys(peers, Supersede(peers, key));
  }

  lemma ObserveKeepsInv(bands: Bands, limits: Limits, band: BandId, ip: nat, port: nat, sink: Sink, now: Instant)
    requires Inv(bands, limits) && limits.validation < U32_LIMIT
    ensures Inv(ObserveUdp(bands, limits, band, ip, port, sink, now), limits)
  {
    hide Supersede;
    var key := Udp(ip, port);
    if key in PeersOf(bands, band) {
      var p := Refresh(bands[band][key], limits, sink, now);
      var peers := bands[band][key := p];
      assert PeerOk(key, bands[band][key], limits) && PeerOk(key, p, limits);
      KeyCount(bands[band], key, p);
      assert PeersOk(peers, limits);
      SupersedeKeeps(peers, limits, key);
      PutKeepsInv(bands, limits, band, peers);
      PutKeepsInv(bands, limits, band, Supersede(peers, key));
    } else {
      InsertKeepsInv(bands, limits, band, key, sink, false, now);
    }
  }

  lemma TouchKeepsInv(bands: Bands, limits: Limits, band: BandId, id: nat, now: Instant)
    requires Inv(bands, limits)
    ensures Inv(Touch(bands, band, Conn(id), now), limits)
  {
    var peers := PeersOf(bands, band);
    if Conn(id) in peers {
      var p := peers[Conn(id)].(lastSeen := now, seen := Count(peers[Conn(id)].seen));
      assert PeerOk(Conn(id), peers[Conn(id)], limits);
      KeyCount(peers, Conn(id), p);
      assert PeersOk(peers[Conn(id) := p], limits);
      PutKeepsInv(bands, limits, band, peers[Conn(id) := p]);
    }
  }

  lemma DeclareKeeps(peers: Peers, limits: Limits, key: PeerKey, id: nat)
    requires PeersOk(peers, limits)
    ensures PeersOk(Declare(peers, key, id), limits)
  {
    hide Supersede;
    if key in peers {
      KeyCount(peers, key, SetRoute(peers, key, id)[key]);
      assert PeerOk(key, peers[key], limits);
    }
    SupersedeKeeps(SetRoute(peers, key, id), limits, key);
  }

  lemma DisconnectKeepsInv(bands: Bands, limits: Limits, band: BandId, key: PeerKey)
    requires Inv(bands, limits)
    ensures Inv(Disconnect(bands, band, key), limits)
  {
    if band in bands {
      var rest := bands[band] - {key};
      FewerKeys(rest, bands[band]);
      FewerKeys(bands - {band}, bands);
      if rest != map[] {
        assert rest.Keys != {};
        assert PeersOk(rest, limits);
        PutKeepsInv(bands, limits, band, rest);
      }
    }
  }

  lemma PruneKeepsInv(bands: Bands, limits: Limits, ttl: nat, now: Instant)
    requires Inv(bands, limits)
    ensures Inv(Prune(bands, ttl, now), limits)
  {
    FewerKeys(Prune(bands, ttl, now), bands);
    forall b | b in Prune(bands, ttl, now) ensures PeersOk(Prune(bands, ttl, now)[b], limits) {
      var rest := PrunePeers(bands[b], ttl, now);
      FewerKeys(rest, bands[b]);
      assert rest.Keys != {};
    }
  }

  lemma ApplyKeepsInv(bands: Bands, limits: Limits, e: Event)
    requires Inv(bands, limits) && limits.validation < U32_LIMIT
    ensures Inv(Apply(bands, limits, e), limits)
  {
    hide Insert, ObserveUdp, Touch, Declare, Disconnect, Prune, PeersOk, Targets;
    match e
    case ConnectAs(band, id, sink, now) => InsertKeepsInv(bands, limits, band, Conn(id), sink, true, now);
    case Observe(band, ip, port, sink, now) => ObserveKeepsInv(bands, limits, band, ip, port, sink, now);
    case TouchConn(band, id, now) => TouchKeepsInv(bands, limits, band, id, now);
    case ForwardFrom(band, key, frame) =>
      if band in bands && RouteInfo(frame).Some? {
        DeclareKeeps(bands[band], limits, key, RouteInfo(frame).value.id);
        PutKeepsInv(bands, limits, band, Declare(bands[band], key, RouteInfo(frame).value.id));
      }
    case DisconnectConn(band, id) => DisconnectKeepsInv(bands, limits, band, Conn(id));
    case PruneAt(ttl, now) => PruneKeepsInv(bands, limits, ttl, now);
  }

  /** In every reachable registry the caps hold, no band is empty, a peer has a queue exactly when it is eligible, and a
      UDP source is eligible exactly when it has sent the required number of packets. */
  lemma {:induction false} ReachableInv(limits: Limits, events: seq<Event>)
    requires limits.validation < U32_LIMIT
    ensures Inv(Run(limits, events), limits)
  {
    hide PeersOk, Apply;
    if events != [] {
      ReachableInv(limits, events[..|events| - 1]);
      ApplyKeepsInv(Run(limits, events[..|events| - 1]), limits, events[|events| - 1]);
    }
  }

  // ---- Where frames go

  /** Everyone who could receive: eligible, and not the sender. */
  ghost function Others(peers: Peers, from: Option<PeerKey>): set<PeerKey>
  {
    set k | k in peers && Some(k) != from && peers[k].eligible
  }

  /** Of those, the ones that hold a route id. */
  ghost function Holders(peers: Peers, from: Option<PeerKey>, id: nat): set<PeerKey>
  {
    set k | k in Others(peers, from) && peers[k].route == Some(id)
  }

  /** Destinations in a band of any reachable registry: the other eligible holders of a nonzero addressed id when there
      are any, otherwise every other eligible peer; so never the sender, and nobody only when there is nobody. */
  lemma Destinations(limits: Limits, events: seq<Event>, band: BandId, from: Option<PeerKey>, h: Header)
    requires limits.validation < U32_LIMIT && band in Run(limits, events)
    ensures var peers := Run(limits, events)[band];
            var holders := Holders(peers, from, h.id);
            && Targets(peers, from, h) == (if h.kind == Addressed && h.id != 0 && holders != {} then holders
                 else Others(peers, from))
            && (Targets(peers, from, h) == {} <==> Others(peers, from) == {})
            && (from.Some? ==> from.value !in Targets(peers, from, h))
            && (forall k :: k in Targets(peers, from, h) ==> peers[k].sink.Some?)
  {
    ReachableInv(limits, events);
    var peers := Run(limits, events)[band];
    hide Run;
    assert forall k :: k in peers ==> PeerOk(k, peers[k], limits);
    TargetsExact(peers, from, h);
  }

  lemma TargetsExact(peers: Peers, from: Option<PeerKey>, h: Header)
    requires forall k :: k in peers ==> (peers[k].sink.Some? <==> peers[k].eligible)
    ensures var holders := Holders(peers, from, h.id);
            Targets(peers, from, h) == if h.kind == Addressed && h.id != 0 && holders != {} then holders
                else Others(peers, from)
  {
    var holders := Holders(peers, from, h.id);
    if h.kind == Addressed && h.id != 0 {
      if holders != {} {
        var k :| k in holders;
        assert Declares(peers, from, h.id, k);
      } else {
        forall k | k in peers ensures !Declares(peers, from, h.id, k) {
          assert k !in holders;
        }
      }
    }
  }

  /** Two bands' peers that agree on who is eligible, with which queue and which route, send every frame alike. */
  lemma SameTargets(p: Peers, q: Peers, from: Option<PeerKey>, h: Header)
    requires forall k :: (k in p && p[k].eligible) <==> (k in q && q[k].eligible)
    requires forall k :: k in p && k in q && p[k].eligible ==> p[k].route == q[k].route && p[k].sink == q[k].sink
    ensures Targets(p, from, h) == Targets(q, from, h)
  {
    assert forall k :: Declares(p, from, h.id, k) <==> Declares(q, from, h.id, k);
    assert IsAddressed(p, from, h) <==> IsAddressed(q, from, h);
  }

  /** A declaration by a peer that is not eligible yet leaves every peer's routing as it was. */
  lemma IneligibleDeclaration(peers: Peers, key: PeerKey, id: nat, from: Option<PeerKey>, h: Header)
    requires key in peers ==> !peers[key].eligible
    ensures Targets(Declare(peers, key, id), from, h) == Targets(peers, from, h)
  {
    hide Targets;
    var set0 := SetRoute(peers, key, id);
    assert Supersede(set0, key) == set0;
    SameTargets(peers, set0, from, h);
  }

  /** Superseding never leaves an id that an eligible peer held without an eligible holder. */
  lemma SupersedeKeepsAHolder(peers: Peers, key: PeerKey, id: nat)
    requires Holders(peers, None, id) != {}
    ensures Holders(Supersede(peers, key), None, id) != {}
  {
    var k :| k in Holders(peers, None, id);
    var after := Supersede(peers, key);
    if Rebound(peers, key, k) {
      assert key in Holders(after, None, id);
    } else {
      assert k in Holders(after, None, id);
    }
  }
}
