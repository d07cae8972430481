/** What each registry operation does, told in terms of who is registered and who is sent what. */
module RegistryEffects {
  import opened BigEndian
  import opened Registry
  import opened RegistryTheorems

  // ---- Relaying, in every reachable registry

  /** Whoever may receive a frame: the holders of a nonzero addressed id when there are any, otherwise everyone. */
  ghost function Audience(peers: Peers, from: Option<PeerKey>, h: Header): set<PeerKey>
  {
    var holders := Holders(peers, from, h.id);
    if h.kind == Addressed && h.id != 0 && holders != {} then holders else Others(peers, from)
  }

  /** A peer's frame, other than a ROUTE: queued to exactly its audience, which the sender is never in; offered to
      linked hubs; the registry is as it was. */
  lemma ForwardDelivers(limits: Limits, events: seq<Event>, band: BandId, key: PeerKey, frame: Packet)
    requires limits.validation < U32_LIMIT && band in Run(limits, events)
    requires |frame| >= MIN_PACKET_LEN && RouteInfo(frame).value.kind != Route
    ensures var bands := Run(limits, events);
            var (after, to, offered) := Forward(bands, band, key, frame);
            && after == bands && offered
            && to == Audience(bands[band], Some(key), RouteInfo(frame).value) && key !in to
  {
    var h := RouteInfo(frame).value;
    hide Run, Targets;
    Destinations(limits, events, band, Some(key), h);
  }

  /** A frame from a linked hub: queued to exactly its audience, with no sender to leave out. A ROUTE frame is
      dropped. */
  lemma InjectDelivers(limits: Limits, events: seq<Event>, band: BandId, frame: Packet)
    requires limits.validation < U32_LIMIT && band in Run(limits, events) && |frame| >= MIN_PACKET_LEN
    ensures Inject(Run(limits, events), band, frame)
         == if RouteInfo(frame).value.kind == Route then {}
            else Audience(Run(limits, events)[band], None, RouteInfo(frame).value)
  {
    var h := RouteInfo(frame).value;
    hide Run, Targets;
    Destinations(limits, events, band, None, h);
  }

  /** A packet too short to be a frame, or for a band nobody is in, has no effect at all. */
  lemma NothingToRelay(bands: Bands, band: BandId, key: PeerKey, frame: Packet)
    requires |frame| < MIN_PACKET_LEN || band !in bands
    ensures Forward(bands, band, key, frame) == (bands, {}, false) && Inject(bands, band, frame) == {}
  {
  }

  // ---- Declaring a route id

  /** `q` is a UDP entry of the same host as `key` that fell silent before `key` appeared. */
  ghost predicate Abandoned(peers: Peers, key: PeerKey, q: PeerKey)
  {
    && key in peers && q in peers && q != key && key.Udp? && q.Udp? && q.ip == key.ip
    && peers[q].lastSeen < peers[key].firstSeen
  }

  /** `key` holds `id` and everyone else is as before, except that addresses it has abandoned do not hold `id`. */
  ghost predicate TookOver(before: Peers, after: Peers, key: PeerKey, id: nat)
  {
    && after.Keys == before.Keys && key in after && after[key] == before[key].(route := Some(id))
    && forall q :: q in before && q != key ==>
         after[q] == if Abandoned(before, key, q) && before[q].route == Some(id) then before[q].(route := None)
                     else before[q]
  }

  /** A ROUTE frame of an eligible peer: it goes nowhere. A nonzero id becomes the peer's, taken over from the addresses
      its host has abandoned; id 0 withdraws what the peer had and touches nobody else. */
  lemma RouteDeclares(bands: Bands, band: BandId, key: PeerKey, frame: Packet)
    requires band in bands && key in bands[band] && bands[band][key].eligible
    requires |frame| >= MIN_PACKET_LEN && RouteInfo(frame).value.kind == Route
    ensures var (after, to, offered) := Forward(bands, band, key, frame);
            var id := RouteInfo(frame).value.id;
            && to == {} && !offered && after.Keys == bands.Keys
            && (forall b :: b in bands && b != band ==> after[b] == bands[b])
            && (id != 0 ==> TookOver(bands[band], after[band], key, id) && key in Holders(after[band], None, id))
            && (id == 0 ==> after[band] == bands[band][key := bands[band][key].(route := None)])
  {
    hide Targets;
    var id := RouteInfo(frame).value.id;
    if id == 0 {
      var withdrawn := SetRoute(bands[band], key, 0);
      assert Supersede(withdrawn, key) == withdrawn;
    }
  }

  /** A ROUTE frame of a peer still being validated is recorded on that peer and has no other effect. */
  lemma EarlyRouteIsRecorded(bands: Bands, band: BandId, key: PeerKey, frame: Packet)
    requires band in bands && key in bands[band] && !bands[band][key].eligible
    requires |frame| >= MIN_PACKET_LEN && RouteInfo(frame).value.kind == Route && RouteInfo(frame).value.id != 0
    ensures var (after, to, offered) := Forward(bands, band, key, frame);
            && to == {} && !offered
            && after == bands[band := bands[band][key := bands[band][key].(route := Some(RouteInfo(frame).value.id))]]
  {
    hide Targets;
    var set0 := SetRoute(bands[band], key, RouteInfo(frame).value.id);
    assert Supersede(set0, key) == set0;
  }

  /** The packet that validates a source makes what it declared before count, takeover included. */
  lemma ValidationTakesOver(bands: Bands, limits: Limits, band: BandId, ip: nat, port: nat, sink: Sink, now: Instant)
    requires band in bands && Udp(ip, port) in bands[band] && !bands[band][Udp(ip, port)].eligible
    requires Count(bands[band][Udp(ip, port)].seen) >= limits.validation && bands[band][Udp(ip, port)].route.Some?
    ensures var key, was := Udp(ip, port), bands[band][Udp(ip, port)];
            var ready := was.(eligible := true, sink := Some(sink), lastSeen := now, seen := Count(was.seen));
            var after := ObserveUdp(bands, limits, band, ip, port, sink, now);
            TookOver(bands[band][key := ready], after[band], key, was.route.value)
  {
  }

  // ---- Validation, by the packet

  /** `n` packets in a row from one UDP source. */
  function Observes(bands: Bands, limits: Limits, band: BandId, ip: nat, port: nat, sink: Sink, now: Instant,
                    n: nat): Bands
  {
    if n == 0 then bands
    else ObserveUdp(Observes(bands, limits, band, ip, port, sink, now, n - 1), limits, band, ip, port, sink, now)
  }

  /** A source nobody has heard of, for which there is room: after its `n`-th packet it is registered, and it can
      receive exactly if `n` is at least the required number. */
  lemma {:induction false} ValidatesExactly(bands: Bands, limits: Limits, band: BandId, ip: nat, port: nat, sink: Sink,
                                            now: Instant, n: nat)
    requires Udp(ip, port) !in PeersOf(bands, band) && Admit(bands, limits, band) == Admitted && 1 <= n < U32_LIMIT
    ensures var peers := PeersOf(Observes(bands, limits, band, ip, port, sink, now, n), band);
            && Udp(ip, port) in peers
            && var p := peers[Udp(ip, port)];
            && p.seen == n && (p.eligible <==> n >= limits.validation)
            && p.sink == (if p.eligible then Some(sink) else None)
            && p.firstSeen == p.lastSeen == now
    decreases n
  {
    hide Supersede;
    if n == 1 {
      assert Observes(bands, limits, band, ip, port, sink, now, 0) == bands;
    } else {
      ValidatesExactly(bands, limits, band, ip, port, sink, now, n - 1);
      var before := Observes(bands, limits, band, ip, port, sink, now, n - 1);
      var key := Udp(ip, port);
      var next := PeersOf(before, band)[key := Refresh(PeersOf(before, band)[key], limits, sink, now)];
      KeepsOwnEntry(next, key);
    }
  }

  lemma KeepsOwnEntry(peers: Peers, key: PeerKey)
    requires key in peers
    ensures key in Supersede(peers, key) && Supersede(peers, key)[key] == peers[key]
  {
  }

  // ---- Coming, staying and going

  /** Whoever there is room for is registered; a connection can receive at once; nobody else is affected. */
  lemma InsertExactly(bands: Bands, limits: Limits, band: BandId, key: PeerKey, sink: Sink, conn: bool, now: Instant,
                      b: BandId)
    ensures var room := (band in bands || |bands| < limits.maxBands) && |PeersOf(bands, band)| < limits.maxPeers;
            var after := PeersOf(Insert(bands, limits, band, key, sink, conn, now), b);
            && (!room || b != band ==> after == PeersOf(bands, b))
            && (room && b == band ==>
                  && key in after && after - {key} == PeersOf(bands, b) - {key}
                  && after[key].route == None && after[key].seen == 1
                  && after[key].firstSeen == after[key].lastSeen == now
                  && (after[key].eligible <==> conn || limits.validation <= 1)
                  && after[key].sink == (if after[key].eligible then Some(sink) else None))
  {
    var peers, p := PeersOf(bands, band), NewPeer(limits, sink, conn, now);
    PutOnly(peers, key, p);
    hide NewPeer;
    PutBand(bands, band, peers[key := p], b);
    NewPeerIs(limits, sink, conn, now);
  }

  lemma PutOnly(peers: Peers, key: PeerKey, p: Peer)
    ensures peers[key := p] - {key} == peers - {key}
  {
  }

  lemma PutBand(bands: Bands, band: BandId, peers: Peers, b: BandId)
    ensures PeersOf(bands[band := peers], b) == if b == band then peers else PeersOf(bands, b)
  {
  }

  lemma NewPeerIs(limits: Limits, sink: Sink, conn: bool, now: Instant)
    ensures var p := NewPeer(limits, sink, conn, now);
            && p.route == None && p.firstSeen == p.lastSeen == now && p.seen == 1
            && (p.eligible <==> conn || limits.validation <= 1) && p.sink == (if p.eligible then Some(sink) else None)
  {
  }

  /** After a packet of a registered source, it was last seen then. */
  lemma HeardIsSeen(bands: Bands, limits: Limits, band: BandId, ip: nat, port: nat, id: nat, sink: Sink, now: Instant)
    ensures Udp(ip, port) in PeersOf(bands, band) ==>
              var after := PeersOf(ObserveUdp(bands, limits, band, ip, port, sink, now), band);
              Udp(ip, port) in after && after[Udp(ip, port)].lastSeen == now
              && after[Udp(ip, port)].firstSeen == PeersOf(bands, band)[Udp(ip, port)].firstSeen
    ensures Conn(id) in PeersOf(bands, band) ==>
              PeersOf(Touch(bands, band, Conn(id), now), band)
              == PeersOf(bands, band)[Conn(id) := PeersOf(bands, band)[Conn(id)].(
                   lastSeen := now, seen := Count(PeersOf(bands, band)[Conn(id)].seen))]
  {
    hide Supersede;
    var key := Udp(ip, port);
    if key in PeersOf(bands, band) {
      KeepsOwnEntry(PeersOf(bands, band)[key := Refresh(PeersOf(bands, band)[key], limits, sink, now)], key);
    }
  }

  /** Pruning keeps every connection, and a UDP peer exactly if it was seen within the time to live. */
  lemma PruneExactly(bands: Bands, ttl: nat, now: Instant, b: BandId, k: PeerKey)
    ensures var before, after := PeersOf(bands, b), PeersOf(Prune(bands, ttl, now), b);
            && (k in after <==> k in before && (k.Conn? || now <= before[k].lastSeen + ttl))
            && (k in after ==> after[k] == before[k])
  {
    if b in bands && k in PrunePeers(bands[b], ttl, now) {
      assert PrunePeers(bands[b], ttl, now) != map[];
    }
  }

  /** Disconnecting removes that peer of that band, and no other. */
  lemma DisconnectExactly(bands: Bands, band: BandId, key: PeerKey, b: BandId)
    ensures PeersOf(Disconnect(bands, band, key), b) == PeersOf(bands, b) - (if b == band then {key} else {})
  {
    assert PeersOf(bands, b) - {} == PeersOf(bands, b);
  }
}
