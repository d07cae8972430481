/** The mutable registry, against the operations in `Registry`. Handing a frame to a queue is left to the caller. */
module RegistryObject {
  import opened BigEndian
  import Spec = Registry

  class Registry {
    const limits: Spec.Limits
    var bands: Spec.Bands

    constructor (limits: Spec.Limits)
      ensures this.limits == limits && bands == map[]
    {
      this.limits := limits;
      bands := map[];
    }

    /** Opening a band and then finding no room for a peer must not leave the empty band behind. */
    method Insert(band: Spec.BandId, key: Spec.PeerKey, sink: Spec.Sink, conn: bool, now: Spec.Instant)
      returns (r: Spec.Admission)
      modifies `bands
      ensures bands == Spec.Insert(old(bands), limits, band, key, sink, conn, now)
      ensures r == Spec.Admit(old(bands), limits, band)
    {
      var isNewBand := band !in bands;
      if isNewBand && |bands| >= limits.maxBands {
        return Spec.BandCap;
      }
      ghost var before := bands;
      if isNewBand {
        bands := bands[band := map[]];
      }
      assert bands == before[band := Spec.PeersOf(before, band)];
      if |bands[band]| >= limits.maxPeers {
        if isNewBand {
          bands := bands - {band};
          assert bands == before;
        }
        assert bands == before;
        return Spec.PeerCap;
      }
      var eligible := conn || limits.validation <= 1;
      var peer := Spec.Peer(if eligible then Some(sink) else None, now, now, eligible, 1, None);
      assert peer == Spec.NewPeer(limits, sink, conn, now);
      bands := bands[band := bands[band][key := peer]];
      assert bands == before[band := Spec.PeersOf(before, band)[key := peer]];
      r := Spec.Admitted;
    }

    method Connect(band: Spec.BandId, key: Spec.PeerKey, sink: Spec.Sink, now: Spec.Instant) returns (r: Spec.Admission)
      modifies `bands
      ensures bands == Spec.Insert(old(bands), limits, band, key, sink, true, now)
      ensures r == Spec.Admit(old(bands), limits, band)
    {
      r := Insert(band, key, sink, true, now);
    }

    method ObserveUdp(band: Spec.BandId, ip: nat, port: nat, sink: Spec.Sink, now: Spec.Instant)
      returns (r: Spec.Admission)
      modifies `bands
      ensures bands == Spec.ObserveUdp(old(bands), limits, band, ip, port, sink, now)
      ensures r == if Spec.Udp(ip, port) in Spec.PeersOf(old(bands), band) then Spec.Admitted
          else Spec.Admit(old(bands), limits, band)
    {
      hide Spec.Supersede, Spec.Insert;
      var key := Spec.Udp(ip, port);
      if band in bands && key in bands[band] {
        var peer := bands[band][key];
        peer := peer.(lastSeen := now, seen := Spec.Count(peer.seen));
        if !peer.eligible && peer.seen >= limits.validation {
          peer := peer.(eligible := true, sink := Some(sink));
          var peers := SupersedeRebound(bands[band][key := peer], key);
          bands := bands[band := peers];
        } else {
          bands := bands[band := bands[band][key := peer]];
        }
        return Spec.Admitted;
      }
      r := Insert(band, key, sink, false, now);
    }

    method Touch(band: Spec.BandId, key: Spec.PeerKey, now: Spec.Instant)
      modifies `bands
      ensures bands == Spec.Touch(old(bands), band, key, now)
    {
      if band in bands && key in bands[band] {
        var peer := bands[band][key];
        bands := bands[band := bands[band][key := peer.(lastSeen := now, seen := Spec.Count(peer.seen))]];
      }
    }

    /** Takes the id away from every other entry of the same host that fell silent before this one appeared. */
    static method SupersedeRebound(peers: Spec.Peers, key: Spec.PeerKey) returns (after: Spec.Peers)
      ensures after == Spec.Supersede(peers, key)
    {
      after := peers;
      if key.Conn? || key !in peers || peers[key].route.None? || !peers[key].eligible {
        return;
      }
      var todo := peers.Keys;
      while todo != {}
        invariant todo <= peers.Keys == after.Keys
        invariant forall q :: q in todo ==> after[q] == peers[q]
        invariant forall q :: q in peers.Keys - todo ==>
                    after[q] == if Spec.Rebound(peers, key, q) then peers[q].(route := None) else peers[q]
        decreases todo
      {
        var q :| q in todo;
        if q.Udp? && q != key && q.ip == key.ip && after[q].route == peers[key].route
            && after[q].lastSeen < peers[key].firstSeen {
          after := after[q := after[q].(route := None)];
        }
        todo := todo - {q};
      }
    }

    /** Whether somebody else who may receive declared the id. */
    static method AnyDeclares(peers: Spec.Peers, sender: Option<Spec.PeerKey>, id: nat) returns (found: bool)
      ensures found <==> exists k :: k in peers && Spec.Declares(peers, sender, id, k)
    {
      found := false;
      var todo := peers.Keys;
      while todo != {} && !found
        invariant todo <= peers.Keys
        invariant found ==> exists k :: k in peers && Spec.Declares(peers, sender, id, k)
        invariant !found ==> forall k :: k in peers.Keys - todo ==> !Spec.Declares(peers, sender, id, k)
        decreases todo
      {
        var k :| k in todo;
        if Some(k) != sender && peers[k].eligible && peers[k].route == Some(id) {
          assert Spec.Declares(peers, sender, id, k);
          found := true;
        }
        todo := todo - {k};
      }
    }

    /** The queues a frame goes to, by the peer that owns each. */
    static method Targets(peers: Spec.Peers, sender: Option<Spec.PeerKey>, h: Spec.Header)
      returns (sinks: map<Spec.PeerKey, Spec.Sink>)
      ensures sinks.Keys == Spec.Targets(peers, sender, h)
      ensures forall k :: k in sinks ==> k in peers && Some(sinks[k]) == peers[k].sink
    {
      var declared := AnyDeclares(peers, sender, h.id);
      var addressed := h.kind == Spec.Addressed && h.id != 0 && declared;
      assert addressed == Spec.IsAddressed(peers, sender, h);
      sinks := map[];
      var todo := peers.Keys;
      while todo != {}
        invariant todo <= peers.Keys
        invariant sinks.Keys == Spec.Targets(peers, sender, h) - todo
        invariant forall k :: k in sinks ==> k in peers && Some(sinks[k]) == peers[k].sink
        decreases todo
      {
        var k :| k in todo;
        if Some(k) != sender && peers[k].eligible && (!addressed || peers[k].route == Some(h.id))
            && peers[k].sink.Some? {
          assert k in Spec.Targets(peers, sender, h);
          sinks := sinks[k := peers[k].sink.value];
        } else {
          assert k !in Spec.Targets(peers, sender, h);
        }
        todo := todo - {k};
      }
    }

    method Forward(band: Spec.BandId, sender: Spec.PeerKey, frame: Spec.Packet)
      returns (sinks: map<Spec.PeerKey, Spec.Sink>, federate: bool)
      modifies `bands
      ensures (bands, sinks.Keys, federate) == Spec.Forward(old(bands), band, sender, frame)
      ensures forall k :: k in sinks ==> band in bands && k in bands[band] && Some(sinks[k]) == bands[band][k].sink
    {
      hide Spec.Targets, Spec.Supersede;
      sinks, federate := map[], false;
      assert sinks.Keys == {};
      var info := Spec.RouteInfo(frame);
      if info.None? || band !in bands {
        return;
      }
      if info.value.kind == Spec.Route {
        var peers := bands[band];
        if sender in peers {
          peers := peers[sender := peers[sender].(route := if info.value.id != 0 then Some(info.value.id) else None)];
        }
        peers := SupersedeRebound(peers, sender);
        bands := bands[band := peers];
        return;
      }
      sinks := Targets(bands[band], Some(sender), info.value);
      federate := true;
    }

    method InjectFromLink(band: Spec.BandId, frame: Spec.Packet) returns (sinks: map<Spec.PeerKey, Spec.Sink>)
      ensures sinks.Keys == Spec.Inject(bands, band, frame)
      ensures forall k :: k in sinks ==> band in bands && k in bands[band] && Some(sinks[k]) == bands[band][k].sink
    {
      hide Spec.Targets;
      sinks := map[];
      var info := Spec.RouteInfo(frame);
      if info.None? || info.value.kind == Spec.Route || band !in bands {
        return;
      }
      sinks := Targets(bands[band], None, info.value);
    }

    method Disconnect(band: Spec.BandId, key: Spec.PeerKey)
      modifies `bands
      ensures bands == Spec.Disconnect(old(bands), band, key)
    {
      if band in bands {
        bands := bands[band := bands[band] - {key}];
        if bands[band] == map[] {
          bands := bands - {band};
        }
      }
    }

    static method PrunePeers(peers: Spec.Peers, ttl: nat, now: Spec.Instant) returns (kept: Spec.Peers)
      ensures kept == Spec.PrunePeers(peers, ttl, now)
    {
      kept := peers;
      var todo := peers.Keys;
      while todo != {}
        invariant todo <= kept.Keys <= peers.Keys
        invariant forall k :: k in kept ==> kept[k] == peers[k]
        invariant forall k :: k in peers.Keys - todo ==> (k in kept <==> Spec.Fresh(k, peers[k], ttl, now))
        decreases todo
      {
        var k :| k in todo;
        if k.Udp? && now > peers[k].lastSeen + ttl {
          kept := kept - {k};
        }
        todo := todo - {k};
      }
    }

    method Prune(ttl: nat, now: Spec.Instant)
      modifies `bands
      ensures bands == Spec.Prune(old(bands), ttl, now)
    {
      hide Spec.PrunePeers;
      var all := bands;
      var todo := all.Keys;
      while todo != {}
        invariant todo <= bands.Keys <= all.Keys && all == old(bands)
        invariant forall b :: b in todo ==> bands[b] == all[b]
        invariant forall b :: b in all.Keys - todo ==>
                    (b in bands <==> Spec.PrunePeers(all[b], ttl, now) != map[])
        invariant forall b :: b in bands.Keys - todo ==> bands[b] == Spec.PrunePeers(all[b], ttl, now)
        decreases todo
      {
        var b :| b in todo;
        var kept := PrunePeers(bands[b], ttl, now);
        if kept == map[] {
          bands := bands - {b};
        } else {
          bands := bands[b := kept];
        }
        todo := todo - {b};
      }
    }
  }
}
