/** The mutable Band (telesthete/band.py with its control channel and streams), against the operations in `Session`. */
module BandObject {
  import opened BigEndian
  import Spec = Session

  class Band {
    const ciphers: seq<Spec.Cipher>
    var peers: map<Spec.Addr, Spec.Peer>
    var session: map<Spec.Addr, int>
    var watermark: map<Spec.Addr, nat>
    var streams: map<Spec.StreamId, map<Spec.Addr, nat>>
    ghost var dispatched: seq<Spec.Receipt>
    ghost var accepted: map<Spec.StreamId, seq<Spec.Receipt>>

    ghost function Value(): Spec.Band
      reads this
    {
      Spec.Band(ciphers, peers, session, watermark, streams, dispatched, accepted)
    }

    constructor (ciphers: seq<Spec.Cipher>)
      ensures Value() == Spec.NewBand(ciphers)
    {
      this.ciphers := if Spec.BASELINE in ciphers then ciphers else ciphers + [Spec.BASELINE];
      peers, session, watermark, streams := map[], map[], map[], map[];
      dispatched, accepted := [], map[];
    }

    /** First of the initiator's suites we support; the baseline always counts as supported. */
    method SelectCipher(prefs: seq<Spec.Cipher>) returns (c: Spec.Cipher)
      ensures c == Spec.SelectCipher(prefs, ciphers)
    {
      var i := 0;
      while i < |prefs|
        invariant 0 <= i <= |prefs| && Spec.SelectCipher(prefs, ciphers) == Spec.SelectCipher(prefs[i..], ciphers)
      {
        assert prefs[i..][0] == prefs[i] && prefs[i..][1..] == prefs[i + 1..];
        if prefs[i] in ciphers || prefs[i] == Spec.BASELINE {
          return prefs[i];
        }
        i := i + 1;
      }
      c := Spec.BASELINE;
    }

    method RemovePeer(addr: Spec.Addr)
      modifies `peers
      ensures Value() == Spec.RemovePeer(old(Value()), addr)
    {
      peers := peers - {addr};
    }

    /** The least recently seen peer, by one pass over the registry. */
    method Stalest() returns (addr: Spec.Addr)
      requires peers != map[]
      ensures Spec.IsStalest(peers, addr)
    {
      addr :| addr in peers;
      var todo := peers.Keys - {addr};
      while todo != {}
        invariant todo <= peers.Keys && addr in peers.Keys - todo
        invariant forall a :: a in peers.Keys - todo ==> peers[addr].lastSeen <= peers[a].lastSeen
        decreases todo
      {
        var a :| a in todo;
        if peers[a].lastSeen < peers[addr].lastSeen {
          addr := a;
        }
        todo := todo - {a};
      }
    }

    /** The peer made to leave, when one was, is the least recently seen. */
    method EnsurePeer(addr: Spec.Addr, now: nat) returns (ghost victim: Spec.Addr)
      modifies `peers
      ensures addr !in old(peers) && |old(peers)| >= Spec.MAX_PEERS ==> Spec.IsStalest(old(peers), victim)
      ensures Value() == Spec.EnsurePeer(old(Value()), addr, victim, now)
    {
      victim := addr;
      if addr !in peers {
        if |peers| >= Spec.MAX_PEERS {
          var stale := Stalest();
          RemovePeer(stale);
          victim := stale;
        }
        peers := peers[addr := Spec.Peer(Spec.UNKNOWN_EPOCH, Spec.BASELINE, now)];
      }
    }

    method Adopt(addr: Spec.Addr, epoch: int, cipher: Spec.Cipher, now: nat) returns (ghost victim: Spec.Addr)
      modifies `peers
      ensures addr !in old(peers) && |old(peers)| >= Spec.MAX_PEERS ==> Spec.IsStalest(old(peers), victim)
      ensures Value() == Spec.Adopt(old(Value()), addr, epoch, cipher, victim, now)
    {
      victim := EnsurePeer(addr, now);
      if epoch < peers[addr].epoch {
        return;
      }
      peers := peers[addr := Spec.Peer(epoch, cipher, now)];
    }

    method Touch(addr: Spec.Addr, now: nat)
      modifies `peers
      ensures Value() == Spec.Touch(old(Value()), addr, now)
    {
      if addr in peers {
        peers := peers[addr := peers[addr].(lastSeen := now)];
      }
    }

    method Dispatch(addr: Spec.Addr, m: Spec.Control, now: nat) returns (ghost victim: Spec.Addr)
      modifies `peers
      ensures addr !in old(peers) && addr in peers && |old(peers)| >= Spec.MAX_PEERS ==>
          Spec.IsStalest(old(peers), victim)
      ensures Value() == Spec.Dispatch(old(Value()), addr, m, victim, now)
    {
      hide Spec.SelectCipher;
      victim := addr;
      match m {
        case Hello(epoch, offered) =>
          if offered.Some? {
            var cipher := SelectCipher(offered.value);
            victim := Adopt(addr, epoch, cipher, now);
          }
        case HelloAck(epoch, cipher) =>
          victim := Adopt(addr, epoch, if cipher in ciphers then cipher else Spec.BASELINE, now);
        case Keepalive => Touch(addr, now);
        case Goodbye => RemovePeer(addr);
        case _ =>
      }
    }

    /** Every stream forgets the peer. */
    method OnNewSession(addr: Spec.Addr)
      modifies `streams
      ensures streams == Spec.ResetStreams(old(streams), addr)
    {
      var todo := streams.Keys;
      while todo != {}
        invariant todo <= streams.Keys == old(streams).Keys
        invariant forall sid :: sid in todo ==> streams[sid] == old(streams)[sid]
        invariant forall sid :: sid in streams.Keys - todo ==> streams[sid] == old(streams)[sid] - {addr}
        decreases todo
      {
        var sid :| sid in todo;
        streams := streams[sid := streams[sid] - {addr}];
        todo := todo - {sid};
      }
    }

    function RecvKey(addr: Spec.Addr): (k: Option<Spec.Key>)
      reads this
      ensures k == Spec.RecvKey(Value(), addr)
    {
      if addr !in peers || peers[addr].epoch < 0 then None
      else Some(Spec.Data(peers[addr].cipher, peers[addr].epoch))
    }

    method AcceptControl(addr: Spec.Addr, p: Spec.ControlPacket, now: nat) returns (ghost victim: Spec.Addr)
      modifies `peers, `watermark, `dispatched
      ensures addr !in old(peers) && addr in peers && |old(peers)| >= Spec.MAX_PEERS ==>
          Spec.IsStalest(old(peers), victim)
      ensures Value() == Spec.AcceptControl(old(Value()), addr, p, victim, now)
    {
      hide Spec.Dispatch;
      watermark := Spec.Raise(watermark, addr, p.seqno);
      dispatched := dispatched + [Spec.Receipt(addr, Spec.SessionOf(session, addr), p.seqno)];
      victim := Dispatch(addr, p.body, now);
    }

    method HandleControl(addr: Spec.Addr, p: Spec.ControlPacket, now: nat) returns (ghost victim: Spec.Addr)
      modifies this
      ensures addr !in old(peers) && addr in peers && |old(peers)| >= Spec.MAX_PEERS ==>
          Spec.IsStalest(old(peers), victim)
      ensures Value() == Spec.HandleControl(old(Value()), addr, p, victim, now)
    {
      hide Spec.AcceptControl, Spec.ResetStreams, Spec.IsStalest;
      victim := addr;
      Touch(addr, now);
      assert addr !in old(peers) ==> peers == old(peers);
      hide Spec.Touch;
      var key := RecvKey(addr);
      if (key != Some(p.key) && p.key != Spec.Base) || p.body.Unknown? {
        return;
      }
      if p.body.Hello? || p.body.HelloAck? {
        var prev := Spec.SessionOf(session, addr);
        if p.body.epoch < prev {
          return;
        }
        if p.body.epoch > prev {
          session := session[addr := p.body.epoch];
          OnNewSession(addr);
          victim := AcceptControl(addr, p, now);
          return;
        }
      }
      if addr in watermark && p.seqno <= watermark[addr] {
        return;
      }
      victim := AcceptControl(addr, p, now);
    }

    method HandleStream(sid: Spec.StreamId, addr: Spec.Addr, p: Spec.StreamPacket, now: nat)
      modifies this
      ensures Value() == Spec.HandleStream(old(Value()), sid, addr, p, now)
    {
      Touch(addr, now);
      if sid !in streams {
        return;
      }
      if addr in streams[sid] && p.seqno <= streams[sid][addr] {
        return;
      }
      var key := RecvKey(addr);
      if key != Some(p.key) {
        return;
      }
      streams := streams[sid := Spec.Raise(streams[sid], addr, p.seqno)];
      accepted := Spec.Record(accepted, sid, Spec.Receipt(addr, p.key.epoch, p.seqno));
    }

    method OpenStream(sid: Spec.StreamId)
      modifies `streams, `accepted
      ensures Value() == Spec.OpenStream(old(Value()), sid)
    {
      if sid !in streams {
        streams := streams[sid := map[]];
        accepted := accepted[sid := []];
      }
    }
  }
}
