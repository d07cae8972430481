/** Replay protection over whole runs: restarts, replays, peer removal and re-admission included. */
module SessionTheorems {
  import opened BigEndian
  import opened Session

  /** Strictly later in the peer's numbering: a newer epoch, or the same one and a higher sequence. */
  ghost predicate Later(r: Receipt, s: Receipt)
  {
    r.epoch < s.epoch || (r.epoch == s.epoch && r.seqno < s.seqno)
  }

  /** From each peer, receipts only ever move forward. */
  ghost predicate Increasing(log: seq<Receipt>)
  {
    forall i, j :: 0 <= i < j < |log| && log[i].addr == log[j].addr ==> Later(log[i], log[j])
  }

  /** No receipt is ahead of the current epoch, and within it none is above the watermark. */
  ghost predicate Covered(log: seq<Receipt>, session: map<Addr, int>, watermark: map<Addr, nat>)
  {
    forall i :: 0 <= i < |log| ==>
      && log[i].epoch <= SessionOf(session, log[i].addr)
      && (log[i].epoch == SessionOf(session, log[i].addr) ==>
            log[i].addr in watermark && log[i].seqno <= watermark[log[i].addr])
  }

  ghost predicate StreamsOk(streams: map<StreamId, map<Addr, nat>>, accepted: map<StreamId, seq<Receipt>>,
                            session: map<Addr, int>)
  {
    && streams.Keys == accepted.Keys
    && forall sid :: sid in accepted ==> Increasing(accepted[sid]) && Covered(accepted[sid], session, streams[sid])
  }

  /** The Band's idea of a present peer's epoch is the control channel's. */
  ghost predicate EpochsAgree(peers: map<Addr, Peer>, session: map<Addr, int>)
  {
    forall a :: a in peers ==> peers[a].epoch == SessionOf(session, a)
  }

  ghost predicate SessionsSane(session: map<Addr, int>)
  {
    forall a :: a in session ==> session[a] > UNKNOWN_EPOCH
  }

  ghost predicate Inv(b: Band)
  {
    && EpochsAgree(b.peers, b.session)
    && SessionsSane(b.session)
    && Increasing(b.dispatched) && Covered(b.dispatched, b.session, b.watermark)
    && StreamsOk(b.streams, b.accepted, b.session)
  }

  lemma AppendReceipt(log: seq<Receipt>, session: map<Addr, int>, watermark: map<Addr, nat>, addr: Addr, seqno: nat)
    requires Increasing(log) && Covered(log, session, watermark)
    requires addr in watermark ==> watermark[addr] < seqno
    ensures var next := log + [Receipt(addr, SessionOf(session, addr), seqno)];
            Increasing(next) && Covered(next, session, Raise(watermark, addr, seqno))
  {
  }

  /** A newer epoch leaves every old receipt behind, whatever happens to the watermark. */
  lemma NewEpochCovers(log: seq<Receipt>, session: map<Addr, int>, watermark: map<Addr, nat>,
                       addr: Addr, epoch: int, after: map<Addr, nat>)
    requires Covered(log, session, watermark) && epoch > SessionOf(session, addr)
    requires forall a :: a != addr && a in watermark ==> a in after && after[a] == watermark[a]
    ensures Covered(log, session[addr := epoch], after)
  {
  }

  lemma NewEpochAppend(log: seq<Receipt>, session: map<Addr, int>, watermark: map<Addr, nat>, addr: Addr, epoch: int,
                       seqno: nat)
    requires Increasing(log) && Covered(log, session, watermark) && epoch > SessionOf(session, addr)
    ensures var next := log + [Receipt(addr, epoch, seqno)];
            Increasing(next) && Covered(next, session[addr := epoch], Raise(watermark, addr, seqno))
  {
  }

  lemma ResetKeepsStreams(b: Band, addr: Addr, epoch: int)
    requires StreamsOk(b.streams, b.accepted, b.session) && epoch > SessionOf(b.session, addr)
    ensures StreamsOk(ResetStreams(b.streams, addr), b.accepted, b.session[addr := epoch])
  {
    hide Covered, Increasing;
    var streams := ResetStreams(b.streams, addr);
    forall sid | sid in b.accepted
      ensures Increasing(b.accepted[sid]) && Covered(b.accepted[sid], b.session[addr := epoch], streams[sid])
    {
      NewEpochCovers(b.accepted[sid], b.session, b.streams[sid], addr, epoch, streams[sid]);
    }
  }

  // ---- Handlers

  /** Adopting an epoch at least as new as ours makes it the Band's epoch for that peer. */
  lemma AdoptAgrees(b: Band, addr: Addr, epoch: int, cipher: Cipher, victim: Addr, now: nat)
    requires epoch == SessionOf(b.session, addr)
    requires addr in b.peers ==> b.peers[addr].epoch <= epoch
    requires forall a :: a in b.peers && a != addr ==> b.peers[a].epoch == SessionOf(b.session, a)
    requires epoch >= UNKNOWN_EPOCH
    ensures var z := Adopt(b, addr, epoch, cipher, victim, now);
            EpochsAgree(z.peers, b.session) && z == b.(peers := z.peers) && addr in z.peers
  {
  }

  /** A handshake whose handler gets as far as the peer record. */
  ghost predicate Readable(m: Control)
  {
    m.HelloAck? || (m.Hello? && m.ciphers.Some?)
  }

  lemma DispatchAgrees(b: Band, addr: Addr, m: Control, victim: Addr, now: nat)
    requires SessionsSane(b.session)
    requires if Readable(m)
             then m.epoch == SessionOf(b.session, addr) && (addr in b.peers ==> b.peers[addr].epoch <= m.epoch)
                  && forall a :: a in b.peers && a != addr ==> b.peers[a].epoch == SessionOf(b.session, a)
             else EpochsAgree(b.peers, b.session)
    ensures var z := Dispatch(b, addr, m, victim, now);
            EpochsAgree(z.peers, b.session) && z == b.(peers := z.peers)
  {
    hide Adopt, SelectCipher;
    match m
    case Hello(epoch, ciphers) =>
      if ciphers.Some? { AdoptAgrees(b, addr, epoch, SelectCipher(ciphers.value, b.ciphers), victim, now); }
    case HelloAck(epoch, cipher) => AdoptAgrees(b, addr, epoch, if cipher in b.ciphers then cipher
        else BASELINE, victim, now);
    case _ =>
  }

  /** The one packet that does harm: an authentic HELLO of a newer epoch, from a peer we know, that cannot be read. */
  ghost predicate Harmful(b: Band, addr: Addr, p: ControlPacket)
  {
    && p.body.Hello? && p.body.ciphers.None? && p.body.epoch > SessionOf(b.session, addr)
    && addr in b.peers && Authentic(b, addr, p.key)
  }

  lemma TouchKeeps(b: Band, addr: Addr, now: nat)
    requires Inv(b)
    ensures Inv(Touch(b, addr, now)) && Touch(b, addr, now) == b.(peers := Touch(b, addr, now).peers)
    ensures RecvKey(Touch(b, addr, now), addr) == RecvKey(b, addr)
  {
    hide Increasing, Covered, StreamsOk;
  }

  lemma ControlKeeps(b: Band, addr: Addr, p: ControlPacket, victim: Addr, now: nat)
    requires Inv(b) && !Harmful(b, addr, p)
    ensures Inv(HandleControl(b, addr, p, victim, now))
  {
    hide Increasing, Covered, StreamsOk, Dispatch, ResetStreams;
    TouchKeeps(b, addr, now);
    var t := Touch(b, addr, now);
    assert addr in t.peers <==> addr in b.peers;
    hide Touch;
    if Authentic(t, addr, p.key) && !p.body.Unknown? {
      assert Authentic(b, addr, p.key);
      hide Authentic;
      var prev := SessionOf(t.session, addr);
      if IsHandshake(p.body) && p.body.epoch < prev {
      } else if IsHandshake(p.body) && p.body.epoch > prev {
        ResetKeepsStreams(t, addr, p.body.epoch);
        NewEpochAppend(t.dispatched, t.session, t.watermark, addr, p.body.epoch, p.seqno);
        var u := t.(session := t.session[addr := p.body.epoch], streams := ResetStreams(t.streams, addr));
        var r := Receipt(addr, p.body.epoch, p.seqno);
        var v := u.(watermark := Raise(u.watermark, addr, p.seqno), dispatched := u.dispatched + [r]);
        DispatchAgrees(v, addr, p.body, victim, now);
      } else if !(addr in t.watermark && p.seqno <= t.watermark[addr]) {
        AppendReceipt(t.dispatched, t.session, t.watermark, addr, p.seqno);
        var r := Receipt(addr, prev, p.seqno);
        var v := t.(watermark := Raise(t.watermark, addr, p.seqno), dispatched := t.dispatched + [r]);
        DispatchAgrees(v, addr, p.body, victim, now);
      }
    }
  }

  /** The invariant survives a control packet exactly when the packet is not the harmful one. */
  lemma ControlKeepsExactly(b: Band, addr: Addr, p: ControlPacket, victim: Addr, now: nat)
    requires Inv(b)
    ensures Inv(HandleControl(b, addr, p, victim, now)) <==> !Harmful(b, addr, p)
  {
    if Harmful(b, addr, p) {
      hide Increasing, Covered, StreamsOk;
      HarmDone(b, addr, p, victim, now);
    } else {
      ControlKeeps(b, addr, p, victim, now);
    }
  }

  /** The session moves on and the streams forget the peer, but its key stays. */
  lemma HarmDone(b: Band, addr: Addr, p: ControlPacket, victim: Addr, now: nat)
    requires Harmful(b, addr, p) && EpochsAgree(b.peers, b.session)
    ensures var after := HandleControl(b, addr, p, victim, now);
            && SessionOf(after.session, addr) == p.body.epoch && addr in after.peers
                 && after.peers[addr].epoch < p.body.epoch
            && RecvKey(after, addr) == RecvKey(b, addr)
            && after.streams == ResetStreams(b.streams, addr) && after.accepted == b.accepted
  {
    hide ResetStreams;
  }

  lemma StreamKeeps(b: Band, sid: StreamId, addr: Addr, p: StreamPacket, now: nat)
    requires Inv(b)
    ensures Inv(HandleStream(b, sid, addr, p, now))
  {
    hide Increasing, Covered, Touch;
    TouchKeeps(b, addr, now);
    var t := Touch(b, addr, now);
    if sid in t.streams && !(addr in t.streams[sid] && p.seqno <= t.streams[sid][addr])
       && RecvKey(t, addr) == Some(p.key) {
      AppendReceipt(t.accepted[sid], t.session, t.streams[sid], addr, p.seqno);
      assert p.key.epoch == SessionOf(t.session, addr);
    }
  }

  // ---- Runs

  datatype Event =
    | ControlIn(addr: Addr, control: ControlPacket, victim: Addr, now: nat)
    | StreamIn(sid: StreamId, addr: Addr, packet: StreamPacket, now: nat)
    | Remove(addr: Addr)
    | OpenStreamAs(sid: StreamId)

  function Apply(b: Band, e: Event): Band
  {
    match e
    case ControlIn(addr, p, victim, now) => HandleControl(b, addr, p, victim, now)
    case StreamIn(sid, addr, p, now) => HandleStream(b, sid, addr, p, now)
    case Remove(addr) => RemovePeer(b, addr)
    case OpenStreamAs(sid) => OpenStream(b, sid)
  }

  function Replay(b: Band, events: seq<Event>): Band
  {
    if events == [] then b else Apply(Replay(b, events[..|events| - 1]), events[|events| - 1])
  }

  ghost predicate Harms(b: Band, e: Event)
  {
    e.ControlIn? && Harmful(b, e.addr, e.control)
  }

  /** No event of the run did harm when it happened. */
  ghost predicate Unharmed(ciphers: seq<Cipher>, events: seq<Event>)
  {
    events == [] ||
    var before := events[..|events| - 1];
    Unharmed(ciphers, before) && !Harms(Replay(NewBand(ciphers), before), events[|events| - 1])
  }

  lemma ApplyKeeps(b: Band, e: Event)
    requires Inv(b) && !Harms(b, e)
    ensures Inv(Apply(b, e))
  {
    hide HandleControl, HandleStream, Covered, Increasing, Harmful;
    match e
    case ControlIn(addr, p, victim, now) => ControlKeeps(b, addr, p, victim, now);
    case StreamIn(sid, addr, p, now) => StreamKeeps(b, sid, addr, p, now);
    case Remove(addr) =>
    case OpenStreamAs(sid) => EmptyLog(b.session);
  }

  lemma EmptyLog(session: map<Addr, int>)
    ensures Increasing([]) && Covered([], session, map[])
  {
  }

  lemma {:induction false} RunKeepsInv(ciphers: seq<Cipher>, events: seq<Event>)
    requires Unharmed(ciphers, events)
    ensures Inv(Replay(NewBand(ciphers), events))
  {
    if events == [] {
      EmptyLog(map[]);
    } else {
      hide Inv, Apply, Harms;
      RunKeepsInv(ciphers, events[..|events| - 1]);
      ApplyKeeps(Replay(NewBand(ciphers), events[..|events| - 1]), events[|events| - 1]);
    }
  }

  /** Any packets in any order, replays and old sessions included, any removals, no harmful HELLO: on every stream,
      and on the control channel, what is accepted from each peer is strictly increasing in (epoch, sequence). */
  lemma AcceptedStrictlyIncreases(ciphers: seq<Cipher>, events: seq<Event>, sid: StreamId)
    requires Unharmed(ciphers, events)
    ensures var b := Replay(NewBand(ciphers), events);
            && Increasing(b.dispatched)
            && (sid in b.accepted ==> Increasing(b.accepted[sid]))
            && EpochsAgree(b.peers, b.session)
  {
    hide Increasing, Covered, Replay, Unharmed;
    RunKeepsInv(ciphers, events);
  }

  /** Sessions never go back, and a stream forgets or lowers a peer's watermark only in a step that starts a newer
      session of that peer. */
  lemma OnlyRestartsReset(b: Band, e: Event, sid: StreamId, addr: Addr)
    ensures SessionOf(Apply(b, e).session, addr) >= SessionOf(b.session, addr)
    ensures (sid in b.streams && addr in b.streams[sid]
             && SessionOf(Apply(b, e).session, addr) == SessionOf(b.session, addr)) ==>
              var after := Apply(b, e).streams;
              sid in after && addr in after[sid] && b.streams[sid][addr] <= after[sid][addr]
  {
    match e
    case ControlIn(a, p, victim, now) => ControlOnlyResets(b, a, p, victim, now, sid, addr);
    case StreamIn(_, _, _, _) =>
    case Remove(_) =>
    case OpenStreamAs(_) =>
  }

  lemma ControlOnlyResets(b: Band, a: Addr, p: ControlPacket, victim: Addr, now: nat, sid: StreamId, addr: Addr)
    ensures var after := HandleControl(b, a, p, victim, now);
            && SessionOf(after.session, addr) >= SessionOf(b.session, addr)
            && (sid in b.streams && addr in b.streams[sid]
                 && SessionOf(after.session, addr) == SessionOf(b.session, addr) ==>
                  sid in after.streams && addr in after.streams[sid]
                      && b.streams[sid][addr] <= after.streams[sid][addr])
  {
    hide Dispatch, Authentic;
    var t := Touch(b, a, now);
    if IsHandshake(p.body) {
      DispatchFrame(t.(session := t.session[a := p.body.epoch], streams := ResetStreams(t.streams, a),
                       watermark := Raise(t.watermark, a, p.seqno),
                           dispatched := t.dispatched + [Receipt(a, p.body.epoch, p.seqno)]),
                    a, p.body, victim, now);
    }
    DispatchFrame(t.(watermark := Raise(t.watermark, a, p.seqno),
                     dispatched := t.dispatched + [Receipt(a, SessionOf(t.session, a), p.seqno)]), a, p.body, victim,
                         now);
  }

  /** A handshake no older than what we hold is adopted, and only the registry changes. */
  lemma AdoptEffect(b: Band, addr: Addr, epoch: int, cipher: Cipher, victim: Addr, now: nat)
    ensures var z := Adopt(b, addr, epoch, cipher, victim, now);
            && z == b.(peers := z.peers) && addr in z.peers
            && (epoch >= UNKNOWN_EPOCH && (addr in b.peers ==> b.peers[addr].epoch <= epoch) ==>
                  z.peers[addr] == Peer(epoch, cipher, now))
  {
  }

  /** Handlers touch nothing but the peer registry. */
  lemma DispatchFrame(b: Band, addr: Addr, m: Control, victim: Addr, now: nat)
    ensures var z := Dispatch(b, addr, m, victim, now); z == b.(peers := z.peers)
  {
    hide SelectCipher, Adopt;
    match m
    case Hello(epoch, ciphers) =>
      if ciphers.Some? { AdoptEffect(b, addr, epoch, SelectCipher(ciphers.value, b.ciphers), victim, now); }
    case HelloAck(epoch, cipher) => AdoptEffect(b, addr, epoch, if cipher in b.ciphers then cipher
        else BASELINE, victim, now);
    case _ =>
  }

  /** After a newer epoch's HELLO, whatever its sequence number, the peer's first packet under its new key is accepted
      on every open stream, however low that packet's sequence number is. */
  lemma RestartIsNoLockout(ciphers: seq<Cipher>, events: seq<Event>, sid: StreamId, addr: Addr, hello: ControlPacket,
                           victim: Addr, p: StreamPacket, t0: nat, t1: nat)
    requires Unharmed(ciphers, events) && hello.body.Hello? && hello.body.ciphers.Some?
    requires var b := Replay(NewBand(ciphers), events);
             sid in b.streams && Authentic(b, addr, hello.key) && hello.body.epoch > SessionOf(b.session, addr)
             && p.key == Data(SelectCipher(hello.body.ciphers.value, b.ciphers), hello.body.epoch)
    ensures var after := HandleControl(Replay(NewBand(ciphers), events), addr, hello, victim, t0);
            sid in after.accepted
            && var again := HandleStream(after, sid, addr, p, t1);
            sid in again.accepted && again.accepted[sid]
                == after.accepted[sid] + [Receipt(addr, hello.body.epoch, p.seqno)]
  {
    RunKeepsInv(ciphers, events);
    var b := Replay(NewBand(ciphers), events);
    assert SessionOf(b.session, addr) >= UNKNOWN_EPOCH;
    hide Replay, Inv;
    NewSessionAccepts(b, sid, addr, hello, victim, p, t0, t1);
  }

  lemma NewSessionAccepts(b: Band, sid: StreamId, addr: Addr, hello: ControlPacket, victim: Addr, p: StreamPacket,
                          t0: nat, t1: nat)
    requires Inv(b) && sid in b.streams && hello.body.Hello? && hello.body.ciphers.Some?
        && Authentic(b, addr, hello.key)
    requires hello.body.epoch > SessionOf(b.session, addr) >= UNKNOWN_EPOCH
    requires p.key == Data(SelectCipher(hello.body.ciphers.value, b.ciphers), hello.body.epoch)
    ensures var after := HandleControl(b, addr, hello, victim, t0);
            sid in after.accepted
            && var again := HandleStream(after, sid, addr, p, t1);
            sid in again.accepted && again.accepted[sid]
                == after.accepted[sid] + [Receipt(addr, hello.body.epoch, p.seqno)]
  {
    hide Increasing, Covered, SelectCipher, SessionsSane;
    var after := HandleControl(b, addr, hello, victim, t0);
    NewSessionState(b, addr, hello, victim, t0);
    hide HandleControl;
    assert addr !in after.streams[sid];
    assert Touch(after, addr, t1).peers[addr] == Peer(hello.body.epoch, p.key.cipher, t1);
  }

  lemma NewSessionState(b: Band, addr: Addr, hello: ControlPacket, victim: Addr, now: nat)
    requires EpochsAgree(b.peers, b.session) && hello.body.Hello? && hello.body.ciphers.Some?
        && Authentic(b, addr, hello.key)
    requires hello.body.epoch > SessionOf(b.session, addr) >= UNKNOWN_EPOCH
    ensures var after := HandleControl(b, addr, hello, victim, now);
            && after.streams == ResetStreams(b.streams, addr) && after.accepted == b.accepted
            && addr in after.peers
            && after.peers[addr] == Peer(hello.body.epoch, SelectCipher(hello.body.ciphers.value, b.ciphers), now)
  {
    hide SelectCipher, ResetStreams, Adopt;
    var t := Touch(b, addr, now);
    assert addr in b.peers ==> b.peers[addr].epoch == SessionOf(b.session, addr);
    var u := t.(session := t.session[addr := hello.body.epoch], streams := ResetStreams(t.streams, addr),
                watermark := Raise(t.watermark, addr, hello.seqno),
                dispatched := t.dispatched + [Receipt(addr, hello.body.epoch, hello.seqno)]);
    AdoptEffect(u, addr, hello.body.epoch, SelectCipher(hello.body.ciphers.value, b.ciphers), victim, now);
  }

  // ---- Exactly when the past is re-admitted

  /** Histories only grow. */
  lemma AcceptedGrows(b: Band, e: Event, sid: StreamId)
    requires sid in b.accepted && b.streams.Keys == b.accepted.Keys
    ensures sid in Apply(b, e).accepted && b.accepted[sid] <= Apply(b, e).accepted[sid]
  {
    match e
    case ControlIn(a, p, victim, now) => ControlFrame(b, a, p, victim, now);
    case StreamIn(_, _, _, _) =>
    case Remove(_) =>
    case OpenStreamAs(_) =>
  }

  lemma ControlFrame(b: Band, a: Addr, p: ControlPacket, victim: Addr, now: nat)
    ensures HandleControl(b, a, p, victim, now).accepted == b.accepted
  {
    hide Dispatch, Authentic, ResetStreams;
    var t := Touch(b, a, now);
    if IsHandshake(p.body) {
      DispatchFrame(t.(session := t.session[a := p.body.epoch], streams := ResetStreams(t.streams, a),
                       watermark := Raise(t.watermark, a, p.seqno),
                           dispatched := t.dispatched + [Receipt(a, p.body.epoch, p.seqno)]),
                    a, p.body, victim, now);
    }
    DispatchFrame(t.(watermark := Raise(t.watermark, a, p.seqno),
                     dispatched := t.dispatched + [Receipt(a, SessionOf(t.session, a), p.seqno)]), a, p.body, victim,
                         now);
  }

  /** A packet already accepted under the peer's present key comes once more, right after some event: it is accepted a
      second time exactly when that event was a harmful HELLO of its sender. */
  lemma ReadmitsExactly(ciphers: seq<Cipher>, events: seq<Event>, e: Event, sid: StreamId, addr: Addr,
                        p: StreamPacket, now: nat)
    requires Unharmed(ciphers, events)
    requires var b := Replay(NewBand(ciphers), events);
             sid in b.accepted && RecvKey(b, addr) == Some(p.key)
                 && Receipt(addr, p.key.epoch, p.seqno) in b.accepted[sid]
    ensures var b := Replay(NewBand(ciphers), events);
            var after := Apply(b, e);
            HandleStream(after, sid, addr, p, now).accepted != after.accepted <==> Harms(b, e) && e.addr == addr
  {
    RunKeepsInv(ciphers, events);
    var b := Replay(NewBand(ciphers), events);
    hide Replay, Unharmed, Inv, Apply;
    if !Harms(b, e) {
      HarmlessRejects(b, e, sid, addr, p, now);
    } else if e.addr == addr {
      HarmfulAccepts(b, e, sid, addr, p, now);
    } else {
      OthersHarmRejects(b, e, sid, addr, p, now);
    }
  }

  lemma HarmlessRejects(b: Band, e: Event, sid: StreamId, addr: Addr, p: StreamPacket, now: nat)
    requires Inv(b) && !Harms(b, e)
    requires sid in b.accepted && RecvKey(b, addr) == Some(p.key)
        && Receipt(addr, p.key.epoch, p.seqno) in b.accepted[sid]
    ensures HandleStream(Apply(b, e), sid, addr, p, now).accepted == Apply(b, e).accepted
  {
    hide Apply, Harms, Covered;
    ApplyKeeps(b, e);
    AcceptedGrows(b, e, sid);
    var after := Apply(b, e);
    StreamKeeps(after, sid, addr, p, now);
    AcceptOrNot(after, sid, addr, p, now);
    RepeatBreaks(after.accepted[sid], Receipt(addr, p.key.epoch, p.seqno));
    hide HandleStream, Increasing;
  }

  lemma RepeatBreaks(log: seq<Receipt>, r: Receipt)
    ensures r in log ==> !Increasing(log + [r])
  {
    if r in log {
      var i :| 0 <= i < |log| && log[i] == r;
      assert (log + [r])[i] == r && (log + [r])[|log|] == r && !Later(r, r);
    }
  }

  lemma AcceptOrNot(b: Band, sid: StreamId, addr: Addr, p: StreamPacket, now: nat)
    requires sid in b.accepted
    ensures var log, after := b.accepted[sid], HandleStream(b, sid, addr, p, now).accepted;
            after != b.accepted ==> sid in after && after[sid] == log + [Receipt(addr, p.key.epoch, p.seqno)]
  {
  }

  lemma HarmfulAccepts(b: Band, e: Event, sid: StreamId, addr: Addr, p: StreamPacket, now: nat)
    requires Inv(b) && Harms(b, e) && e.addr == addr && sid in b.accepted && RecvKey(b, addr) == Some(p.key)
    ensures HandleStream(Apply(b, e), sid, addr, p, now).accepted != Apply(b, e).accepted
  {
    hide Increasing, Covered;
    HarmDone(b, addr, e.control, e.victim, e.now);
    hide HandleControl, Harms;
    var after := Apply(b, e);
    assert sid in after.streams && addr !in after.streams[sid];
    var again := HandleStream(after, sid, addr, p, now);
    assert |again.accepted[sid]| == |after.accepted[sid]| + 1;
  }

  lemma OthersHarmRejects(b: Band, e: Event, sid: StreamId, addr: Addr, p: StreamPacket, now: nat)
    requires Inv(b) && Harms(b, e) && e.addr != addr
    requires sid in b.accepted && RecvKey(b, addr) == Some(p.key)
        && Receipt(addr, p.key.epoch, p.seqno) in b.accepted[sid]
    ensures HandleStream(Apply(b, e), sid, addr, p, now).accepted == Apply(b, e).accepted
  {
    hide Increasing, SessionsSane;
    var i :| 0 <= i < |b.accepted[sid]| && b.accepted[sid][i] == Receipt(addr, p.key.epoch, p.seqno);
    assert addr in b.streams[sid] && p.seqno <= b.streams[sid][addr];
    HarmDone(b, e.addr, e.control, e.victim, e.now);
    hide HandleControl, Harms, Covered;
    assert addr in Apply(b, e).streams[sid];
  }

  // ---- A whole run in which it happens

  /** A stream, a HELLO, a packet, a newer HELLO that cannot be read, the packet again. */
  ghost function Greeting(): Event { ControlIn(7, ControlPacket(Base, 10, Hello(1, Some([]))), 7, 0) }

  ghost function Garbled(): Event { ControlIn(7, ControlPacket(Base, 20, Hello(2, None)), 7, 0) }

  ghost function Arrival(): Event { StreamIn(0, 7, StreamPacket(Data(BASELINE, 1), 5), 0) }

  ghost function Script(): seq<Event> { [OpenStreamAs(0), Greeting(), Arrival(), Garbled(), Arrival()] }

  /** The Band after the greeting. */
  ghost function Greeted(marks: map<Addr, nat>, log: seq<Receipt>): Band
  {
    Band([BASELINE], map[7 := Peer(1, BASELINE, 0)], map[7 := 1], map[7 := 10], map[0 := marks], [Receipt(7, 1, 10)],
        map[0 := log])
  }

  lemma GreetingStep()
    ensures Apply(Apply(NewBand([]), OpenStreamAs(0)), Greeting()) == Greeted(map[], [])
  {
    var ready := Apply(NewBand([]), OpenStreamAs(0));
    assert ready == Band([BASELINE], map[], map[], map[], map[0 := map[]], [], map[0 := []]);
    assert |ready.peers| == 0;
    hide SelectCipher;
    assert SelectCipher([], ready.ciphers) == BASELINE;
    var z := Apply(ready, Greeting());
    assert z.streams == map[0 := map[]];
    assert z.peers == map[7 := Peer(1, BASELINE, 0)];
  }

  lemma ArrivalStep()
    ensures Apply(Greeted(map[], []), Arrival()) == Greeted(map[7 := 5], [Receipt(7, 1, 5)])
  {
    var z := Apply(Greeted(map[], []), Arrival());
    assert [] + [Receipt(7, 1, 5)] == [Receipt(7, 1, 5)];
    assert z.peers == map[7 := Peer(1, BASELINE, 0)] && z.streams == map[0 := map[7 := 5]];
    assert z.accepted == map[0 := [Receipt(7, 1, 5)]];
  }

  lemma GarbledStep()
    ensures Harms(Greeted(map[7 := 5], [Receipt(7, 1, 5)]), Garbled())
    ensures Apply(Apply(Greeted(map[7 := 5], [Receipt(7, 1, 5)]), Garbled()), Arrival()).accepted
         == map[0 := [Receipt(7, 1, 5), Receipt(7, 1, 5)]]
  {
    var b, g := Greeted(map[7 := 5], [Receipt(7, 1, 5)]), Garbled();
    HarmDone(b, 7, g.control, 7, 0);
    var after := Apply(b, g);
    hide HandleControl;
    assert after.streams[0] == map[];
    assert after.accepted[0] == [Receipt(7, 1, 5)];
    var z := Apply(after, Arrival());
    assert [Receipt(7, 1, 5)] + [Receipt(7, 1, 5)] == [Receipt(7, 1, 5), Receipt(7, 1, 5)];
    assert z.accepted == after.accepted[0 := [Receipt(7, 1, 5), Receipt(7, 1, 5)]];
  }

  /** Unharmed up to the garbled HELLO, harmed by it, and then the same packet is accepted twice. */
  lemma ReadmissionHappens()
    ensures Unharmed([], Script()[..3]) && !Unharmed([], Script()[..4])
    ensures Replay(NewBand([]), Script()).accepted == map[0 := [Receipt(7, 1, 5), Receipt(7, 1, 5)]]
    ensures !Increasing([Receipt(7, 1, 5), Receipt(7, 1, 5)])
  {
    hide Apply, Harms, Replay, Greeted, NewBand;
    FirstThreeUnharmed(Script());
    ScriptReplays();
    GarbledStep();
    assert Script()[..4][..3] == Script()[..3];
    var log := [Receipt(7, 1, 5), Receipt(7, 1, 5)];
    assert !Later(log[0], log[1]);
  }

  lemma ScriptReplays()
    ensures var b := Greeted(map[7 := 5], [Receipt(7, 1, 5)]);
            && Replay(NewBand([]), Script()[..3]) == b
            && Replay(NewBand([]), Script()) == Apply(Apply(b, Garbled()), Arrival())
  {
    hide Apply, Replay, Greeting, Garbled, Arrival, Greeted, NewBand;
    GreetingStep();
    ArrivalStep();
    FiveEvents(NewBand([]), OpenStreamAs(0), Greeting(), Arrival(), Garbled());
  }

  lemma FirstThreeUnharmed(events: seq<Event>)
    requires |events| >= 3 && events[0].OpenStreamAs? && events[2].StreamIn?
    requires events[1].ControlIn? && events[1].control.body.Hello? && events[1].control.body.ciphers.Some?
    ensures Unharmed([], events[..3])
  {
    hide Replay;
    assert events[..3][..2] == events[..2] && events[..2][..1] == events[..1] && events[..1][..0] == [];
    assert Unharmed([], events[..1]) && Unharmed([], events[..2]);
  }

  lemma FiveEvents(b: Band, e0: Event, e1: Event, e2: Event, e3: Event)
    ensures var events := [e0, e1, e2, e3, e2];
            && Replay(b, events[..1]) == Apply(b, e0) && Replay(b, events[..2]) == Apply(Apply(b, e0), e1)
            && Replay(b, events[..3]) == Apply(Apply(Apply(b, e0), e1), e2)
            && Replay(b, events[..4]) == Apply(Apply(Apply(Apply(b, e0), e1), e2), e3)
            && Replay(b, events) == Apply(Apply(Apply(Apply(Apply(b, e0), e1), e2), e3), e2)
  {
    hide Apply;
    var events := [e0, e1, e2, e3, e2];
    assert events[..1][..0] == [] && events[..2][..1] == events[..1] && events[..3][..2] == events[..2];
    assert events[..4][..3] == events[..3] && events[..5] == events;
  }

  /** In every unharmed run the key for a peer's data is the key of the control channel's session with it. */
  lemma KeyIsSessions(ciphers: seq<Cipher>, events: seq<Event>, addr: Addr)
    requires Unharmed(ciphers, events)
    ensures var b := Replay(NewBand(ciphers), events);
            && (RecvKey(b, addr).Some? <==> addr in b.peers && SessionOf(b.session, addr) >= 0)
            && (RecvKey(b, addr).Some? ==>
                  RecvKey(b, addr).value.Data? && RecvKey(b, addr).value.epoch == SessionOf(b.session, addr))
  {
    hide Increasing, Covered, StreamsOk, Replay, Unharmed;
    RunKeepsInv(ciphers, events);
  }
}
