/** Which suites are used, which packets are taken, and who is remembered, over whole runs of one Band. */
module SessionEffects {
  import opened BigEndian
  import opened Session
  import opened SessionTheorems

  // ---- Suites

  ghost predicate Acceptable(c: Cipher, supported: seq<Cipher>)
  {
    c in supported || c == BASELINE
  }

  ghost predicate FirstAcceptable(prefs: seq<Cipher>, supported: seq<Cipher>, i: nat)
  {
    i < |prefs| && Acceptable(prefs[i], supported) && forall j :: 0 <= j < i ==> !Acceptable(prefs[j], supported)
  }

  /** The initiator's first preference that we support or that is the baseline; the baseline if there is none. */
  lemma {:induction false} SelectsTheFirstAcceptable(prefs: seq<Cipher>, supported: seq<Cipher>)
    ensures var c := SelectCipher(prefs, supported);
            && c in supported + [BASELINE]
            && ((exists i: nat :: FirstAcceptable(prefs, supported, i) && c == prefs[i])
                || (c == BASELINE && forall j :: 0 <= j < |prefs| ==> !Acceptable(prefs[j], supported)))
  {
    if prefs != [] {
      if Acceptable(prefs[0], supported) {
        assert FirstAcceptable(prefs, supported, 0);
      } else {
        SelectsTheFirstAcceptable(prefs[1..], supported);
        if i: nat :| FirstAcceptable(prefs[1..], supported, i) && SelectCipher(prefs, supported) == prefs[1..][i] {
          ShiftFirst(prefs, supported, i);
        }
      }
    }
  }

  lemma ShiftFirst(prefs: seq<Cipher>, supported: seq<Cipher>, i: nat)
    requires prefs != [] && !Acceptable(prefs[0], supported) && FirstAcceptable(prefs[1..], supported, i)
    ensures FirstAcceptable(prefs, supported, i + 1)
  {
    forall j | 0 <= j < i + 1 ensures !Acceptable(prefs[j], supported) {
      if j > 0 { assert prefs[1..][j - 1] == prefs[j]; }
    }
  }

  ghost predicate Within(peers: map<Addr, Peer>, suites: seq<Cipher>)
  {
    forall a :: a in peers ==> peers[a].cipher in suites
  }

  /** Our suites never change, the baseline is one of them, and every peer's suite is one of them. */
  ghost predicate SuitesOk(b: Band, ciphers: seq<Cipher>)
  {
    (forall c :: c in b.ciphers <==> c in ciphers || c == BASELINE) && Within(b.peers, b.ciphers)
  }

  lemma AdoptSuites(b: Band, addr: Addr, epoch: int, cipher: Cipher, victim: Addr, now: nat)
    requires Within(b.peers, b.ciphers) && BASELINE in b.ciphers && cipher in b.ciphers
    ensures Within(Adopt(b, addr, epoch, cipher, victim, now).peers, b.ciphers)
  {
    hide BASELINE, MAX_PEERS;
    EnsureSuites(b, addr, victim, now);
    hide EnsurePeer;
  }

  lemma EnsureSuites(b: Band, addr: Addr, victim: Addr, now: nat)
    requires Within(b.peers, b.ciphers) && BASELINE in b.ciphers
    ensures Within(EnsurePeer(b, addr, victim, now).peers, b.ciphers)
  {
    hide BASELINE, MAX_PEERS;
  }

  lemma DispatchSuites(b: Band, addr: Addr, m: Control, victim: Addr, now: nat)
    requires Within(b.peers, b.ciphers) && BASELINE in b.ciphers
    ensures Within(Dispatch(b, addr, m, victim, now).peers, b.ciphers)
  {
    hide SelectCipher, Adopt;
    match m
    case Hello(epoch, ciphers) =>
      if ciphers.Some? {
        SelectsTheFirstAcceptable(ciphers.value, b.ciphers);
        AdoptSuites(b, addr, epoch, SelectCipher(ciphers.value, b.ciphers), victim, now);
      }
    case HelloAck(epoch, cipher) =>
      AdoptSuites(b, addr, epoch, if cipher in b.ciphers then cipher else BASELINE, victim, now);
    case _ =>
  }

  lemma ApplySuites(b: Band, ciphers: seq<Cipher>, e: Event)
    requires SuitesOk(b, ciphers)
    ensures SuitesOk(Apply(b, e), ciphers)
  {
    match e
    case ControlIn(addr, p, victim, now) => ControlSuites(b, addr, p, victim, now);
    case StreamIn(_, _, _, _) =>
    case Remove(_) =>
    case OpenStreamAs(_) =>
  }

  lemma ControlSuites(b: Band, addr: Addr, p: ControlPacket, victim: Addr, now: nat)
    requires Within(b.peers, b.ciphers) && BASELINE in b.ciphers
    ensures var after := HandleControl(b, addr, p, victim, now);
            after.ciphers == b.ciphers && Within(after.peers, b.ciphers)
  {
    var t := Touch(b, addr, now);
    assert Within(t.peers, b.ciphers) && t.ciphers == b.ciphers;
    hide Within, Touch, Dispatch, Authentic, ResetStreams;
    var u := t.(watermark := Raise(t.watermark, addr, p.seqno),
                dispatched := t.dispatched + [Receipt(addr, SessionOf(t.session, addr), p.seqno)]);
    DispatchSuites(u, addr, p.body, victim, now);
    DispatchFrame(u, addr, p.body, victim, now);
    if IsHandshake(p.body) {
      var v := t.(session := t.session[addr := p.body.epoch], streams := ResetStreams(t.streams, addr),
                  watermark := Raise(t.watermark, addr, p.seqno),
                  dispatched := t.dispatched + [Receipt(addr, p.body.epoch, p.seqno)]);
      DispatchSuites(v, addr, p.body, victim, now);
      DispatchFrame(v, addr, p.body, victim, now);
    }
  }

  /** In every run, whatever peers propose, data is only ever read under one of our suites or the baseline. */
  lemma {:induction false} DataKeysUseOurSuites(ciphers: seq<Cipher>, events: seq<Event>)
    ensures var b := Replay(NewBand(ciphers), events);
            SuitesOk(b, ciphers)
            && forall a :: RecvKey(b, a).Some? ==> RecvKey(b, a).value.Data? && RecvKey(b, a).value.cipher in b.ciphers
  {
    if events != [] {
      DataKeysUseOurSuites(ciphers, events[..|events| - 1]);
      ApplySuites(Replay(NewBand(ciphers), events[..|events| - 1]), ciphers, events[|events| - 1]);
    }
  }

  /** A newer HELLO_ACK is adopted with the suite it names, or the baseline if that is none of ours. */
  lemma AnswerIsAdopted(b: Band, addr: Addr, p: ControlPacket, victim: Addr, now: nat)
    requires EpochsAgree(b.peers, b.session) && p.body.HelloAck? && Authentic(b, addr, p.key)
    requires p.body.epoch > SessionOf(b.session, addr) >= UNKNOWN_EPOCH
    ensures var after := HandleControl(b, addr, p, victim, now);
            && addr in after.peers
            && after.peers[addr].epoch == p.body.epoch && after.peers[addr].lastSeen == now
            && after.peers[addr].cipher == (if p.body.cipher in b.ciphers then p.body.cipher else BASELINE)
            && after.streams == ResetStreams(b.streams, addr)
  {
    hide ResetStreams, Adopt;
    var t := Touch(b, addr, now);
    assert addr in b.peers ==> b.peers[addr].epoch == SessionOf(b.session, addr);
    var cipher := if p.body.cipher in b.ciphers then p.body.cipher else BASELINE;
    AdoptEffect(t.(session := t.session[addr := p.body.epoch], streams := ResetStreams(t.streams, addr),
                   watermark := Raise(t.watermark, addr, p.seqno),
                   dispatched := t.dispatched + [Receipt(addr, p.body.epoch, p.seqno)]),
                addr, p.body.epoch, cipher, victim, now);
  }

  // ---- Which packets are taken

  /** Every watermark is the number of a packet taken in the peer's present session. */
  ghost predicate Grounded(log: seq<Receipt>, session: map<Addr, int>, watermark: map<Addr, nat>)
  {
    forall a :: a in watermark ==> Receipt(a, SessionOf(session, a), watermark[a]) in log
  }

  /** `r` is later than everything taken from its peer. */
  ghost predicate Fresh(log: seq<Receipt>, r: Receipt)
  {
    forall i :: 0 <= i < |log| && log[i].addr == r.addr ==> Later(log[i], r)
  }

  lemma GroundedAppend(log: seq<Receipt>, session: map<Addr, int>, watermark: map<Addr, nat>, addr: Addr, epoch: int,
                       seqno: nat)
    requires Grounded(log, session, watermark)
    ensures Grounded(log + [Receipt(addr, epoch, seqno)], session[addr := epoch], Raise(watermark, addr, seqno))
    ensures epoch == SessionOf(session, addr) ==>
              Grounded(log + [Receipt(addr, epoch, seqno)], session, Raise(watermark, addr, seqno))
  {
    var r := Receipt(addr, epoch, seqno);
    assert forall s :: s in log || s == r ==> s in log + [r];
  }

  lemma GroundedRestart(log: seq<Receipt>, session: map<Addr, int>, watermark: map<Addr, nat>, addr: Addr, epoch: int)
    requires Grounded(log, session, watermark)
    ensures Grounded(log, session[addr := epoch], watermark - {addr})
  {
  }

  /** A receipt of the present session is later than everything taken exactly when its number is above the watermark. */
  lemma FreshIsAbove(log: seq<Receipt>, session: map<Addr, int>, watermark: map<Addr, nat>, addr: Addr, seqno: nat)
    requires Covered(log, session, watermark) && Grounded(log, session, watermark)
    ensures Fresh(log, Receipt(addr, SessionOf(session, addr), seqno)) <==>
            (addr in watermark ==> watermark[addr] < seqno)
  {
    if addr in watermark && seqno <= watermark[addr] {
      var held := Receipt(addr, SessionOf(session, addr), watermark[addr]);
      var i :| 0 <= i < |log| && log[i] == held;
      assert !Later(log[i], Receipt(addr, SessionOf(session, addr), seqno));
    }
  }

  /** What holds of the control channel in every run. */
  ghost predicate ControlOk(b: Band)
  {
    && SessionsSane(b.session) && Covered(b.dispatched, b.session, b.watermark)
    && Grounded(b.dispatched, b.session, b.watermark) && b.session.Keys <= b.watermark.Keys
  }

  /** The epoch a control packet is counted under: the one a handshake names, otherwise the present one. */
  ghost function EpochOf(b: Band, addr: Addr, p: ControlPacket): int
  {
    if IsHandshake(p.body) then p.body.epoch else SessionOf(b.session, addr)
  }

  /** The packet is readable under a key of its sender and later than every control packet taken from it. */
  ghost predicate Takes(b: Band, addr: Addr, p: ControlPacket)
  {
    && Authentic(b, addr, p.key) && !p.body.Unknown? && EpochOf(b, addr, p) >= UNKNOWN_EPOCH
    && Fresh(b.dispatched, Receipt(addr, EpochOf(b, addr, p), p.seqno))
  }

  /** The Band when a packet has been taken and its handler is about to be called: its number is the watermark, even if
      it is a lower one of a newer session, and a newer session forgets where the streams had got to. */
  ghost function Taken(b: Band, addr: Addr, p: ControlPacket, now: nat): Band
  {
    var epoch, t := EpochOf(b, addr, p), Touch(b, addr, now);
    var newer := epoch > SessionOf(b.session, addr);
    t.(session := if newer then b.session[addr := epoch] else b.session,
       watermark := b.watermark[addr := p.seqno],
       streams := if newer then ResetStreams(b.streams, addr) else b.streams,
       dispatched := b.dispatched + [Receipt(addr, epoch, p.seqno)])
  }

  lemma TakesExactly(b: Band, addr: Addr, p: ControlPacket, victim: Addr, now: nat)
    requires ControlOk(b)
    ensures HandleControl(b, addr, p, victim, now)
         == if Takes(b, addr, p) then Dispatch(Taken(b, addr, p, now), addr, p.body, victim, now)
            else Touch(b, addr, now)
  {
    hide Covered, Grounded, Fresh, ResetStreams, Dispatch;
    var t := Touch(b, addr, now);
    assert Authentic(t, addr, p.key) <==> Authentic(b, addr, p.key);
    assert t == b.(peers := t.peers);
    hide Authentic, Touch;
    FreshIsAbove(b.dispatched, b.session, b.watermark, addr, p.seqno);
    if IsHandshake(p.body) {
      OtherEpochs(b, addr, p.body.epoch, p.seqno);
    }
  }

  /** A newer epoch is later than everything taken; an older one is not later than what opened the session. */
  lemma OtherEpochs(b: Band, addr: Addr, epoch: int, seqno: nat)
    requires ControlOk(b)
    ensures epoch > SessionOf(b.session, addr) ==>
              epoch > UNKNOWN_EPOCH && Fresh(b.dispatched, Receipt(addr, epoch, seqno))
    ensures UNKNOWN_EPOCH <= epoch < SessionOf(b.session, addr) ==> !Fresh(b.dispatched, Receipt(addr, epoch, seqno))
  {
    if UNKNOWN_EPOCH <= epoch < SessionOf(b.session, addr) {
      var held := Receipt(addr, SessionOf(b.session, addr), b.watermark[addr]);
      var i :| 0 <= i < |b.dispatched| && b.dispatched[i] == held;
      assert !Later(b.dispatched[i], Receipt(addr, epoch, seqno));
    }
  }

  lemma TakenOk(b: Band, addr: Addr, p: ControlPacket, now: nat)
    requires ControlOk(b) && Takes(b, addr, p)
    ensures ControlOk(Taken(b, addr, p, now))
  {
    hide Covered, Grounded, Fresh, ResetStreams, Authentic;
    var epoch, prev := EpochOf(b, addr, p), SessionOf(b.session, addr);
    OtherEpochs(b, addr, epoch, p.seqno);
    GroundedAppend(b.dispatched, b.session, b.watermark, addr, epoch, p.seqno);
    FreshIsAbove(b.dispatched, b.session, b.watermark, addr, p.seqno);
    if epoch > prev {
      CoveredByNewer(b.dispatched, b.session, b.watermark, addr, epoch, p.seqno);
    } else {
      CoveredBySame(b.dispatched, b.session, b.watermark, addr, p.seqno);
    }
  }

  lemma CoveredByNewer(log: seq<Receipt>, session: map<Addr, int>, watermark: map<Addr, nat>, addr: Addr, epoch: int,
                       seqno: nat)
    requires Covered(log, session, watermark) && epoch > SessionOf(session, addr)
    ensures Covered(log + [Receipt(addr, epoch, seqno)], session[addr := epoch], Raise(watermark, addr, seqno))
  {
  }

  lemma CoveredBySame(log: seq<Receipt>, session: map<Addr, int>, watermark: map<Addr, nat>, addr: Addr, seqno: nat)
    requires Covered(log, session, watermark) && (addr in watermark ==> watermark[addr] < seqno)
    ensures Covered(log + [Receipt(addr, SessionOf(session, addr), seqno)], session, Raise(watermark, addr, seqno))
  {
  }

  lemma ApplyControlOk(b: Band, e: Event)
    requires ControlOk(b)
    ensures ControlOk(Apply(b, e))
  {
    hide Covered, Grounded;
    match e
    case ControlIn(addr, p, victim, now) =>
      TakesExactly(b, addr, p, victim, now);
      hide HandleControl;
      if Takes(b, addr, p) {
        hide Takes, Taken, Dispatch;
        TakenOk(b, addr, p, now);
        DispatchFrame(Taken(b, addr, p, now), addr, p.body, victim, now);
      }
    case StreamIn(_, _, _, _) =>
    case Remove(_) =>
    case OpenStreamAs(_) =>
  }

  lemma {:induction false} ReachableControlOk(ciphers: seq<Cipher>, events: seq<Event>)
    ensures ControlOk(Replay(NewBand(ciphers), events))
  {
    if events != [] {
      hide ControlOk, Apply;
      ReachableControlOk(ciphers, events[..|events| - 1]);
      ApplyControlOk(Replay(NewBand(ciphers), events[..|events| - 1]), events[|events| - 1]);
    }
  }

  /** In every run a control packet reaches its handler exactly when it is authentic and later than every control packet
      taken from its sender; any other only shows that the sender is alive. */
  lemma ControlTakenExactly(ciphers: seq<Cipher>, events: seq<Event>, addr: Addr, p: ControlPacket, victim: Addr,
                            now: nat)
    ensures var b := Replay(NewBand(ciphers), events);
            var after := HandleControl(b, addr, p, victim, now);
            if Takes(b, addr, p) then after == Dispatch(Taken(b, addr, p, now), addr, p.body, victim, now)
            else after == Touch(b, addr, now)
  {
    ReachableControlOk(ciphers, events);
    hide Replay, NewBand;
    TakesExactly(Replay(NewBand(ciphers), events), addr, p, victim, now);
  }

  // ---- Streams

  ghost predicate StreamsGrounded(b: Band)
  {
    && b.streams.Keys == b.accepted.Keys
    && forall sid :: sid in b.streams ==> Grounded(b.accepted[sid], b.session, b.streams[sid])
  }

  lemma ApplyGrounds(b: Band, e: Event)
    requires Inv(b) && ControlOk(b) && StreamsGrounded(b)
    ensures StreamsGrounded(Apply(b, e))
  {
    hide Covered, Increasing, ControlOk, Grounded;
    match e
    case ControlIn(addr, p, victim, now) =>
      TakesExactly(b, addr, p, victim, now);
      hide HandleControl;
      if Takes(b, addr, p) {
        var z := Taken(b, addr, p, now);
        DispatchFrame(z, addr, p.body, victim, now);
        hide Takes, Dispatch;
        if EpochOf(b, addr, p) > SessionOf(b.session, addr) {
          forall sid | sid in b.streams ensures Grounded(b.accepted[sid], z.session, b.streams[sid] - {addr}) {
            GroundedRestart(b.accepted[sid], b.session, b.streams[sid], addr, EpochOf(b, addr, p));
          }
        }
      }
    case StreamIn(sid, addr, p, now) => StreamGrounds(b, sid, addr, p, now);
    case Remove(_) =>
    case OpenStreamAs(_) => EmptyGrounded(b.session);
  }

  lemma EmptyGrounded(session: map<Addr, int>)
    ensures Grounded([], session, map[])
  {
  }

  lemma StreamGrounds(b: Band, sid: StreamId, addr: Addr, p: StreamPacket, now: nat)
    requires Inv(b) && StreamsGrounded(b)
    ensures StreamsGrounded(HandleStream(b, sid, addr, p, now))
  {
    hide Covered, Increasing, Grounded;
    var t := Touch(b, addr, now);
    assert t == b.(peers := t.peers) && RecvKey(t, addr) == RecvKey(b, addr);
    if sid in t.streams && RecvKey(t, addr) == Some(p.key) {
      assert p.key.epoch == SessionOf(b.session, addr);
      GroundedAppend(b.accepted[sid], b.session, b.streams[sid], addr, p.key.epoch, p.seqno);
    }
  }

  lemma {:induction false} ReachableGrounded(ciphers: seq<Cipher>, events: seq<Event>)
    requires Unharmed(ciphers, events)
    ensures StreamsGrounded(Replay(NewBand(ciphers), events))
  {
    if events != [] {
      hide StreamsGrounded, Apply, Inv, ControlOk, Harms;
      var before := events[..|events| - 1];
      ReachableGrounded(ciphers, before);
      RunKeepsInv(ciphers, before);
      ReachableControlOk(ciphers, before);
      ApplyGrounds(Replay(NewBand(ciphers), before), events[|events| - 1]);
    }
  }

  /** In every unharmed run a packet is accepted on an open stream exactly when it is under its sender's present key and
      later than every packet accepted from that sender on that stream. No other packet changes any history. */
  lemma StreamTakenExactly(ciphers: seq<Cipher>, events: seq<Event>, sid: StreamId, addr: Addr, p: StreamPacket,
                           now: nat)
    requires Unharmed(ciphers, events)
    ensures var b := Replay(NewBand(ciphers), events);
            var after := HandleStream(b, sid, addr, p, now);
            && (sid in b.streams <==> sid in b.accepted)
            && var r := Receipt(addr, SessionOf(b.session, addr), p.seqno);
            if sid in b.accepted && RecvKey(b, addr) == Some(p.key) && Fresh(b.accepted[sid], r)
            then after.accepted == b.accepted[sid := b.accepted[sid] + [r]]
                 && after.streams == b.streams[sid := Raise(b.streams[sid], addr, p.seqno)]
            else after == Touch(b, addr, now)
  {
    ReachableGrounded(ciphers, events);
    RunKeepsInv(ciphers, events);
    var b := Replay(NewBand(ciphers), events);
    hide Replay, NewBand, Unharmed, Covered, Increasing, Grounded, Fresh;
    var t := Touch(b, addr, now);
    assert t == b.(peers := t.peers) && RecvKey(t, addr) == RecvKey(b, addr);
    if sid in b.streams {
      FreshIsAbove(b.accepted[sid], b.session, b.streams[sid], addr, p.seqno);
    }
  }

  // ---- Who is remembered

  /** Any packet of a known peer shows that it is alive, and says nothing about the others. */
  lemma TouchEffect(b: Band, addr: Addr, now: nat)
    ensures var after := Touch(b, addr, now);
            && after == b.(peers := after.peers) && after.peers.Keys == b.peers.Keys
            && (forall a :: a in b.peers ==>
                  after.peers[a] == if a == addr then b.peers[a].(lastSeen := now) else b.peers[a])
  {
  }

  /** A GOODBYE that is taken forgets its sender and nobody else; a KEEPALIVE forgets nobody. */
  lemma GoodbyeForgets(b: Band, addr: Addr, p: ControlPacket, victim: Addr, now: nat)
    requires ControlOk(b) && Takes(b, addr, p)
    ensures var after := HandleControl(b, addr, p, victim, now);
            && (p.body.Goodbye? ==> after.peers == b.peers - {addr})
            && (p.body.Keepalive? || p.body.OtherControl? ==> after.peers == Touch(b, addr, now).peers)
  {
    hide Covered, Grounded, Takes;
    TakesExactly(b, addr, p, victim, now);
    hide HandleControl, ResetStreams;
    assert Touch(Taken(b, addr, p, now), addr, now).peers == Touch(b, addr, now).peers;
    assert Touch(b, addr, now).peers - {addr} == b.peers - {addr};
  }

  /** A newcomer at the cap takes the place of the peer chosen to go, and of nobody else. */
  lemma NewcomerReplaces(b: Band, addr: Addr, victim: Addr, now: nat)
    ensures var after, full := EnsurePeer(b, addr, victim, now), |b.peers| >= MAX_PEERS;
            && after == b.(peers := after.peers)
            && (addr in b.peers ==> after == b)
            && (addr !in b.peers ==>
                  && addr in after.peers && after.peers[addr] == Peer(UNKNOWN_EPOCH, BASELINE, now)
                  && after.peers - {addr} == b.peers - (if full then {victim} else {}))
  {
    assert b.peers - {} == b.peers;
  }

  lemma UpdateKeepsSize(peers: map<Addr, Peer>, addr: Addr, p: Peer)
    requires addr in peers
    ensures |peers[addr := p]| == |peers|
  {
    assert peers[addr := p].Keys == peers.Keys;
  }

  lemma RemovalShrinks(peers: map<Addr, Peer>, addr: Addr)
    ensures |peers - {addr}| == if addr in peers then |peers| - 1 else |peers|
  {
    assert (peers - {addr}).Keys == peers.Keys - {addr};
  }

  lemma AdoptBounded(b: Band, addr: Addr, epoch: int, cipher: Cipher, victim: Addr, now: nat)
    requires |b.peers| <= MAX_PEERS && (addr !in b.peers && |b.peers| >= MAX_PEERS ==> IsStalest(b.peers, victim))
    ensures |Adopt(b, addr, epoch, cipher, victim, now).peers| <= MAX_PEERS
  {
    NewcomerReplaces(b, addr, victim, now);
    var after := EnsurePeer(b, addr, victim, now);
    hide EnsurePeer;
    UpdateKeepsSize(after.peers, addr, Peer(epoch, cipher, now));
    RemovalShrinks(after.peers, addr);
    if addr !in b.peers && |b.peers| >= MAX_PEERS {
      RemovalShrinks(b.peers, victim);
    } else {
      assert b.peers - {} == b.peers;
    }
  }

  /** At every handshake of a newcomer that finds the registry full, the peer to go is the stalest one there. */
  ghost predicate EvictsStalest(ciphers: seq<Cipher>, events: seq<Event>)
  {
    events == [] ||
    var before, e := events[..|events| - 1], events[|events| - 1];
    && EvictsStalest(ciphers, before)
    && var peers := Replay(NewBand(ciphers), before).peers;
    (e.ControlIn? && e.addr !in peers && |peers| >= MAX_PEERS ==> IsStalest(peers, e.victim))
  }

  lemma DispatchBounded(b: Band, addr: Addr, m: Control, victim: Addr, now: nat)
    requires |b.peers| <= MAX_PEERS && (addr !in b.peers && |b.peers| >= MAX_PEERS ==> IsStalest(b.peers, victim))
    ensures |Dispatch(b, addr, m, victim, now).peers| <= MAX_PEERS
  {
    hide SelectCipher, Adopt;
    match m
    case Hello(epoch, ciphers) =>
      if ciphers.Some? { AdoptBounded(b, addr, epoch, SelectCipher(ciphers.value, b.ciphers), victim, now); }
    case HelloAck(epoch, cipher) =>
      AdoptBounded(b, addr, epoch, if cipher in b.ciphers then cipher else BASELINE, victim, now);
    case Keepalive =>
      if addr in b.peers { UpdateKeepsSize(b.peers, addr, b.peers[addr].(lastSeen := now)); }
    case Goodbye => RemovalShrinks(b.peers, addr);
    case _ =>
  }

  /** No run remembers more peers than the cap. */
  lemma {:induction false} PeersBounded(ciphers: seq<Cipher>, events: seq<Event>)
    requires EvictsStalest(ciphers, events)
    ensures |Replay(NewBand(ciphers), events).peers| <= MAX_PEERS
  {
    if events != [] {
      var before, e := events[..|events| - 1], events[|events| - 1];
      PeersBounded(ciphers, before);
      ReachableControlOk(ciphers, before);
      var b := Replay(NewBand(ciphers), before);
      hide Replay, NewBand, ControlOk;
      ApplyBounded(b, e);
    }
  }

  lemma ApplyBounded(b: Band, e: Event)
    requires ControlOk(b) && |b.peers| <= MAX_PEERS
    requires e.ControlIn? && e.addr !in b.peers && |b.peers| >= MAX_PEERS ==> IsStalest(b.peers, e.victim)
    ensures |Apply(b, e).peers| <= MAX_PEERS
  {
    hide ControlOk, HandleControl, IsStalest;
    match e
    case ControlIn(addr, p, victim, now) => ControlBounded(b, addr, p, victim, now);
    case StreamIn(_, addr, _, now) => TouchKeepsSize(b, addr, now);
    case Remove(addr) => RemovalShrinks(b.peers, addr);
    case OpenStreamAs(_) =>
  }

  lemma TouchKeepsSize(b: Band, addr: Addr, now: nat)
    ensures |Touch(b, addr, now).peers| == |b.peers| && (addr !in b.peers ==> Touch(b, addr, now).peers == b.peers)
    ensures addr in Touch(b, addr, now).peers <==> addr in b.peers
  {
    if addr in b.peers { UpdateKeepsSize(b.peers, addr, b.peers[addr].(lastSeen := now)); }
  }

  lemma ControlBounded(b: Band, addr: Addr, p: ControlPacket, victim: Addr, now: nat)
    requires ControlOk(b) && |b.peers| <= MAX_PEERS
    requires addr !in b.peers && |b.peers| >= MAX_PEERS ==> IsStalest(b.peers, victim)
    ensures |HandleControl(b, addr, p, victim, now).peers| <= MAX_PEERS
  {
    hide ControlOk, HandleControl, Takes, ResetStreams, Dispatch, Touch, IsStalest;
    TakesExactly(b, addr, p, victim, now);
    TouchKeepsSize(b, addr, now);
    DispatchBounded(Taken(b, addr, p, now), addr, p.body, victim, now);
  }
}
