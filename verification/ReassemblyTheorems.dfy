/** What a reassembler gives back: soundness under any traffic, and completeness for honest senders. */
module ReassemblyTheorems {
  import opened BigEndian
  import opened Fragments
  import opened Sums
  import opened Reassembly
  import opened ReassemblyInvariant

  // ---- Soundness: many interleaved messages, any loss, duplication, eviction or expiry

  /** One message and the chunk size its sender used. */
  datatype Original = Original(payload: Payload, size: nat)

  type Book = b: map<FragmentId, Original> | forall k :: k in b ==> b[k].size > 0

  /** `raw` is no chunk at all, or a chunk of the one message its id stands for. */
  ghost predicate Honest(raw: seq<byte>, book: Book)
  {
    match ParseChunk(raw)
    case None => true
    case Some(c) => c.fid in book && IsPieceOf(c, book[c.fid])
  }

  ghost predicate IsPieceOf(c: Chunk, o: Original)
    requires o.size > 0
  {
    && c.total == PieceCount(|o.payload|, o.size)
    && c.index < c.total
    && c.data == Piece(o.payload, o.size, c.index)
  }

  ghost predicate FaithfulPartial(p: Partial, o: Original)
    requires o.size > 0
  {
    && p.total == PieceCount(|o.payload|, o.size)
    && forall i :: i in p.parts ==> i < p.total && p.parts[i] == Piece(o.payload, o.size, i)
  }

  ghost predicate Faithful(buffers: map<FragmentId, Partial>, book: Book)
  {
    forall k :: k in buffers ==> k in book && FaithfulPartial(buffers[k], book[k])
  }

  lemma ShrunkStaysFaithful(s: State, t: State, book: Book)
    requires Faithful(s.buffers, book) && Shrunk(s, t)
    ensures Faithful(t.buffers, book)
  {
    hide FaithfulPartial;
  }

  lemma GrownStaysFaithful(p: Partial, c: Chunk, o: Original)
    requires o.size > 0 && FaithfulPartial(p, o) && IsPieceOf(c, o)
    ensures FaithfulPartial(Grown(p, c), o)
    ensures Grown(p, c).parts.Keys == Below(c.total) ==> Concat(Grown(p, c).parts, c.total) == o.payload
  {
    hide PieceCount, Piece;
    if Grown(p, c).parts.Keys == Below(c.total) {
      ConcatAllPieces(Grown(p, c).parts, o.payload, o.size);
    }
  }

  lemma StoreIsSound(s: State, c: Chunk, now: Instant, book: Book)
    requires Inv(s) && Storable(s, c) && Faithful(s.buffers, book)
    requires c.fid in book && IsPieceOf(c, book[c.fid])
    ensures var (t, out) := Store(s, c, now);
            Faithful(t.buffers, book) && (out.Some? ==> out.value == book[c.fid].payload)
  {
    hide Inv, PieceCount, Piece, Sum, RoomForOne, FaithfulPartial;
    RoomForOneKeepsInv(s, c, now);
    var r := RoomForOne(s, c, now);
    ShrunkStaysFaithful(s, r, book);
    EmptyIsFaithful(c, now, r.nextOrder, book[c.fid]);
    GrownStaysFaithful(Landing(r, c, now), c, book[c.fid]);
    var g := Grown(Landing(r, c, now), c);
    FaithfulUpdate(r.buffers, c.fid, g, book);
    hide Faithful, Grown, Landing;
    if |g.parts| == g.total && (forall i: nat :: i < g.total ==> i in g.parts) {
      FaithfulKeys(g, book[c.fid]);
    }
  }

  lemma FaithfulUpdate(buffers: map<FragmentId, Partial>, fid: FragmentId, p: Partial, book: Book)
    requires Faithful(buffers, book) && fid in book && FaithfulPartial(p, book[fid])
    ensures Faithful(buffers[fid := p], book) && Faithful(buffers[fid := p] - {fid}, book)
  {
    hide FaithfulPartial;
  }

  lemma EmptyIsFaithful(c: Chunk, now: Instant, order: nat, o: Original)
    requires o.size > 0 && IsPieceOf(c, o)
    ensures FaithfulPartial(Partial(c.total, map[], 0, now, order), o)
  {
  }

  lemma FaithfulKeys(p: Partial, o: Original)
    requires o.size > 0 && FaithfulPartial(p, o) && forall i: nat :: i < p.total ==> i in p.parts
    ensures p.parts.Keys == Below(p.total)
  {
    hide Piece;
  }

  lemma OnlyPiece(o: Original)
    requires o.size > 0 && PieceCount(|o.payload|, o.size) == 1
    ensures Piece(o.payload, o.size, 0) == o.payload
  {
    PieceIsSlice(o.payload, o.size, 0);
  }

  lemma AdmitIsSound(s: State, c: Chunk, now: Instant, book: Book)
    requires Inv(s) && Faithful(s.buffers, book) && c.fid !in s.evicted
    requires c.fid in book && IsPieceOf(c, book[c.fid]) && c.total <= s.cfg.maxFragments
    ensures var (t, out) := Admit(s, c, now);
            Faithful(t.buffers, book) && (out.Some? ==> out.value == book[c.fid].payload)
  {
    hide Inv, PieceCount, Piece, MakeRoom, Store;
    if c.fid !in s.buffers && c.total == 1 {
      OnlyPiece(book[c.fid]);
    }
    MakeRoomKeepsInv(s, c.fid, |c.data|, now);
    var (s1, fits) := MakeRoom(s, c.fid, |c.data|, now);
    ShrunkStaysFaithful(s, s1, book);
    if !(c.fid in s.buffers && c.index in s.buffers[c.fid].parts) && !(c.fid !in s.buffers && c.total == 1) && fits {
      assert Storable(s1, c);
      StoreIsSound(s1, c, now, book);
    }
  }

  /** One feed: partials stay true to their messages, and whatever comes out is the message. */
  lemma FeedIsSound(s: State, raw: seq<byte>, now: Instant, book: Book)
    requires Inv(s) && Faithful(s.buffers, book) && Honest(raw, book)
    ensures var (t, out) := Feed(s, raw, now);
            Faithful(t.buffers, book) && TrueAnswer(raw, out, book)
  {
    hide Inv, Gc, Admit, IsPieceOf, FaithfulPartial;
    match ParseChunk(raw)
    case None =>
    case Some(c) =>
      if c.total <= s.cfg.maxFragments {
        GcKeepsInv(s, now);
        var g := Gc(s, now);
        ShrunkStaysFaithful(s, g, book);
        if c.fid !in g.evicted {
          assert ResetMismatch(g, c) == g by { HonestNeverResets(g, c, book); }
          AdmitIsSound(g, c, now, book);
        }
      }
  }

  /** An honest sender never changes `total`, so its partial is never reset. */
  lemma HonestNeverResets(s: State, c: Chunk, book: Book)
    requires Faithful(s.buffers, book) && c.fid in book && IsPieceOf(c, book[c.fid])
    ensures ResetMismatch(s, c) == s
  {
  }

  /** The answer to `raw` is silence, or the message `raw`'s id stands for. */
  ghost predicate TrueAnswer(raw: seq<byte>, out: Option<Payload>, book: Book)
  {
    out.Some? ==>
      && ParseChunk(raw).Some?
      && ParseChunk(raw).value.fid in book
      && out.value == book[ParseChunk(raw).value.fid].payload
  }

  /** Over any run of honest chunks, at any instants, every message given back is the one its id stands for. */
  lemma {:induction false} Soundness(cfg: Config, inputs: seq<Input>, book: Book)
    requires ValidConfig(cfg)
    requires forall i :: 0 <= i < |inputs| ==> Honest(inputs[i].raw, book)
    ensures Faithful(FeedAll(Fresh(cfg), inputs).0.buffers, book)
    ensures forall i :: 0 <= i < |inputs| ==> TrueAnswer(inputs[i].raw, FeedAll(Fresh(cfg), inputs).1[i], book)
  {
    hide Inv, Honest, TrueAnswer, Feed, Faithful;
    if inputs == [] {
      NothingIsFaithful(book);
    } else {
      var before, last := inputs[..|inputs| - 1], inputs[|inputs| - 1];
      Soundness(cfg, before, book);
      ReachableInv(cfg, before);
      FeedIsSound(FeedAll(Fresh(cfg), before).0, last.raw, last.now, book);
    }
  }

  lemma NothingIsFaithful(book: Book)
    ensures Faithful(map[], book)
  {
  }

  // ---- Completeness: one message, its chunks in any order with any repeats

  /** The reassembler holds exactly the chunks `held` of one message, none of them opened before `since`. */
  ghost predicate Holding(s: State, payload: Payload, size: nat, fid: FragmentId, held: set<nat>, since: Instant)
    requires size > 0
  {
    && Inv(s) && s.cfg == ChunkSizeConfig(size)
    && s.evicted == map[] && s.evictedOrder == []
    && (if held == {} then s.buffers.Keys == {}
        else
          && s.buffers.Keys == {fid}
          && s.buffers[fid].parts.Keys == held
          && s.buffers[fid].firstSeen >= since
          && FaithfulPartial(s.buffers[fid], Original(payload, size)))
  }

  lemma HoldingBytes(s: State, payload: Payload, size: nat, fid: FragmentId, held: set<nat>, since: Instant)
    requires size > 0 && Holding(s, payload, size, fid, held, since)
    ensures s.bytes <= |held| * size
  {
    hide MemoryOk, ValidConfig, Piece, PieceCount;
    if held == {} {
      assert s.buffers == map[];
    } else {
      var p := s.buffers[fid];
      SumRemove(s.buffers, SizeOf, fid);
      assert (s.buffers - {fid}).Keys == {};
      assert PartialOk(p, s.cfg, s.nextOrder);
      forall i | i in p.parts ensures LengthOf(p.parts[i]) <= size { }
      SumBound(p.parts, LengthOf, size, |held|);
    }
  }

  lemma MulMono(a: nat, b: nat, size: nat)
    requires a <= b
    ensures a * size <= b * size
  {
  }

  /** The library's budget always has room for one more chunk of an incomplete message. */
  lemma BudgetSuffices(s: State, payload: Payload, size: nat, fid: FragmentId, held: set<nat>, since: Instant, n: nat)
    requires Fragmentable(payload, size) && Holding(s, payload, size, fid, held, since)
    requires n <= size && |held| < PieceCount(|payload|, size)
    ensures s.cfg.maxBytes.Some? && s.bytes + n <= s.cfg.maxBytes.value
  {
    hide Inv, Holding, PieceCount;
    HoldingConfig(s, payload, size, fid, held, since);
    HoldingBytes(s, payload, size, fid, held, since);
    MulMono(|held| + 1, WIRE_MAX_FRAGMENTS, size);
    TimesSucc(|held|, size);
  }

  lemma HoldingConfig(s: State, payload: Payload, size: nat, fid: FragmentId, held: set<nat>, since: Instant)
    requires size > 0 && Holding(s, payload, size, fid, held, since)
    ensures s.cfg == ChunkSizeConfig(size)
  {
  }

  lemma GcKeepsHolding(s: State, payload: Payload, size: nat, fid: FragmentId, held: set<nat>, since: Instant,
                       now: Instant)
    requires size > 0 && Holding(s, payload, size, fid, held, since)
    requires now <= since + s.cfg.timeout
    ensures Gc(s, now) == s
  {
    hide Inv, FaithfulPartial;
    assert ForgetExpired(s, now) == s;
    assert StaleIds(s, now) == {};
    assert Restrict(s.buffers, {}).Keys == {};
    assert s.buffers - {} == s.buffers;
  }

  /** A new chunk of an incomplete message is stored, and the last one completes it. */
  lemma StoreWhileHolding(s: State, payload: Payload, size: nat, fid: FragmentId, held: set<nat>, since: Instant,
                          i: nat, now: Instant)
    requires Fragmentable(payload, size) && Holding(s, payload, size, fid, held, since)
    requires i < PieceCount(|payload|, size) && i !in held && since <= now && PieceCount(|payload|, size) > 1
    ensures var c := Chunk(fid, i, PieceCount(|payload|, size), Piece(payload, size, i));
            var (t, out) := Store(s, c, now);
            && Storable(s, c)
            && (if held + {i} == Below(c.total) then out == Some(payload) && Holding(t, payload, size, fid, {}, since)
                else out == None && Holding(t, payload, size, fid, held + {i}, since))
  {
    hide PieceCount, Piece, Inv, Sum, Store, FaithfulPartial, Holding, Landing;
    var total := PieceCount(|payload|, size);
    var c := Chunk(fid, i, total, Piece(payload, size, i));
    HoldingIsPartial(s, payload, size, fid, held, since);
    HoldingTotals(s, payload, size, fid, held, since, c);
    BudgetSuffices(s, payload, size, fid, held, since, |c.data|);
    assert Storable(s, c);
    StoreKeepsInv(s, c, now);
    HoldingHasRoom(s, payload, size, fid, held, since, c, now);
    StoreOpensOrGrows(s, c, now);
    LandingWhileHolding(s, payload, size, fid, held, since, c, now);
    var t := Store(s, c, now).0;
    if held + {i} == Below(total) {
      HoldingNothing(s, t, payload, size, fid, held, since);
    } else {
      HoldingMore(s, t, payload, size, fid, held, since, Grown(Landing(s, c, now), c));
    }
  }

  lemma LandingWhileHolding(s: State, payload: Payload, size: nat, fid: FragmentId, held: set<nat>, since: Instant,
                            c: Chunk, now: Instant)
    requires size > 0 && Holding(s, payload, size, fid, held, since) && since <= now
    requires c.fid == fid && IsPieceOf(c, Original(payload, size))
    ensures var g := Grown(Landing(s, c, now), c);
            && g.parts.Keys == held + {c.index} && g.firstSeen >= since && g.total == c.total
            && FaithfulPartial(g, Original(payload, size))
            && (g.parts.Keys == Below(c.total) ==> Concat(g.parts, c.total) == payload)
  {
    hide Inv, PieceCount, Piece;
    EmptyIsFaithful(c, now, s.nextOrder, Original(payload, size));
    GrownStaysFaithful(Landing(s, c, now), c, Original(payload, size));
  }

  lemma HoldingNothing(s: State, t: State, payload: Payload, size: nat, fid: FragmentId, held: set<nat>, since: Instant)
    requires size > 0 && Holding(s, payload, size, fid, held, since) && Inv(t)
    requires t.cfg == s.cfg && t.evicted == s.evicted && t.evictedOrder == s.evictedOrder
    requires t.buffers.Keys == s.buffers.Keys - {fid}
    ensures Holding(t, payload, size, fid, {}, since)
  {
    hide Inv, FaithfulPartial;
  }

  lemma HoldingMore(s: State, t: State, payload: Payload, size: nat, fid: FragmentId, held: set<nat>, since: Instant,
                    g: Partial)
    requires size > 0 && Holding(s, payload, size, fid, held, since) && Inv(t)
    requires t.cfg == s.cfg && t.evicted == s.evicted && t.evictedOrder == s.evictedOrder
    requires t.buffers == s.buffers[fid := g] && g.firstSeen >= since && g.parts.Keys != {}
    requires FaithfulPartial(g, Original(payload, size))
    ensures Holding(t, payload, size, fid, g.parts.Keys, since)
  {
    hide Inv, FaithfulPartial;
    assert t.buffers.Keys == s.buffers.Keys + {fid};
  }

  /** Storing without an eviction: the landing partial grows, and is handed out once it is full. */
  lemma StoreOpensOrGrows(s: State, c: Chunk, now: Instant)
    requires Inv(s) && Storable(s, c) && RoomForOne(s, c, now) == s
    ensures var g := Grown(Landing(s, c, now), c);
            var (t, out) := Store(s, c, now);
            && t.cfg == s.cfg && t.evicted == s.evicted && t.evictedOrder == s.evictedOrder
            && (if g.parts.Keys == Below(g.total)
                then out == Some(Concat(g.parts, g.total)) && t.buffers == s.buffers - {c.fid}
                else out == None && t.buffers == s.buffers[c.fid := g])
  {
    hide MemoryOk, ValidConfig, Sum, RoomForOne, BuffersOk;
    LandingGrows(s, c, now);
  }

  lemma HoldingIsPartial(s: State, payload: Payload, size: nat, fid: FragmentId, held: set<nat>, since: Instant)
    requires size > 0 && Holding(s, payload, size, fid, held, since)
    ensures |held| < PieceCount(|payload|, size)
  {
    if held != {} {
      assert PartialOk(s.buffers[fid], s.cfg, s.nextOrder);
    }
  }

  lemma HoldingHasRoom(s: State, payload: Payload, size: nat, fid: FragmentId, held: set<nat>, since: Instant,
                       c: Chunk, now: Instant)
    requires size > 0 && Holding(s, payload, size, fid, held, since) && c.fid == fid
    ensures RoomForOne(s, c, now) == s
  {
    hide Inv, FaithfulPartial;
    if held == {} {
      assert |s.buffers| == 0;
    }
  }

  /** One chunk of the message: a repeat changes nothing, the last missing one completes, any other is kept. */
  lemma FeedWhileHolding(s: State, payload: Payload, size: nat, fid: FragmentId, held: set<nat>, since: Instant,
                         i: nat, now: Instant)
    requires Fragmentable(payload, size) && Holding(s, payload, size, fid, held, since)
    requires i < PieceCount(|payload|, size) && since <= now <= since + s.cfg.timeout
    ensures var total := PieceCount(|payload|, size);
            var (t, out) := Feed(s, Fragment(payload, size, fid)[i], now);
            if held + {i} == Below(total) then out == Some(payload) && Holding(t, payload, size, fid, {}, since)
            else out == None && Holding(t, payload, size, fid, held + {i}, since)
  {
    hide Inv, Holding, PieceCount, Piece, Store, Feed, Admit, Fragment, ChunkSizeConfig;
    var total := PieceCount(|payload|, size);
    var c := Chunk(fid, i, total, Piece(payload, size, i));
    ParseFragment(payload, size, fid, i);
    GcKeepsHolding(s, payload, size, fid, held, since, now);
    HoldingIsPartial(s, payload, size, fid, held, since);
    HoldingTotals(s, payload, size, fid, held, since, c);
    FeedAdmits(s, Fragment(payload, size, fid)[i], c, now);
    if i in held {
      AdmitIgnoresRepeat(s, c, now);
      assert held + {i} == held;
      BelowCard(total);
    } else if total == 1 {
      OnlyPiece(Original(payload, size));
      AdmitReturnsSingle(s, c, now);
      assert held == {};
      assert held + {i} == Below(1);
    } else {
      BudgetSuffices(s, payload, size, fid, held, since, |c.data|);
      AdmitStores(s, c, now);
      StoreWhileHolding(s, payload, size, fid, held, since, i, now);
    }
  }

  lemma FeedAdmits(s: State, raw: seq<byte>, c: Chunk, now: Instant)
    requires ParseChunk(raw) == Some(c) && c.total <= s.cfg.maxFragments
    requires Gc(s, now) == s && c.fid !in s.evicted && ResetMismatch(s, c) == s
    ensures Feed(s, raw, now) == Admit(s, c, now)
  {
  }

  lemma AdmitIgnoresRepeat(s: State, c: Chunk, now: Instant)
    requires c.fid in s.buffers && c.index in s.buffers[c.fid].parts
    ensures Admit(s, c, now) == (s, None)
  {
  }

  lemma AdmitReturnsSingle(s: State, c: Chunk, now: Instant)
    requires c.fid !in s.buffers && c.total == 1
    ensures Admit(s, c, now) == (s, Some(c.data))
  {
  }

  lemma AdmitStores(s: State, c: Chunk, now: Instant)
    requires c.fid in s.buffers ==> c.index !in s.buffers[c.fid].parts
    requires c.total > 1 && |c.data| <= s.cfg.maxChunkPayload
    requires s.cfg.maxBytes.Some? && 0 <= s.bytes && s.bytes + |c.data| <= s.cfg.maxBytes.value
    ensures Admit(s, c, now) == Store(s, c, now)
  {
    hide Store;
  }

  lemma HoldingTotals(s: State, payload: Payload, size: nat, fid: FragmentId, held: set<nat>, since: Instant, c: Chunk)
    requires size > 0 && Holding(s, payload, size, fid, held, since)
    requires c.fid == fid && c.total == PieceCount(|payload|, size)
    ensures ResetMismatch(s, c) == s
    ensures c.fid in s.buffers <==> held != {}
    ensures c.fid in s.buffers ==> s.buffers[fid].parts.Keys == held
    ensures Inv(s) && c.fid !in s.evicted && s.bytes >= 0
    ensures s.cfg.maxFragments == WIRE_MAX_FRAGMENTS && s.cfg.maxChunkPayload == size
  {
    hide BuffersOk, MemoryOk;
  }

  /** The chunk indices held after `ix` has arrived, when completing the message empties the buffer. */
  ghost function Held(ix: seq<nat>, total: nat): set<nat>
  {
    if ix == [] then {}
    else
      var h := Held(ix[..|ix| - 1], total) + {ix[|ix| - 1]};
      if h == Below(total) then {} else h
  }

  /** Input `k` carries chunk `ix[k]` of the message, at an instant within the timeout of `since`. */
  ghost predicate Carries(inputs: seq<Input>, ix: seq<nat>, payload: Payload, size: nat, fid: FragmentId,
                          since: Instant)
    requires Fragmentable(payload, size)
  {
    && |inputs| == |ix|
    && forall k :: 0 <= k < |ix| ==>
         && ix[k] < PieceCount(|payload|, size)
         && inputs[k].raw == Fragment(payload, size, fid)[ix[k]]
         && since <= inputs[k].now <= since + DEFAULT_TIMEOUT
  }

  /** What those arrivals are answered with: the payload exactly each time the last distinct
      chunk still missing arrives, and nothing otherwise. */
  ghost function Answers(ix: seq<nat>, total: nat, payload: Payload): (a: seq<Option<Payload>>)
    ensures |a| == |ix|
  {
    if ix == [] then []
    else
      var before, last := ix[..|ix| - 1], ix[|ix| - 1];
      Answers(before, total, payload)
        + [if Held(before, total) + {last} == Below(total) then Some(payload) else None]
  }

  /** Any order, any repeats, no expiry: the message comes out on its last missing chunk, every time. */
  lemma {:induction false} Completeness(s: State, inputs: seq<Input>, ix: seq<nat>,
                                        payload: Payload, size: nat, fid: FragmentId, since: Instant)
    requires Fragmentable(payload, size) && Holding(s, payload, size, fid, {}, since)
    requires Carries(inputs, ix, payload, size, fid, since)
    ensures Holding(FeedAll(s, inputs).0, payload, size, fid, Held(ix, PieceCount(|payload|, size)), since)
    ensures FeedAll(s, inputs).1 == Answers(ix, PieceCount(|payload|, size), payload)
  {
    hide Feed, Holding, PieceCount, Fragment;
    if ix != [] {
      var n := |ix| - 1;
      var before := FeedAll(s, inputs[..n]).0;
      Completeness(s, inputs[..n], ix[..n], payload, size, fid, since);
      var held := Held(ix[..n], PieceCount(|payload|, size));
      HoldingConfig(before, payload, size, fid, held, since);
      FeedWhileHolding(before, payload, size, fid, held, since, ix[n], inputs[n].now);
    }
  }

  /** The library's own reassemblers start out able to take any message. */
  lemma FreshHolds(payload: Payload, size: nat, fid: FragmentId, since: Instant)
    requires size > 0
    ensures Holding(ForChunkSize(size), payload, size, fid, {}, since)
  {
    assert |ForChunkSize(size).buffers| == 0;
  }
}
