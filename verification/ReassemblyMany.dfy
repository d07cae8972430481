/** Completeness for many messages at once: chunks interleaved in any order with any repeats, within the limits. */
module ReassemblyMany {
  import opened BigEndian
  import opened Fragments
  import opened Sums
  import opened Reassembly
  import opened ReassemblyInvariant
  import opened ReassemblyTheorems

  // ---- What is held of a message weighs no more than the message

  ghost function PayloadBytes(o: Original): nat { |o.payload| }

  /** All slices of a payload, by index, up to `n`. */
  ghost function Slices(payload: Payload, size: nat, n: nat): map<nat, Payload>
    requires size > 0 && n <= PieceCount(|payload|, size)
  {
    if n == 0 then map[] else Slices(payload, size, n - 1)[n - 1 := Piece(payload, size, n - 1)]
  }

  lemma {:induction false} SlicesAre(payload: Payload, size: nat, n: nat)
    requires size > 0 && n <= PieceCount(|payload|, size)
    ensures Slices(payload, size, n).Keys == Below(n)
    ensures forall i :: i in Slices(payload, size, n) ==> Slices(payload, size, n)[i] == Piece(payload, size, i)
  {
    hide PieceCount, Piece;
    if n > 0 {
      SlicesAre(payload, size, n - 1);
    }
  }

  lemma {:induction false} SlicesWeigh(payload: Payload, size: nat, n: nat)
    requires size > 0 && n <= PieceCount(|payload|, size)
    ensures Sum(Slices(payload, size, n), LengthOf) == Cut(|payload|, size, n)
  {
    hide PieceCount, Cut, Piece, Sum;
    if n == 0 {
      CutAtZero(|payload|, size);
      NoSlices();
    } else {
      SlicesWeigh(payload, size, n - 1);
      SlicesAre(payload, size, n - 1);
      SliceLength(payload, size, n - 1);
      AddSlice(Slices(payload, size, n - 1), n - 1, Piece(payload, size, n - 1));
    }
  }

  lemma AddSlice(m: map<nat, Payload>, k: nat, p: Payload)
    requires k !in m
    ensures Sum(m[k := p], LengthOf) == Sum(m, LengthOf) + |p|
  {
    SumInsert(m, LengthOf, k, p);
  }

  lemma NoSlices()
    ensures Sum<nat, Payload>(map[], LengthOf) == 0
  {
  }

  lemma SliceLength(payload: Payload, size: nat, i: nat)
    requires size > 0 && i < PieceCount(|payload|, size)
    ensures |Piece(payload, size, i)| == Cut(|payload|, size, i + 1) - Cut(|payload|, size, i)
  {
    hide PieceCount, Cut, Piece;
    PieceIsSlice(payload, size, i);
  }

  lemma PartialWeighs(p: Partial, o: Original)
    requires o.size > 0 && FaithfulPartial(p, o)
    ensures Sum(p.parts, LengthOf) <= |o.payload|
  {
    hide PieceCount, Piece, Cut, Sum;
    var all := Slices(o.payload, o.size, p.total);
    SlicesAre(o.payload, o.size, p.total);
    SumSplit(all, LengthOf, p.parts.Keys);
    assert Restrict(all, p.parts.Keys) == p.parts;
    SlicesWeigh(o.payload, o.size, p.total);
    CutWithin(|o.payload|, o.size, p.total);
  }

  lemma CutWithin(n: nat, size: nat, i: nat)
    ensures Cut(n, size, i) <= n
  {
  }

  /** Lighter entries under fewer keys make a lighter total. */
  lemma {:induction false} SumCompare<K, V, W>(m: map<K, V>, b: map<K, W>, light: V -> nat, heavy: W -> nat)
    requires m.Keys <= b.Keys && forall k :: k in m ==> light(m[k]) <= heavy(b[k])
    ensures Sum(m, light) <= Sum(b, heavy)
    decreases m.Keys
  {
    if m.Keys != {} {
      var k :| k in m.Keys;
      SumRemove(m, light, k);
      SumRemove(b, heavy, k);
      SumCompare(m - {k}, b - {k}, light, heavy);
    }
  }

  // ---- The limits, and the state they keep

  /** The configuration takes every message of the book, and all of them together. */
  ghost predicate Roomy(cfg: Config, book: Book)
  {
    && |book| <= cfg.limit
    && (cfg.maxBytes.Some? ==> Sum(book, PayloadBytes) <= cfg.maxBytes.value)
    && (forall f :: f in book ==>
          && Fragmentable(book[f].payload, book[f].size) && book[f].size <= cfg.maxChunkPayload
          && PieceCount(|book[f].payload|, book[f].size) <= cfg.maxFragments)
  }

  /** Of each message exactly the chunks `held[f]` are buffered, opened no earlier than `since`; nothing was evicted. */
  ghost predicate Shelved(s: State, book: Book, held: map<FragmentId, set<nat>>, since: Instant)
  {
    && Inv(s) && s.evicted == map[] && s.evictedOrder == [] && Faithful(s.buffers, book) && held.Keys == book.Keys
    && (forall f :: f in book ==> (f in s.buffers <==> held[f] != {}))
    && (forall f :: f in s.buffers && f in held ==>
          s.buffers[f].parts.Keys == held[f] && s.buffers[f].firstSeen >= since)
  }

  ghost function ChunkOf(book: Book, f: FragmentId, i: nat): Chunk
    requires f in book && i < PieceCount(|book[f].payload|, book[f].size)
  {
    Chunk(f, i, PieceCount(|book[f].payload|, book[f].size), Piece(book[f].payload, book[f].size, i))
  }

  /** What is held of `f` once chunk `i` of it has come: nothing, if that was the last one missing. */
  ghost function After(held: set<nat>, i: nat, total: nat): set<nat>
  {
    if held + {i} == Below(total) then {} else held + {i}
  }

  lemma GcKeepsShelf(s: State, book: Book, held: map<FragmentId, set<nat>>, since: Instant, now: Instant)
    requires Shelved(s, book, held, since) && now <= since + s.cfg.timeout
    ensures Gc(s, now) == s
  {
    hide Inv, FaithfulPartial;
    assert ForgetExpired(s, now) == s;
    assert StaleIds(s, now) == {};
    assert Restrict(s.buffers, {}).Keys == {};
    assert s.buffers - {} == s.buffers;
  }

  /** However much is held, one more chunk still fits the budget. */
  lemma BudgetHolds(s: State, book: Book, held: map<FragmentId, set<nat>>, since: Instant, f: FragmentId, i: nat,
                    now: Instant)
    requires Shelved(s, book, held, since) && Roomy(s.cfg, book) && f in book
    requires i < PieceCount(|book[f].payload|, book[f].size) && i !in held[f]
    ensures s.cfg.maxBytes.Some? ==> s.bytes + |ChunkOf(book, f, i).data| <= s.cfg.maxBytes.value
  {
    hide PieceCount, Piece, Sum, MemoryOk;
    var c := ChunkOf(book, f, i);
    var g := Grown(Landing(s, c, now), c);
    EmptyIsFaithful(c, now, s.nextOrder, book[f]);
    GrownStaysFaithful(Landing(s, c, now), c, book[f]);
    NewPartSize(s, book, f, c, now);
    FaithfulUpdate(s.buffers, f, g, book);
    AddPartKeepsSum(s, c, now);
    var after := s.buffers[f := g];
    forall k | k in after ensures SizeOf(after[k]) <= PayloadBytes(book[k]) {
      if k != f { assert PartialOk(s.buffers[k], s.cfg, s.nextOrder); }
      PartialWeighs(after[k], book[k]);
    }
    SumCompare(after, book, SizeOf, PayloadBytes);
  }

  lemma NewPartSize(s: State, book: Book, f: FragmentId, c: Chunk, now: Instant)
    requires Inv(s) && c.fid == f && (f in s.buffers ==> c.index !in s.buffers[f].parts)
    ensures var g := Grown(Landing(s, c, now), c); g.size == Sum(g.parts, LengthOf)
  {
    if f in s.buffers { assert PartialOk(s.buffers[f], s.cfg, s.nextOrder); }
    SumInsert(Landing(s, c, now).parts, LengthOf, c.index, c.data);
  }

  /** A message that has nothing buffered finds a place. */
  lemma PlaceHolds(s: State, book: Book, held: map<FragmentId, set<nat>>, since: Instant, c: Chunk, now: Instant)
    requires Shelved(s, book, held, since) && |book| <= s.cfg.limit && c.fid in book
    ensures RoomForOne(s, c, now) == s
  {
    hide Inv, FaithfulPartial;
    if c.fid !in s.buffers {
      SubsetCard(s.buffers.Keys, book.Keys - {c.fid});
      assert |book.Keys - {c.fid}| == |book| - 1;
    }
  }

  // ---- One chunk

  lemma AdmitStoresAny(s: State, c: Chunk, now: Instant)
    requires c.fid in s.buffers ==> c.index !in s.buffers[c.fid].parts
    requires c.total > 1 && |c.data| <= s.cfg.maxChunkPayload && 0 <= s.bytes
    requires s.cfg.maxBytes.Some? ==> s.bytes + |c.data| <= s.cfg.maxBytes.value
    ensures Admit(s, c, now) == Store(s, c, now)
  {
    hide Store;
  }

  lemma ShelfLands(s: State, book: Book, held: map<FragmentId, set<nat>>, since: Instant, f: FragmentId, i: nat,
                   now: Instant)
    requires Shelved(s, book, held, since) && f in book && i < PieceCount(|book[f].payload|, book[f].size)
        && since <= now
    ensures var g := Grown(Landing(s, ChunkOf(book, f, i), now), ChunkOf(book, f, i));
            && g.parts.Keys == held[f] + {i} && g.firstSeen >= since && FaithfulPartial(g, book[f])
            && (g.parts.Keys == Below(g.total) ==> Concat(g.parts, g.total) == book[f].payload)
  {
    hide Inv, PieceCount, Piece;
    var c := ChunkOf(book, f, i);
    EmptyIsFaithful(c, now, s.nextOrder, book[f]);
    GrownStaysFaithful(Landing(s, c, now), c, book[f]);
  }

  lemma StoreOnShelf(s: State, book: Book, held: map<FragmentId, set<nat>>, since: Instant, f: FragmentId, i: nat,
                     now: Instant)
    requires Shelved(s, book, held, since) && Roomy(s.cfg, book) && f in book && since <= now
    requires 1 < PieceCount(|book[f].payload|, book[f].size) && i < PieceCount(|book[f].payload|, book[f].size)
        && i !in held[f]
    ensures var c := ChunkOf(book, f, i);
            var (t, out) := Store(s, c, now);
            && Shelved(t, book, held[f := After(held[f], i, c.total)], since) && t.cfg == s.cfg
            && out == (if held[f] + {i} == Below(c.total) then Some(book[f].payload) else None)
  {
    var c := ChunkOf(book, f, i);
    ShelfStorable(s, book, held, since, f, i, now);
    hide Inv, PieceCount, Piece, Sum, Store, FaithfulPartial, Storable, Roomy, Landing, Grown, Shelved, RoomForOne;
    StoreKeepsInv(s, c, now);
    StoreOpensOrGrows(s, c, now);
    ShelfLands(s, book, held, since, f, i, now);
    var g := Grown(Landing(s, c, now), c);
    FaithfulTotal(g, book[f]);
    var t := Store(s, c, now).0;
    if held[f] + {i} == Below(c.total) {
      ShelfShrinks(s, t, book, held, since, f);
    } else {
      ShelfGrows(s, t, book, held, since, f, g);
    }
  }

  lemma ShelfShrinks(s: State, t: State, book: Book, held: map<FragmentId, set<nat>>, since: Instant, f: FragmentId)
    requires Shelved(s, book, held, since) && Inv(t) && f in book
    requires t.evicted == s.evicted && t.evictedOrder == s.evictedOrder && t.buffers == s.buffers - {f}
    ensures Shelved(t, book, held[f := {}], since)
  {
    hide Inv, FaithfulPartial;
  }

  lemma ShelfGrows(s: State, t: State, book: Book, held: map<FragmentId, set<nat>>, since: Instant, f: FragmentId,
                   g: Partial)
    requires Shelved(s, book, held, since) && Inv(t) && f in book
    requires t.evicted == s.evicted && t.evictedOrder == s.evictedOrder && t.buffers == s.buffers[f := g]
    requires g.firstSeen >= since && g.parts.Keys != {} && FaithfulPartial(g, book[f])
    ensures Shelved(t, book, held[f := g.parts.Keys], since)
  {
    hide Inv, FaithfulPartial;
    FaithfulUpdate(s.buffers, f, g, book);
  }

  lemma FaithfulTotal(p: Partial, o: Original)
    requires o.size > 0 && FaithfulPartial(p, o)
    ensures p.total == PieceCount(|o.payload|, o.size)
  {
  }

  lemma ShelfStorable(s: State, book: Book, held: map<FragmentId, set<nat>>, since: Instant, f: FragmentId, i: nat,
                      now: Instant)
    requires Shelved(s, book, held, since) && Roomy(s.cfg, book) && f in book
    requires 1 < PieceCount(|book[f].payload|, book[f].size) && i < PieceCount(|book[f].payload|, book[f].size)
        && i !in held[f]
    ensures Inv(s) && Storable(s, ChunkOf(book, f, i)) && RoomForOne(s, ChunkOf(book, f, i), now) == s
  {
    hide PieceCount, Piece, Sum, Inv;
    BudgetHolds(s, book, held, since, f, i, now);
    PlaceHolds(s, book, held, since, ChunkOf(book, f, i), now);
  }

  /** One chunk of one of the messages: a repeat changes nothing, the last missing one completes its message, any
      other is kept; the other messages are left alone. */
  lemma FeedOnShelf(s: State, book: Book, held: map<FragmentId, set<nat>>, since: Instant, f: FragmentId, i: nat,
                    now: Instant)
    requires Shelved(s, book, held, since) && Roomy(s.cfg, book) && f in book
    requires i < PieceCount(|book[f].payload|, book[f].size) && since <= now <= since + s.cfg.timeout
    ensures var total := PieceCount(|book[f].payload|, book[f].size);
            Fragmentable(book[f].payload, book[f].size) &&
            var (t, out) := Feed(s, Fragment(book[f].payload, book[f].size, f)[i], now);
            && Shelved(t, book, held[f := After(held[f], i, total)], since) && t.cfg == s.cfg
            && out == (if held[f] + {i} == Below(total) then Some(book[f].payload) else None)
  {
    var o, c := book[f], ChunkOf(book, f, i);
    hide Inv, Shelved, Roomy, PieceCount, Piece, Store, Feed, Admit, Fragment, Fragmentable;
    ShelfAdmits(s, book, held, since, c, now);
    ParseFragment(o.payload, o.size, f, i);
    GcKeepsShelf(s, book, held, since, now);
    FeedAdmits(s, Fragment(o.payload, o.size, f)[i], c, now);
    AdmitOnShelf(s, book, held, since, f, i, now);
  }

  lemma AdmitOnShelf(s: State, book: Book, held: map<FragmentId, set<nat>>, since: Instant, f: FragmentId, i: nat,
                     now: Instant)
    requires Shelved(s, book, held, since) && Roomy(s.cfg, book) && f in book
    requires i < PieceCount(|book[f].payload|, book[f].size) && since <= now
    ensures var c := ChunkOf(book, f, i);
            var (t, out) := Admit(s, c, now);
            && Shelved(t, book, held[f := After(held[f], i, c.total)], since) && t.cfg == s.cfg
            && out == (if held[f] + {i} == Below(c.total) then Some(book[f].payload) else None)
  {
    hide Inv, Shelved, Roomy, PieceCount, Piece, Store, Admit, Fragmentable;
    var c := ChunkOf(book, f, i);
    assert held.Keys == book.Keys by { ShelfKeys(s, book, held, since); }
    ShelfAdmits(s, book, held, since, c, now);
    HeldIsPartial(s, book, held, since, f);
    if i in held[f] {
      AdmitIgnoresRepeat(s, c, now);
      RepeatIsNothing(held, f, i, c.total);
    } else if c.total == 1 {
      OnlyPiece(book[f]);
      AdmitReturnsSingle(s, c, now);
      SingleIsNothing(held, f, i);
    } else {
      BudgetHolds(s, book, held, since, f, i, now);
      AdmitStoresAny(s, c, now);
      StoreOnShelf(s, book, held, since, f, i, now);
    }
  }

  lemma ShelfKeys(s: State, book: Book, held: map<FragmentId, set<nat>>, since: Instant)
    requires Shelved(s, book, held, since)
    ensures held.Keys == book.Keys
  {
    hide Inv, Faithful;
  }

  lemma RepeatIsNothing(held: map<FragmentId, set<nat>>, f: FragmentId, i: nat, total: nat)
    requires f in held && i in held[f] && |held[f]| < total
    ensures held[f] + {i} != Below(total) && held[f := After(held[f], i, total)] == held
  {
    BelowCard(total);
    assert held[f] + {i} == held[f];
  }

  lemma SingleIsNothing(held: map<FragmentId, set<nat>>, f: FragmentId, i: nat)
    requires f in held && |held[f]| < 1 && i < 1
    ensures held[f] + {i} == Below(1) && held[f := After(held[f], i, 1)] == held
  {
    assert held[f] == {};
  }

  lemma ShelfAdmits(s: State, book: Book, held: map<FragmentId, set<nat>>, since: Instant, c: Chunk, now: Instant)
    requires Shelved(s, book, held, since) && Roomy(s.cfg, book)
    requires c.fid in book && IsPieceOf(c, book[c.fid])
    ensures c.total <= s.cfg.maxFragments && c.fid !in s.evicted && ResetMismatch(s, c) == s && 0 <= s.bytes
    ensures |c.data| <= s.cfg.maxChunkPayload && (c.fid in s.buffers <==> held[c.fid] != {})
    ensures c.fid in s.buffers ==> s.buffers[c.fid].parts.Keys == held[c.fid]
    ensures Fragmentable(book[c.fid].payload, book[c.fid].size)
  {
    hide PieceCount, BuffersOk, MemoryOk, Sum;
    HonestNeverResets(s, c, book);
  }

  lemma HeldIsPartial(s: State, book: Book, held: map<FragmentId, set<nat>>, since: Instant, f: FragmentId)
    requires Shelved(s, book, held, since) && f in book
    ensures |held[f]| < PieceCount(|book[f].payload|, book[f].size)
  {
    if held[f] != {} {
      assert PartialOk(s.buffers[f], s.cfg, s.nextOrder);
    }
  }

  // ---- Any interleaving

  /** Which chunks of `f` came, in order. */
  ghost function Select(arrivals: seq<(FragmentId, nat)>, f: FragmentId): seq<nat>
  {
    if arrivals == [] then []
    else
      var before, last := Select(arrivals[..|arrivals| - 1], f), arrivals[|arrivals| - 1];
      if last.0 == f then before + [last.1] else before
  }

  ghost function Total(o: Original): nat
    requires o.size > 0
  {
    PieceCount(|o.payload|, o.size)
  }

  /** What is held of every message after these arrivals: each as if it had been alone. */
  ghost function HeldAll(arrivals: seq<(FragmentId, nat)>, book: Book): map<FragmentId, set<nat>>
  {
    map f | f in book :: Held(Select(arrivals, f), Total(book[f]))
  }

  lemma HeldAllSnoc(arrivals: seq<(FragmentId, nat)>, f: FragmentId, i: nat, book: Book)
    requires f in book
    ensures var before := HeldAll(arrivals, book);
            HeldAll(arrivals + [(f, i)], book) == before[f := After(before[f], i, Total(book[f]))]
  {
    hide PieceCount;
    var more := arrivals + [(f, i)];
    assert more[..|arrivals|] == arrivals;
    var ix := Select(arrivals, f);
    assert (ix + [i])[..|ix|] == ix;
    assert Held(ix + [i], Total(book[f])) == After(Held(ix, Total(book[f])), i, Total(book[f]));
  }

  /** Input `k` carries chunk `arrivals[k].1` of message `arrivals[k].0`, within the timeout of `since`. */
  ghost predicate CarriesAll(inputs: seq<Input>, arrivals: seq<(FragmentId, nat)>, book: Book, cfg: Config,
                             since: Instant)
  {
    && |inputs| == |arrivals|
    && forall k :: 0 <= k < |inputs| ==> CarriesOne(inputs[k], arrivals[k].0, arrivals[k].1, book, cfg, since)
  }

  ghost predicate CarriesOne(input: Input, f: FragmentId, i: nat, book: Book, cfg: Config, since: Instant)
  {
    && f in book && Fragmentable(book[f].payload, book[f].size) && i < Total(book[f])
    && input.raw == Fragment(book[f].payload, book[f].size, f)[i]
    && since <= input.now <= since + cfg.timeout
  }

  /** The answer to the last of some arrivals: its message, exactly when it was the last chunk of it still missing. */
  ghost function Answer(before: seq<(FragmentId, nat)>, f: FragmentId, i: nat, book: Book): Option<Payload>
    requires f in book
  {
    if Held(Select(before, f), Total(book[f])) + {i} == Below(Total(book[f])) then Some(book[f].payload) else None
  }

  /** The answers to all of some arrivals. */
  ghost function AnswersTo(arrivals: seq<(FragmentId, nat)>, book: Book): (a: seq<Option<Payload>>)
    requires forall k :: 0 <= k < |arrivals| ==> arrivals[k].0 in book
    ensures |a| == |arrivals|
    ensures forall k :: 0 <= k < |arrivals| ==> a[k] == Answer(arrivals[..k], arrivals[k].0, arrivals[k].1, book)
  {
    seq(|arrivals|, k requires 0 <= k < |arrivals| => Answer(arrivals[..k], arrivals[k].0, arrivals[k].1, book))
  }

  lemma AnswersSnoc(arrivals: seq<(FragmentId, nat)>, f: FragmentId, i: nat, book: Book)
    requires f in book && forall k :: 0 <= k < |arrivals| ==> arrivals[k].0 in book
    ensures AnswersTo(arrivals + [(f, i)], book) == AnswersTo(arrivals, book) + [Answer(arrivals, f, i, book)]
  {
    hide Answer;
    var more := arrivals + [(f, i)];
    assert more[..|arrivals|] == arrivals;
    forall k | 0 <= k < |arrivals| ensures AnswersTo(more, book)[k] == AnswersTo(arrivals, book)[k] {
      assert more[..k] == arrivals[..k];
    }
  }

  /** Any messages that together are within the count limit and the byte budget, their chunks interleaved in any
      order with any repeats and no expiry: each message comes out exactly on each last chunk of it still missing,
      as if it had been alone, and nothing else comes out. */
  lemma {:induction false} ManyComplete(cfg: Config, book: Book, inputs: seq<Input>,
                                        arrivals: seq<(FragmentId, nat)>, since: Instant)
    requires ValidConfig(cfg) && Roomy(cfg, book) && CarriesAll(inputs, arrivals, book, cfg, since)
    ensures Shelved(FeedAll(Fresh(cfg), inputs).0, book, HeldAll(arrivals, book), since)
    ensures FeedAll(Fresh(cfg), inputs).0.cfg == cfg
    ensures forall k :: 0 <= k < |arrivals| ==> arrivals[k].0 in book
    ensures FeedAll(Fresh(cfg), inputs).1 == AnswersTo(arrivals, book)
  {
    hide Roomy, Shelved, Feed, HeldAll, Answer, CarriesOne, Fresh, AnswersTo, ValidConfig;
    if inputs == [] {
      NothingShelved(cfg, book, arrivals, since);
    } else {
      var n := |inputs| - 1;
      var (f, i) := arrivals[n];
      ManyComplete(cfg, book, inputs[..n], arrivals[..n], since);
      LastArrival(FeedAll(Fresh(cfg), inputs[..n]).0, book, arrivals[..n], since, inputs[n], f, i);
      AnswersSnoc(arrivals[..n], f, i, book);
      assert arrivals == arrivals[..n] + [(f, i)];
    }
  }

  lemma NothingShelved(cfg: Config, book: Book, arrivals: seq<(FragmentId, nat)>, since: Instant)
    requires ValidConfig(cfg) && arrivals == []
    ensures Shelved(FeedAll(Fresh(cfg), []).0, book, HeldAll(arrivals, book), since)
        && FeedAll(Fresh(cfg), []).0.cfg == cfg
    ensures FeedAll(Fresh(cfg), []).1 == [] == AnswersTo(arrivals, book)
  {
    assert |Fresh(cfg).buffers| == 0;
  }

  lemma LastArrival(s: State, book: Book, before: seq<(FragmentId, nat)>, since: Instant, input: Input,
                    f: FragmentId, i: nat)
    requires Roomy(s.cfg, book) && Shelved(s, book, HeldAll(before, book), since)
        && CarriesOne(input, f, i, book, s.cfg, since)
    ensures f in book
    ensures var (t, out) := Feed(s, input.raw, input.now);
            Shelved(t, book, HeldAll(before + [(f, i)], book), since) && t.cfg == s.cfg
                && out == Answer(before, f, i, book)
  {
    hide Roomy, Shelved, Feed, Fragment, PieceCount;
    FeedOnShelf(s, book, HeldAll(before, book), since, f, i, input.now);
    HeldAllSnoc(before, f, i, book);
  }
}
