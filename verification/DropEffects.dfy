/** What each frame does to a receiver, in every run, and what the sender sends back. */
module DropEffects {
  import F = Fragments
  import opened BigEndian
  import opened Drop
  import opened DropTheorems

  // ---- Offers

  /** The offers taken are exactly those a sender of some file of that size and digest would make. */
  lemma ValidOffersAreSenders(o: Offer, data: Payload, hash: Payload -> Digest)
    requires |data| == o.size && hash(data) == o.sha256
    ensures ValidOffer(o) <==> o == OfferOf(data, hash)
  {
    hide F.PieceCount;
  }

  /** An offer that no sender would make has no effect. */
  lemma BadOfferIgnored(r: Receiver, o: Offer, hash: Payload -> Digest)
    requires o.size < 0 || o.chunkSize != CHUNK_SIZE || o.total != F.PieceCount(o.size, CHUNK_SIZE)
    ensures HandleOffer(r, o, hash) == r
  {
  }

  /** Another file on the same drop: whatever was held and decided is forgotten, and the new file's first window is
      asked for. */
  lemma OtherFileStartsOver(r: Receiver, o: Offer, hash: Payload -> Digest)
    requires ValidOffer(o) && OtherFile(r, o)
    ensures var after := HandleOffer(r, o, hash);
            var first := Range(0, if o.total <= MAX_RANGE_CHUNKS then o.total else MAX_RANGE_CHUNKS);
            && after.offer == Some(o) && after.have == map[] && after.verified.None? && after.low == 0
            && after.outstanding == Some(first) && after.requests == r.requests + [first]
            && after.files == r.files && after.dones == r.dones
  {
    hide F.PieceCount;
    var next := TakeOffer(r, o);
    assert next.have == map[] && next.have.Keys == {};
    assert SkipHeld({}, 0, Total(next)) == 0;
    WindowUnique({}, 1, Min(Total(next), MAX_RANGE_CHUNKS), Min(Total(next), MAX_RANGE_CHUNKS));
  }

  /** The same file again, in any run: nothing held is lost, and a verdict stands. What is still missing is asked for
      again, from the first gap on; when nothing is missing the file is handed over again. */
  lemma SameFileKeepsChunks(resumed: map<int, Payload>, events: seq<Event>, o: Offer, hash: Payload -> Digest)
    requires var r := Run(resumed, events, hash); r.offer.Some? && !OtherFile(r, o) && ValidOffer(o)
    ensures var r := Run(resumed, events, hash);
            var after := HandleOffer(r, o, hash);
            && after.have == r.have && after.offer == r.offer
            && if Complete(r)
               then after.verified.Some? && |after.files| == |r.files| + 1 && after.requests == r.requests
               else after.verified == r.verified && after.files == r.files
  {
    ReachableOk(resumed, events, hash);
    var r := Run(resumed, events, hash);
    hide Run, F.PieceCount, NextRange, Assemble;
    assert o == r.offer.value;
    assert Relevant(r.have, o) == r.have;
    SameHolding(r, TakeOffer(r, o));
  }

  /** The length chunk `i` of an offer must have: a full one, or what is left for the last. */
  ghost function ExactLen(o: Offer, i: int): int
  {
    if i == o.total - 1 then o.size - i * CHUNK_SIZE else CHUNK_SIZE
  }

  /** The first offer keeps exactly the resumed chunks that fit it. */
  lemma FirstOfferFilters(r: Receiver, o: Offer, hash: Payload -> Digest, i: int)
    requires r.offer.None? && ValidOffer(o)
    ensures var after := HandleOffer(r, o, hash);
            && after.offer == Some(o)
            && (i in after.have <==> i in r.have && 0 <= i < o.total && |r.have[i]| == ExactLen(o, i))
            && (i in after.have ==> after.have[i] == r.have[i])
  {
    hide F.PieceCount, NextRange, Assemble;
  }

  // ---- Chunks

  /** A chunk of the file on offer is stored exactly when it is not held yet and has its exact length; nothing else is
      ever added or changed by a frame that is not an OFFER. */
  lemma ChunkStored(r: Receiver, body: Payload, hash: Payload -> Digest)
    requires r.offer.Some?
    ensures var i, chunk, after := BodyIndex(body), BodyData(body), HandleChunk(r, body, hash);
            if i < r.offer.value.total && i !in r.have && |chunk| == ExactLen(r.offer.value, i)
            then after.have == r.have[i as int := chunk]
            else after.have == r.have
  {
    hide BodyIndex, BodyData, NextRange, Assemble;
  }

  /** Before any OFFER, and beyond the end of the file, a CHUNK has no effect. */
  lemma StrayChunkIgnored(r: Receiver, body: Payload, hash: Payload -> Digest)
    requires r.offer.None? || BodyIndex(body) >= r.offer.value.total
    ensures HandleChunk(r, body, hash) == r
  {
  }

  /** Held chunks stay as they are through any frame and any timeout, another file's OFFER apart. */
  lemma HeldChunksStay(resumed: map<int, Payload>, events: seq<Event>, e: Event, hash: Payload -> Digest, i: int)
    requires var r := Run(resumed, events, hash);
             r.offer.Some? && i in r.have && (e.OfferIn? && ValidOffer(e.offer) ==> !OtherFile(r, e.offer))
    ensures var r, after := Run(resumed, events, hash), Apply(Run(resumed, events, hash), e, hash);
            i in after.have && after.have[i] == r.have[i]
  {
    hide Run, Finish, NextRange, BodyIndex, BodyData, ValidOffer;
    match e
    case OfferIn(o) => if ValidOffer(o) { SameFileKeepsChunks(resumed, events, o, hash); }
    case ChunkIn(body) => ChunkStored(Run(resumed, events, hash), body, hash);
    case TimedOut =>
  }

  /** A timeout asks again for the first range that a full scan finds missing, if there is no verdict yet. */
  lemma TimeoutAsksAgain(resumed: map<int, Payload>, events: seq<Event>, hash: Payload -> Digest)
    requires Run(resumed, events, hash).offer.Some?
    ensures var r, after := Run(resumed, events, hash), Apply(Run(resumed, events, hash), TimedOut, hash);
            if r.verified.Some? then after == r
            else var missing := Ranges(r.have.Keys, 0, Total(r));
                 missing != [] && after.requests == r.requests + [missing[0]] && after.outstanding == Some(missing[0])
                 && after.have == r.have && after.verified.None?
  {
    SearchAgreesWithScan(resumed, events, hash);
    CompleteMeansVerdict(resumed, events, hash);
    hide Run, Ranges, NextRange, Complete;
  }

  // ---- How often a file is handed over

  ghost predicate Chimes(r: Receiver, e: Event)
  {
    match e
    case OfferIn(o) => ValidOffer(o) && Complete(TakeOffer(r, o))
    case ChunkIn(body) =>
      r.offer.Some? && BodyIndex(body) < r.offer.value.total && Complete(TakeChunk(r, BodyIndex(body), BodyData(body)))
    case TimedOut => false
  }

  /** The completion callback runs exactly at the OFFERs and in-range CHUNKs after which every chunk is held. So it runs
      again for each one that comes after the file is complete: once only, exactly if none comes. */
  lemma HandedOverExactly(r: Receiver, e: Event, hash: Payload -> Digest)
    ensures |Apply(r, e, hash).files| == |r.files| + if Chimes(r, e) then 1 else 0
    ensures |Apply(r, e, hash).dones| == |r.dones| + if Chimes(r, e) then 1 else 0
    ensures r.offer.Some? && Complete(r) && e.ChunkIn? ==> (Chimes(r, e) <==> BodyIndex(e.body) < r.offer.value.total)
  {
    hide BodyIndex, BodyData, NextRange, Assemble, ValidOffer, Relevant;
    if e.ChunkIn? && r.offer.Some? && Complete(r) && BodyIndex(e.body) < r.offer.value.total {
      assert BodyIndex(e.body) in r.have.Keys;
      assert TakeChunk(r, BodyIndex(e.body), BodyData(e.body)) == r;
    }
  }

  // ---- The sender

  /** Any range is answered with the file's own chunks at consecutive indices: from its start, up to its end, the end of
      the file, 64 chunks and the four-byte index, whichever comes first. */
  lemma RangeAnswered(data: Payload, start: int, end: int, k: nat)
    ensures var s := if start < 0 then 0 else start;
            var bodies := ServeRange(data, start, end);
            && (k < |bodies| <==>
                  s + k < end && s + k < F.PieceCount(|data|, CHUNK_SIZE) && k < MAX_RANGE_CHUNKS && s + k < U32_LIMIT)
            && (k < |bodies| ==> bodies[k] == ChunkBody(s + k, F.Piece(data, CHUNK_SIZE, s + k)))
  {
    hide F.PieceCount, F.Piece, ChunkBody;
    var s: nat := if start < 0 then 0 else start;
    var e := Min(Min(if end < 0 then 0 else end, F.PieceCount(|data|, CHUNK_SIZE)), s + MAX_RANGE_CHUNKS);
    ServedAt(data, s, e, k);
  }

  lemma {:induction false} ServedAt(data: Payload, i: nat, end: nat, k: nat)
    requires end <= F.PieceCount(|data|, CHUNK_SIZE)
    ensures var bodies := ServeFrom(data, i, end);
            && (k < |bodies| <==> i + k < end && i + k < U32_LIMIT)
            && (k < |bodies| ==> bodies[k] == ChunkBody(i + k, F.Piece(data, CHUNK_SIZE, i + k)))
    decreases k
  {
    hide F.PieceCount, F.Piece, ChunkBody;
    if i < end && i < U32_LIMIT && k > 0 {
      ServedAt(data, i + 1, end, k - 1);
    }
  }
}
