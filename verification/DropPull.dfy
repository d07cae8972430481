/** A whole pull against an honest sender, nothing lost: one request per missing range, and the sender's bytes at the
    end. */
module DropPull {
  import F = Fragments
  import opened BigEndian
  import opened Drop
  import opened DropTheorems

  function FeedAll(r: Receiver, bodies: seq<Payload>, hash: Payload -> Digest): Receiver
  {
    if bodies == [] then r
    else HandleChunk(FeedAll(r, bodies[..|bodies| - 1], hash), bodies[|bodies| - 1], hash)
  }

  /** The receiver after the sender has answered in full `n` of its requests, from number `from` on, as far as it has
      made that many. */
  function Served(r: Receiver, data: Payload, hash: Payload -> Digest, from: nat, n: nat): Receiver
  {
    if n == 0 then r
    else
      var p := Served(r, data, hash, from, n - 1);
      if from + n > |p.requests| then p
      else
        var w := p.requests[from + n - 1];
        FeedAll(p, ServeRange(data, w.start, w.end), hash)
  }

  ghost predicate Truthful(have: map<int, Payload>, data: Payload)
  {
    forall i: nat :: i in have && i < F.PieceCount(|data|, CHUNK_SIZE) ==> have[i] == F.Piece(data, CHUNK_SIZE, i)
  }

  // ---- One chunk

  lemma PieceFits(data: Payload, hash: Payload -> Digest, i: nat)
    requires i < F.PieceCount(|data|, CHUNK_SIZE)
    ensures Fits(OfferOf(data, hash), i, F.Piece(data, CHUNK_SIZE, i))
  {
    F.PieceBounds(|data|, CHUNK_SIZE, i);
  }

  lemma BodyRoundTrip(index: nat, data: Payload)
    requires index < U32_LIMIT
    ensures BodyIndex(ChunkBody(index, data)) == index && BodyData(ChunkBody(index, data)) == data
  {
    CapacityOfHeaderFields();
    FromToBytes(index, 4);
    var body := ChunkBody(index, data);
    assert body[..4] == ToBytes(index, 4);
  }

  // ---- One window

  /** The sender's chunks `s .. j` added to what is held. */
  ghost function Fill(have: map<int, Payload>, data: Payload, s: nat, j: nat): map<int, Payload>
    requires j <= F.PieceCount(|data|, CHUNK_SIZE)
    decreases j
  {
    if j <= s then have else Fill(have, data, s, j - 1)[(j - 1) as int := F.Piece(data, CHUNK_SIZE, j - 1)]
  }

  lemma {:induction false} FillHolds(have: map<int, Payload>, data: Payload, s: nat, j: nat)
    requires s <= j <= F.PieceCount(|data|, CHUNK_SIZE)
    ensures Fill(have, data, s, j).Keys == have.Keys + Interval(s, j)
    decreases j
  {
    hide F.PieceCount, F.Piece;
    if j > s {
      FillHolds(have, data, s, j - 1);
    }
  }

  lemma {:induction false} FillIsTruthful(have: map<int, Payload>, data: Payload, s: nat, j: nat)
    requires Truthful(have, data) && s <= j <= F.PieceCount(|data|, CHUNK_SIZE)
    ensures Truthful(Fill(have, data, s, j), data)
    decreases j
  {
    hide F.PieceCount, F.Piece;
    if j > s {
      FillIsTruthful(have, data, s, j - 1);
    }
  }

  /** Serving one more index appends one more chunk. */
  lemma {:induction false} ServeSnoc(data: Payload, s: nat, e: nat)
    requires s < e <= F.PieceCount(|data|, CHUNK_SIZE) && e <= U32_LIMIT
    ensures ServeFrom(data, s, e) == ServeFrom(data, s, e - 1) + [ChunkBody(e - 1, F.Piece(data, CHUNK_SIZE, e - 1))]
    decreases e - s
  {
    hide F.PieceCount, F.Piece, ChunkBody;
    if s + 1 < e {
      ServeSnoc(data, s + 1, e);
    }
  }

  lemma FeedSnoc(r: Receiver, bodies: seq<Payload>, body: Payload, hash: Payload -> Digest)
    ensures FeedAll(r, bodies + [body], hash) == HandleChunk(FeedAll(r, bodies, hash), body, hash)
  {
    assert (bodies + [body])[..|bodies|] == bodies;
  }

  /** A receiver waiting for the window `w`, none of which it holds. */
  ghost predicate Waiting(r: Receiver, data: Payload, hash: Payload -> Digest, w: Range)
  {
    && r.offer == Some(OfferOf(data, hash)) && r.verified.None? && r.outstanding == Some(w)
    && w.start < w.end <= Total(r) && (forall i :: w.start <= i < w.end ==> i !in r.have)
  }

  lemma TakePiece(r: Receiver, data: Payload, hash: Payload -> Digest, w: Range, j: nat)
    requires Waiting(r, data, hash, w) && w.start <= j < w.end <= U32_LIMIT
    ensures Total(r) == F.PieceCount(|data|, CHUNK_SIZE)
    ensures var before := r.(have := Fill(r.have, data, w.start, j));
            HandleChunk(before, ChunkBody(j, F.Piece(data, CHUNK_SIZE, j)), hash)
            == Advance(r.(have := Fill(r.have, data, w.start, j + 1)), hash)
  {
    hide ChunkBody, F.PieceCount, F.Piece, ChunkLen, Advance, BodyIndex, BodyData;
    BodyRoundTrip(j, F.Piece(data, CHUNK_SIZE, j));
    PieceFits(data, hash, j);
    FillHolds(r.have, data, w.start, j);
  }

  /** With the last chunk of the window still to come, nothing is asked for and nothing finishes. */
  lemma StillWaiting(r: Receiver, data: Payload, hash: Payload -> Digest, w: Range, j: nat)
    requires Waiting(r, data, hash, w) && w.start <= j < w.end && w.end <= F.PieceCount(|data|, CHUNK_SIZE)
    ensures var stored := r.(have := Fill(r.have, data, w.start, j)); Advance(stored, hash) == stored
  {
    hide F.PieceCount, Finish, RequestMissing, Fill;
    FillHolds(r.have, data, w.start, j);
    assert w.end - 1 !in Fill(r.have, data, w.start, j).Keys;
  }

  /** One more chunk of the window, after the chunks before it were just stored. */
  lemma OneMore(r: Receiver, data: Payload, hash: Payload -> Digest, w: Range, j: nat)
    requires Waiting(r, data, hash, w) && w.start <= j < w.end <= U32_LIMIT && w.end <= F.PieceCount(|data|, CHUNK_SIZE)
    requires FeedAll(r, ServeFrom(data, w.start, j), hash) == r.(have := Fill(r.have, data, w.start, j))
    ensures FeedAll(r, ServeFrom(data, w.start, j + 1), hash)
        == Advance(r.(have := Fill(r.have, data, w.start, j + 1)), hash)
  {
    hide FeedAll, ServeFrom, Fill, Advance, HandleChunk, Waiting, F.PieceCount, F.Piece, ChunkBody;
    ServeSnoc(data, w.start, j + 1);
    FeedSnoc(r, ServeFrom(data, w.start, j), ChunkBody(j, F.Piece(data, CHUNK_SIZE, j)), hash);
    TakePiece(r, data, hash, w, j);
  }

  /** Until its last chunk comes, a window's chunks are just stored. */
  lemma {:induction false} WindowFills(r: Receiver, data: Payload, hash: Payload -> Digest, w: Range, j: nat)
    requires Waiting(r, data, hash, w) && w.start <= j < w.end <= U32_LIMIT && w.end <= F.PieceCount(|data|, CHUNK_SIZE)
    ensures FeedAll(r, ServeFrom(data, w.start, j), hash) == r.(have := Fill(r.have, data, w.start, j))
    decreases j
  {
    hide FeedAll, ServeFrom, Fill, Advance, HandleChunk, Waiting, F.PieceCount, F.Piece, ChunkBody;
    if j == w.start {
      NothingYet(r, data, hash, j);
    } else {
      WindowFills(r, data, hash, w, j - 1);
      OneMore(r, data, hash, w, j - 1);
      StillWaiting(r, data, hash, w, j);
    }
  }

  lemma NothingYet(r: Receiver, data: Payload, hash: Payload -> Digest, s: nat)
    requires s <= F.PieceCount(|data|, CHUNK_SIZE)
    ensures FeedAll(r, ServeFrom(data, s, s), hash) == r.(have := Fill(r.have, data, s, s))
  {
  }

  /** The whole window, answered. */
  lemma WindowArrives(r: Receiver, data: Payload, hash: Payload -> Digest, w: Range)
    requires Waiting(r, data, hash, w) && w.end <= U32_LIMIT && w.end - w.start <= MAX_RANGE_CHUNKS
    ensures w.end <= F.PieceCount(|data|, CHUNK_SIZE)
    ensures FeedAll(r, ServeRange(data, w.start, w.end), hash)
        == Advance(r.(have := Fill(r.have, data, w.start, w.end)), hash)
  {
    hide FeedAll, ServeFrom, ServeRange, Fill, Advance, HandleChunk, F.PieceCount, F.Piece, ChunkBody;
    TotalOf(r, data, hash);
    AnswerInFull(data, w);
    hide Waiting, Total;
    WindowFills(r, data, hash, w, w.end - 1);
    OneMore(r, data, hash, w, w.end - 1);
  }

  /** An honest window is not clamped. */
  lemma AnswerInFull(data: Payload, w: Range)
    requires w.start < w.end <= F.PieceCount(|data|, CHUNK_SIZE) && w.end - w.start <= MAX_RANGE_CHUNKS
    ensures ServeRange(data, w.start, w.end) == ServeFrom(data, w.start, w.end)
  {
    hide F.PieceCount, ServeFrom;
  }

  lemma TotalOf(r: Receiver, data: Payload, hash: Payload -> Digest)
    requires r.offer == Some(OfferOf(data, hash))
    ensures Total(r) == F.PieceCount(|data|, CHUNK_SIZE)
  {
  }

  // ---- The whole pull

  /** Holding only the sender's chunks, with the low mark justified. */
  ghost predicate Loyal(r: Receiver, data: Payload, hash: Payload -> Digest)
  {
    && r.offer == Some(OfferOf(data, hash)) && Truthful(r.have, data)
    && r.low <= Total(r) && HoldsAll(r.have.Keys, 0, r.low)
  }

  /** `all` are the windows missing when the pull began at `b`, of which the first `k` have been answered. */
  ghost predicate Pulling(r: Receiver, b: Receiver, data: Payload, hash: Payload -> Digest, all: seq<Range>, k: nat)
  {
    && Loyal(r, data, hash) && k <= |all| && all[k..] == Ranges(r.have.Keys, 0, Total(r))
    && if k < |all| then r.verified.None? && r.outstanding == Some(all[k]) && r.requests == b.requests + all[..k + 1]
         && r.files == b.files && r.dones == b.dones
       else r.verified == Some(true) && Pulled(r, b, data, hash, all)
  }

  /** Since `b`: the windows `all` asked for, the file handed over once, and its digest reported once. */
  ghost predicate Pulled(r: Receiver, b: Receiver, data: Payload, hash: Payload -> Digest, all: seq<Range>)
  {
    r.requests == b.requests + all && r.files == b.files + [(data, true)] && r.dones == b.dones + [hash(data)]
  }

  /** What follows an OFFER, and what follows a drained window. */
  function Proceed(r: Receiver, hash: Payload -> Digest): Receiver
    requires r.offer.Some?
  {
    if Complete(r) then Finish(r, hash) else RequestMissing(r)
  }

  lemma Proceeds(r: Receiver, b: Receiver, data: Payload, hash: Payload -> Digest, all: seq<Range>, k: nat)
    requires Loyal(r, data, hash) && k <= |all| && all[k..] == Ranges(r.have.Keys, 0, Total(r))
    requires r.verified.None? && r.requests == b.requests + all[..k] && r.files == b.files && r.dones == b.dones
    ensures Pulling(Proceed(r, hash), b, data, hash, all, k)
  {
    hide Ranges, F.PieceCount, NextRange, F.Concat;
    NothingMissing(r.have.Keys, Total(r));
    if HoldsAll(r.have.Keys, 0, Total(r)) {
      EnoughHeld(r.have.Keys, Total(r));
      AssembledData(r, data, hash);
      assert all[..k] == all;
    } else {
      SearchIsHead(r.have.Keys, r.low, Total(r));
      assert (b.requests + all[..k]) + [all[k]] == b.requests + all[..k + 1];
    }
  }

  lemma AssembledData(r: Receiver, data: Payload, hash: Payload -> Digest)
    requires Loyal(r, data, hash) && HoldsAll(r.have.Keys, 0, Total(r))
    ensures Assemble(r) == data
  {
    TotalOf(r, data, hash);
    var parts := NatKeys(r.have);
    forall i: nat | i < F.PieceCount(|data|, CHUNK_SIZE)
      ensures i in parts && parts[i] == F.Piece(data, CHUNK_SIZE, i)
    {
      assert i in r.have.Keys;
    }
    F.ConcatAllPieces(parts, data, CHUNK_SIZE);
  }

  lemma FilledIsLoyal(r: Receiver, data: Payload, hash: Payload -> Digest, s: nat, e: nat)
    requires Loyal(r, data, hash) && s <= e <= F.PieceCount(|data|, CHUNK_SIZE)
    ensures Loyal(r.(have := Fill(r.have, data, s, e)), data, hash)
  {
    hide F.PieceCount, F.Piece, Fill, Truthful;
    FillIsTruthful(r.have, data, s, e);
    FillHolds(r.have, data, s, e);
  }

  lemma FirstWindow(held: set<int>, total: nat)
    requires Ranges(held, 0, total) != []
    ensures var w := Ranges(held, 0, total)[0];
            w.start < w.end <= total && w.end - w.start <= MAX_RANGE_CHUNKS && forall i :: w.start <= i < w.end ==>
                i !in held
  {
    ScanStep(held, 0, total);
  }

  lemma RequestAnswered(r: Receiver, b: Receiver, data: Payload, hash: Payload -> Digest, all: seq<Range>, k: nat)
    requires Pulling(r, b, data, hash, all, k) && k < |all| && F.PieceCount(|data|, CHUNK_SIZE) <= U32_LIMIT
    ensures |r.requests| == |b.requests| + k + 1 && r.requests[|b.requests| + k] == all[k]
    ensures Pulling(FeedAll(r, ServeRange(data, all[k].start, all[k].end), hash), b, data, hash, all, k + 1)
  {
    hide Ranges, F.PieceCount, F.Piece, ServeRange, FeedAll, Finish, RequestMissing, Fill, Truthful;
    TotalOf(r, data, hash);
    var w := all[k];
    assert w == all[k..][0];
    FirstWindow(r.have.Keys, Total(r));
    WindowArrives(r, data, hash, w);
    FilledIsLoyal(r, data, hash, w.start, w.end);
    DrainedWindow(r.have.Keys, Total(r));
    FillHolds(r.have, data, w.start, w.end);
    assert all[k..][1..] == all[k + 1..];
    var filled := r.(have := Fill(r.have, data, w.start, w.end));
    hide Total, Loyal, Pulling;
    Proceeds(filled, b, data, hash, all, k + 1);
    DrainedProceeds(filled, hash, w);
  }

  lemma DrainedProceeds(r: Receiver, hash: Payload -> Digest, w: Range)
    requires r.offer.Some? && r.outstanding == Some(w) && Interval(w.start, w.end) <= r.have.Keys
    ensures Advance(r, hash) == Proceed(r, hash)
  {
    hide Finish, RequestMissing;
    assert HoldsAll(r.have.Keys, w.start, w.end);
  }

  lemma {:induction false} PullAdvances(r: Receiver, b: Receiver, data: Payload, hash: Payload -> Digest,
                                        all: seq<Range>, n: nat)
    requires Pulling(r, b, data, hash, all, 0) && F.PieceCount(|data|, CHUNK_SIZE) <= U32_LIMIT
    ensures Pulling(Served(r, data, hash, |b.requests|, n), b, data, hash, all, if n <= |all| then n else |all|)
  {
    hide Pulling, FeedAll, F.PieceCount;
    if n > 0 {
      PullAdvances(r, b, data, hash, all, n - 1);
      var p := Served(r, data, hash, |b.requests|, n - 1);
      if n - 1 < |all| {
        RequestAnswered(p, b, data, hash, all, n - 1);
      } else {
        AskedForAll(p, b, data, hash, all);
      }
    }
  }

  lemma AskedForAll(r: Receiver, b: Receiver, data: Payload, hash: Payload -> Digest, all: seq<Range>)
    requires Pulling(r, b, data, hash, all, |all|)
    ensures |r.requests| == |b.requests| + |all|
  {
    hide Ranges, Loyal;
  }

  /** A receiver that holds only chunks of the file on offer and has no verdict, and whose requests are answered in full
      from here on, asks for exactly the ranges it misses, once each and in order, and then hands over and verifies the
      sender's bytes; after that it asks for nothing more. */
  lemma PullCompletes(r: Receiver, data: Payload, hash: Payload -> Digest, n: nat)
    requires Loyal(r, data, hash) && r.verified.None? && F.PieceCount(|data|, CHUNK_SIZE) <= U32_LIMIT
    requires n >= |Ranges(r.have.Keys, 0, F.PieceCount(|data|, CHUNK_SIZE))|
    ensures var end := Served(Proceed(r, hash), data, hash, |r.requests|, n);
            && end.verified == Some(true)
            && Pulled(end, r, data, hash, Ranges(r.have.Keys, 0, F.PieceCount(|data|, CHUNK_SIZE)))
  {
    TotalOf(r, data, hash);
    var all := Ranges(r.have.Keys, 0, Total(r));
    hide Ranges, F.PieceCount, Served, Proceed;
    assert all[0..] == all && r.requests + all[..0] == r.requests;
    Proceeds(r, r, data, hash, all, 0);
    PullAdvances(Proceed(r, hash), r, data, hash, all, n);
  }

  /** What an OFFER of `data` starts, at a receiver that has no verdict on that very file. */
  lemma OfferStarts(r: Receiver, data: Payload, hash: Payload -> Digest)
    requires r.verified.None? || OtherFile(r, OfferOf(data, hash))
    requires Truthful(TakeOffer(r, OfferOf(data, hash)).have, data)
    ensures var next := TakeOffer(r, OfferOf(data, hash));
            && Loyal(next, data, hash) && next.verified.None? && next.requests == r.requests && next.files == r.files
            && next.dones == r.dones && HandleOffer(r, OfferOf(data, hash), hash) == Proceed(next, hash)
  {
    hide F.PieceCount, Finish, RequestMissing;
  }

  /** Whatever truthful chunks it resumes from, a new receiver that is offered a file pulls exactly what it misses. */
  lemma LosslessPull(resumed: map<int, Payload>, data: Payload, hash: Payload -> Digest, n: nat)
    requires F.PieceCount(|data|, CHUNK_SIZE) <= U32_LIMIT
    requires Truthful(Relevant(resumed, OfferOf(data, hash)), data)
    requires n >= |Ranges(Relevant(resumed, OfferOf(data, hash)).Keys, 0, F.PieceCount(|data|, CHUNK_SIZE))|
    ensures var o := OfferOf(data, hash);
            var r := Served(HandleOffer(NewReceiver(resumed), o, hash), data, hash, 0, n);
            && r.requests == Ranges(Relevant(resumed, o).Keys, 0, F.PieceCount(|data|, CHUNK_SIZE))
            && r.verified == Some(true) && r.files == [(data, true)] && r.dones == [hash(data)]
  {
    hide Ranges, F.PieceCount, Served, HandleOffer, Proceed;
    OfferStarts(NewReceiver(resumed), data, hash);
    PullCompletes(TakeOffer(NewReceiver(resumed), OfferOf(data, hash)), data, hash, n);
  }

  /** Whatever a receiver has been through, resumed from and finished before, when it is offered another file it starts
      over: it pulls that file from its first chunk to its last, and hands over exactly its bytes. */
  lemma AnotherFileIsPulled(resumed: map<int, Payload>, events: seq<Event>, data: Payload, hash: Payload -> Digest,
                            n: nat)
    requires F.PieceCount(|data|, CHUNK_SIZE) <= U32_LIMIT
    requires OtherFile(Run(resumed, events, hash), OfferOf(data, hash))
    requires n >= |Ranges({}, 0, F.PieceCount(|data|, CHUNK_SIZE))|
    ensures var r := Run(resumed, events, hash);
            var end := Served(HandleOffer(r, OfferOf(data, hash), hash), data, hash, |r.requests|, n);
            && end.verified == Some(true)
            && Pulled(end, r, data, hash, Ranges({}, 0, F.PieceCount(|data|, CHUNK_SIZE)))
  {
    var r := Run(resumed, events, hash);
    var next := TakeOffer(r, OfferOf(data, hash));
    assert next.have == map[] && next.have.Keys == {};
    hide Ranges, F.PieceCount, Served, HandleOffer, Proceed, Run, TakeOffer;
    OfferStarts(r, data, hash);
    PullCompletes(next, data, hash, n);
  }

  // ---- Loss

  /** Frames a sender of `data` sends, and timeouts: nothing else, but in any order, repeated and lost at will. */
  ghost predicate Honest(e: Event, data: Payload, hash: Payload -> Digest)
  {
    match e
    case OfferIn(o) => o == OfferOf(data, hash)
    case ChunkIn(body) =>
      exists i: nat :: i < F.PieceCount(|data|, CHUNK_SIZE) && i < U32_LIMIT
        && body == ChunkBody(i, F.Piece(data, CHUNK_SIZE, i))
    case TimedOut => true
  }

  ghost predicate HonestRun(events: seq<Event>, data: Payload, hash: Payload -> Digest)
  {
    forall i :: 0 <= i < |events| ==> Honest(events[i], data, hash)
  }

  /** Only this file's chunks, only this file's bytes, and only good verdicts. */
  ghost predicate Faithful(r: Receiver, data: Payload, hash: Payload -> Digest)
  {
    && (r.offer.Some? ==> r.offer.value == OfferOf(data, hash) && Truthful(r.have, data))
    && (r.verified.Some? ==> r.verified.value)
    && (forall f :: f in r.files ==> f == (data, true)) && (forall d :: d in r.dones ==> d == hash(data))
  }

  lemma FinishIsFaithful(r: Receiver, data: Payload, hash: Payload -> Digest)
    requires SearchOk(r) && Faithful(r, data, hash) && r.offer.Some? && HoldsAll(r.have.Keys, 0, Total(r))
    ensures Faithful(Finish(r, hash), data, hash) && Finish(r, hash).offer == r.offer
  {
    hide F.PieceCount, Truthful;
    AssembledData(r, data, hash);
    hide Assemble;
  }

  lemma TakePieceIsFaithful(r: Receiver, data: Payload, hash: Payload -> Digest, i: nat)
    requires Faithful(r, data, hash) && r.offer.Some? && i < F.PieceCount(|data|, CHUNK_SIZE)
    ensures Faithful(TakeChunk(r, i, F.Piece(data, CHUNK_SIZE, i)), data, hash)
  {
    hide F.PieceCount, F.Piece, ChunkLen;
  }

  lemma HonestStep(r: Receiver, e: Event, data: Payload, hash: Payload -> Digest)
    requires SearchOk(r) && Faithful(r, data, hash) && Honest(e, data, hash)
    requires r.offer.None? ==> Truthful(Relevant(r.have, OfferOf(data, hash)), data)
    ensures Faithful(Apply(r, e, hash), data, hash)
    ensures Apply(r, e, hash).offer.None? ==> r.offer.None? && Apply(r, e, hash).have == r.have
  {
    hide F.PieceCount, F.Piece, Finish, ChunkBody, BodyIndex, BodyData, NextRange, SearchOk;
    match e
    case OfferIn(o) =>
      if ValidOffer(o) {
        var next := TakeOffer(r, o);
        assert Truthful(next.have, data) && Faithful(next, data, hash);
        OfferSearchOk(r, o);
        if Complete(next) { FinishIsFaithful(next, data, hash); }
      }
    case ChunkIn(body) =>
      if r.offer.Some? {
        var i: nat :| i < F.PieceCount(|data|, CHUNK_SIZE) && i < U32_LIMIT
          && body == ChunkBody(i, F.Piece(data, CHUNK_SIZE, i));
        BodyRoundTrip(i, F.Piece(data, CHUNK_SIZE, i));
        TakePieceIsFaithful(r, data, hash, i);
        ChunkSearchOk(r, i, F.Piece(data, CHUNK_SIZE, i));
        var next := TakeChunk(r, i, F.Piece(data, CHUNK_SIZE, i));
        hide TakeChunk;
        if i < r.offer.value.total && Complete(next) { FinishIsFaithful(next, data, hash); }
      }
    case TimedOut =>
  }

  lemma OfferSearchOk(r: Receiver, o: Offer)
    requires SearchOk(r) && ValidOffer(o)
    ensures SearchOk(TakeOffer(r, o))
  {
  }

  lemma ChunkSearchOk(r: Receiver, i: nat, chunk: Payload)
    requires SearchOk(r) && r.offer.Some? && i < r.offer.value.total
    ensures SearchOk(TakeChunk(r, i, chunk)) && TakeChunk(r, i, chunk).offer == r.offer
  {
  }

  lemma NewIsFaithful(resumed: map<int, Payload>, data: Payload, hash: Payload -> Digest)
    ensures Faithful(NewReceiver(resumed), data, hash)
  {
  }

  /** Whatever is lost, repeated or out of order, a receiver that only hears one sender holds only that sender's chunks,
      and every file it hands over is the sender's file, verified. */
  lemma {:induction false} HonestRunsAreFaithful(resumed: map<int, Payload>, events: seq<Event>, data: Payload,
                                                 hash: Payload -> Digest)
    requires HonestRun(events, data, hash) && Truthful(Relevant(resumed, OfferOf(data, hash)), data)
    ensures Faithful(Run(resumed, events, hash), data, hash)
    ensures Run(resumed, events, hash).offer.None? ==> Run(resumed, events, hash).have == resumed
  {
    hide Apply, Faithful, SearchOk, VerdictOk, F.PieceCount, Truthful;
    if events == [] {
      NewIsFaithful(resumed, data, hash);
    } else {
      var before := events[..|events| - 1];
      HonestRunsAreFaithful(resumed, before, data, hash);
      ReachableOk(resumed, before, hash);
      HonestStep(Run(resumed, before, hash), events[|events| - 1], data, hash);
    }
  }

  /** However much was lost on the way: once the OFFER has come through, one timeout and full answers from then on
      finish the pull, asking once for each range still missing. */
  lemma LossIsRepaired(resumed: map<int, Payload>, events: seq<Event>, data: Payload, hash: Payload -> Digest, n: nat)
    requires HonestRun(events, data, hash) && Truthful(Relevant(resumed, OfferOf(data, hash)), data)
    requires F.PieceCount(|data|, CHUNK_SIZE) <= U32_LIMIT
    requires var r := Run(resumed, events, hash);
             r.offer.Some? && r.verified.None? && n >= |Ranges(r.have.Keys, 0, F.PieceCount(|data|, CHUNK_SIZE))|
    ensures var r := Run(resumed, events, hash);
            var end := Served(Apply(r, TimedOut, hash), data, hash, |r.requests|, n);
            && end.verified == Some(true)
            && Pulled(end, r, data, hash, Ranges(r.have.Keys, 0, F.PieceCount(|data|, CHUNK_SIZE)))
  {
    var r := Run(resumed, events, hash);
    HonestRunsAreFaithful(resumed, events, data, hash);
    ReachableOk(resumed, events, hash);
    CompleteMeansVerdict(resumed, events, hash);
    hide Run, Ranges, F.PieceCount, Served, RequestMissing, Truthful, HaveOk, ValidOffer;
    PullCompletes(r, data, hash, n);
  }
}
