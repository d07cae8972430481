/** The incremental window search is the full scan's first answer; a lossless pull takes one request per missing
    range. */
module DropTheorems {
  import F = Fragments
  import opened BigEndian
  import opened Drop

  // ---- What the full scan means

  /** Windows in order, not touching what is held, as long as they can be. */
  ghost predicate WellSpaced(ranges: seq<Range>, held: set<int>, total: nat)
  {
    && (forall k :: 0 <= k < |ranges| ==>
          && ranges[k].start < ranges[k].end <= total && ranges[k].end - ranges[k].start <= MAX_RANGE_CHUNKS
          && (ranges[k].end == total || ranges[k].end in held || ranges[k].end - ranges[k].start == MAX_RANGE_CHUNKS))
    && (forall k, m :: 0 <= k < m < |ranges| ==> ranges[k].end <= ranges[m].start)
  }

  ghost predicate Within(ranges: seq<Range>, i: int)
  {
    exists k :: 0 <= k < |ranges| && ranges[k].start <= i < ranges[k].end
  }

  /** One step of the scan. */
  lemma ScanStep(held: set<int>, i: nat, total: nat)
    ensures var s := SkipHeld(held, i, total);
            Ranges(held, i, total) == if s >= total then []
                else [Window(held, s, total)] + Ranges(held, Window(held, s, total).end, total)
  {
  }

  /** The scan's windows hold exactly the missing indices. */
  lemma {:induction false} ScanIsExact(held: set<int>, from: nat, total: nat)
    ensures var ranges := Ranges(held, from, total);
            && WellSpaced(ranges, held, total)
            && (forall k :: 0 <= k < |ranges| ==> from <= ranges[k].start)
            && (forall i :: from <= i < total ==> (i !in held <==> Within(ranges, i)))
    decreases total - from
  {
    hide Ranges, Within, SkipHeld, WindowEnd;
    ScanStep(held, from, total);
    var s := SkipHeld(held, from, total);
    if s < total {
      var w := Window(held, s, total);
      assert WellSpaced([w], held, total);
      hide WellSpaced;
      ScanIsExact(held, w.end, total);
      var rest := Ranges(held, w.end, total);
      Prepend(w, rest, held, total);
      forall i | from <= i < total ensures i !in held <==> Within([w] + rest, i) {
        PrependWithin(w, rest, i);
        if i < w.end { BeforeRest(rest, w.end, i); }
      }
    } else {
      forall i | from <= i < total ensures !Within([], i) { BeforeRest([], total, i); }
    }
  }

  lemma Prepend(w: Range, rest: seq<Range>, held: set<int>, total: nat)
    requires WellSpaced(rest, held, total) && WellSpaced([w], held, total)
    requires forall k :: 0 <= k < |rest| ==> w.end <= rest[k].start
    ensures WellSpaced([w] + rest, held, total)
  {
  }

  lemma PrependWithin(w: Range, rest: seq<Range>, i: int)
    ensures Within([w] + rest, i) <==> w.start <= i < w.end || Within(rest, i)
  {
    var all := [w] + rest;
    if Within(rest, i) {
      var k :| 0 <= k < |rest| && rest[k].start <= i < rest[k].end;
      assert all[k + 1] == rest[k];
    }
    assert all[0] == w;
  }

  lemma BeforeRest(rest: seq<Range>, from: nat, i: int)
    requires (forall k :: 0 <= k < |rest| ==> from <= rest[k].start) && i < from
    ensures !Within(rest, i)
  {
  }

  /** Only what is held from `i` on matters to the scan from `i` on. */
  lemma {:induction false} ScanAgrees(x: set<int>, y: set<int>, i: nat, total: nat)
    requires forall j :: i <= j < total ==> (j in x <==> j in y)
    ensures Ranges(x, i, total) == Ranges(y, i, total)
    decreases total - i
  {
    hide Ranges, SkipHeld, WindowEnd;
    ScanStep(x, i, total);
    ScanStep(y, i, total);
    var s := SkipHeld(x, i, total);
    SkipUnique(x, i, total, SkipHeld(y, i, total));
    if s < total {
      WindowUnique(x, s + 1, Min(total, s + MAX_RANGE_CHUNKS), WindowEnd(y, s + 1, Min(total, s + MAX_RANGE_CHUNKS)));
      ScanAgrees(x, y, Window(x, s, total).end, total);
    }
  }

  lemma {:induction false} SkipUnique(held: set<int>, i: nat, total: nat, s: nat)
    requires i <= s && (if i <= total then s <= total else s == i)
    requires (forall j :: i <= j < s ==> j in held) && (s < total ==> s !in held)
    ensures SkipHeld(held, i, total) == s
    decreases total - i
  {
    if i < s {
      SkipUnique(held, i + 1, total, s);
    }
  }

  lemma {:induction false} WindowUnique(held: set<int>, i: nat, limit: nat, e: nat)
    requires i <= e && (if i <= limit then e <= limit else e == i)
    requires (forall j :: i <= j < e ==> j !in held) && (e < limit ==> e in held)
    ensures WindowEnd(held, i, limit) == e
    decreases limit - i
  {
    if i < e {
      WindowUnique(held, i + 1, limit, e);
    }
  }

  /** A held prefix does not change the scan: starting past it gives the same windows. */
  lemma ScanSkips(held: set<int>, i: nat, k: nat, total: nat)
    requires i <= k <= total && forall j :: i <= j < k ==> j in held
    ensures Ranges(held, i, total) == Ranges(held, k, total)
  {
    SkipUnique(held, i, total, SkipHeld(held, k, total));
  }

  ghost function Head(ranges: seq<Range>): Option<Range>
  {
    if ranges == [] then None else Some(ranges[0])
  }

  /** With everything below the low mark held, the incremental search is the head of the full scan. */
  lemma SearchIsHead(held: set<int>, low: nat, total: nat)
    requires low <= total && HoldsAll(held, 0, low)
    ensures NextRange(held, low, total).0 == Head(Ranges(held, 0, total))
    ensures low <= NextRange(held, low, total).1 <= total && HoldsAll(held, 0, NextRange(held, low, total).1)
  {
    ScanSkips(held, 0, low, total);
  }

  ghost function Interval(s: int, e: int): (indices: set<int>)
    ensures forall i :: i in indices <==> s <= i < e
    decreases e - s
  {
    if s >= e then {} else Interval(s, e - 1) + {e - 1}
  }

  /** Filling the first window turns the scan into its own tail. */
  lemma DrainedWindow(held: set<int>, total: nat)
    requires Ranges(held, 0, total) != []
    ensures var w := Ranges(held, 0, total)[0];
            Ranges(held + Interval(w.start, w.end), 0, total) == Ranges(held, 0, total)[1..]
  {
    var s := SkipHeld(held, 0, total);
    var w := Window(held, s, total);
    var filled := held + Interval(w.start, w.end);
    ScanSkips(filled, 0, w.end, total);
    ScanAgrees(filled, held, w.end, total);
  }

  /** Nothing is missing exactly when the scan is empty. */
  lemma NothingMissing(held: set<int>, total: nat)
    ensures Ranges(held, 0, total) == [] <==> HoldsAll(held, 0, total)
  {
    ScanIsExact(held, 0, total);
    var ranges := Ranges(held, 0, total);
    hide Ranges;
    if ranges == [] {
      forall i | 0 <= i < total ensures i in held { assert !Within(ranges, i); }
    } else {
      assert Within(ranges, ranges[0].start);
    }
  }

  // ---- Every reachable receiver

  ghost predicate HaveOk(have: map<int, Payload>, o: Offer)
  {
    forall i :: i in have ==> Fits(o, i, have[i])
  }

  /** A verdict is about the last file handed over, which has the offered size and the stated digest status. */
  ghost predicate VerdictOk(r: Receiver, hash: Payload -> Digest)
  {
    r.verified.Some? ==>
      && r.offer.Some? && r.files != []
      && var (data, ok) := r.files[|r.files| - 1];
         ok == r.verified.value && |data| == r.offer.value.size && (ok <==> hash(data) == r.offer.value.sha256)
  }

  ghost predicate SearchOk(r: Receiver)
  {
    if r.offer.None? then r.low == 0
    else
      ValidOffer(r.offer.value) && HaveOk(r.have, r.offer.value) && r.low <= Total(r) && HoldsAll(r.have.Keys, 0, r.low)
  }

  datatype Event = OfferIn(offer: Offer) | ChunkIn(body: Payload) | TimedOut

  function Apply(r: Receiver, e: Event, hash: Payload -> Digest): Receiver
  {
    match e
    case OfferIn(o) => HandleOffer(r, o, hash)
    case ChunkIn(body) => HandleChunk(r, body, hash)
    case TimedOut => RequestMissing(r)
  }

  function Run(have: map<int, Payload>, events: seq<Event>, hash: Payload -> Digest): Receiver
  {
    if events == [] then NewReceiver(have)
    else Apply(Run(have, events[..|events| - 1], hash), events[|events| - 1], hash)
  }

  lemma {:induction false} AssembledSize(parts: map<nat, Payload>, o: Offer, upTo: nat)
    requires ValidOffer(o) && upTo <= o.total
    requires forall i :: 0 <= i < upTo ==> i in parts && |parts[i]| == ChunkLen(o, i)
    ensures |F.Concat(parts, upTo)| == if upTo < o.total then upTo * CHUNK_SIZE else o.size
  {
    hide F.PieceCount;
    if upTo > 0 {
      AssembledSize(parts, o, upTo - 1);
    }
  }

  lemma FinishOk(r: Receiver, hash: Payload -> Digest)
    requires SearchOk(r) && r.offer.Some? && HoldsAll(r.have.Keys, 0, Total(r))
    ensures SearchOk(Finish(r, hash)) && VerdictOk(Finish(r, hash), hash)
  {
    forall i: nat | 0 <= i < Total(r)
      ensures i in NatKeys(r.have) && |NatKeys(r.have)[i]| == ChunkLen(r.offer.value, i)
    {
      assert i in r.have.Keys;
    }
    AssembledSize(NatKeys(r.have), r.offer.value, Total(r));
  }

  lemma RequestOk(r: Receiver, hash: Payload -> Digest)
    requires SearchOk(r) && VerdictOk(r, hash)
    ensures SearchOk(RequestMissing(r)) && VerdictOk(RequestMissing(r), hash)
  {
    hide Ranges, NextRange;
    if r.offer.Some? {
      SearchIsHead(r.have.Keys, r.low, Total(r));
    }
  }

  lemma TakeOfferOk(r: Receiver, o: Offer, hash: Payload -> Digest)
    requires SearchOk(r) && VerdictOk(r, hash) && ValidOffer(o)
    ensures SearchOk(TakeOffer(r, o)) && VerdictOk(TakeOffer(r, o), hash)
  {
  }

  lemma TakeChunkOk(r: Receiver, index: nat, data: Payload, hash: Payload -> Digest)
    requires SearchOk(r) && VerdictOk(r, hash) && r.offer.Some? && index < r.offer.value.total
    ensures SearchOk(TakeChunk(r, index, data)) && VerdictOk(TakeChunk(r, index, data), hash)
  {
  }

  lemma ApplyOk(r: Receiver, e: Event, hash: Payload -> Digest)
    requires SearchOk(r) && VerdictOk(r, hash)
    ensures SearchOk(Apply(r, e, hash)) && VerdictOk(Apply(r, e, hash), hash)
  {
    hide SearchOk, VerdictOk, RequestMissing, TakeOffer, TakeChunk, Finish, ValidOffer;
    match e
    case OfferIn(o) =>
      if ValidOffer(o) {
        TakeOfferOk(r, o, hash);
        var next := TakeOffer(r, o);
        OfferTaken(r, o);
        if Complete(next) { FinishOk(next, hash); } else { RequestOk(next, hash); }
      }
    case ChunkIn(body) =>
      if r.offer.Some? && BodyIndex(body) < r.offer.value.total {
        TakeChunkOk(r, BodyIndex(body), BodyData(body), hash);
        ChunkTaken(r, BodyIndex(body), BodyData(body));
        var next := TakeChunk(r, BodyIndex(body), BodyData(body));
        if Complete(next) { FinishOk(next, hash); } else { RequestOk(next, hash); }
      }
    case TimedOut => RequestOk(r, hash);
  }

  lemma OfferTaken(r: Receiver, o: Offer)
    ensures TakeOffer(r, o).offer == Some(o)
  {
  }

  lemma ChunkTaken(r: Receiver, index: nat, data: Payload)
    requires r.offer.Some?
    ensures TakeChunk(r, index, data).offer == r.offer
  {
  }

  lemma {:induction false} ReachableOk(have: map<int, Payload>, events: seq<Event>, hash: Payload -> Digest)
    ensures SearchOk(Run(have, events, hash)) && VerdictOk(Run(have, events, hash), hash)
  {
    if events != [] {
      hide SearchOk, VerdictOk, Apply;
      ReachableOk(have, events[..|events| - 1], hash);
      ApplyOk(Run(have, events[..|events| - 1], hash), events[|events| - 1], hash);
    }
  }

  lemma RequestKeepsHolding(r: Receiver)
    ensures var z := RequestMissing(r); z.have == r.have && z.offer == r.offer && z.verified == r.verified
  {
  }

  lemma VerdictStep(r: Receiver, e: Event, hash: Payload -> Digest)
    requires r.offer.Some? && Complete(r) ==> r.verified.Some?
    ensures var z := Apply(r, e, hash); z.offer.Some? && Complete(z) ==> z.verified.Some?
  {
    hide Complete, RequestMissing, TakeOffer, TakeChunk, BodyIndex, BodyData, ValidOffer;
    match e
    case OfferIn(o) =>
      RequestKeepsHolding(TakeOffer(r, o));
      SameHolding(TakeOffer(r, o), RequestMissing(TakeOffer(r, o)));
      OfferTaken(r, o);
    case ChunkIn(body) =>
      if r.offer.Some? {
        var next := TakeChunk(r, BodyIndex(body), BodyData(body));
        ChunkTaken(r, BodyIndex(body), BodyData(body));
        RequestKeepsHolding(next);
        SameHolding(next, RequestMissing(next));
      }
    case TimedOut =>
      RequestKeepsHolding(r);
      SameHolding(r, RequestMissing(r));
  }

  lemma SameHolding(r: Receiver, z: Receiver)
    requires z.have == r.have && z.offer == r.offer
    ensures Complete(z) <==> Complete(r)
  {
  }

  /** Whoever holds every chunk of the file on offer has reached a verdict on it. */
  lemma {:induction false} CompleteMeansVerdict(have: map<int, Payload>, events: seq<Event>, hash: Payload -> Digest)
    ensures var r := Run(have, events, hash); r.offer.Some? && Complete(r) ==> r.verified.Some?
  {
    if events != [] {
      hide Apply, Complete;
      CompleteMeansVerdict(have, events[..|events| - 1], hash);
      VerdictStep(Run(have, events[..|events| - 1], hash), events[|events| - 1], hash);
    }
  }

  /** After any frames whatever, for any resumed chunks: the incremental search answers what a full scan would, the
      count-based completeness test agrees with the scan, and a positive verdict means a file of the offered size and
      digest was handed over. */
  lemma SearchAgreesWithScan(have: map<int, Payload>, events: seq<Event>, hash: Payload -> Digest)
    ensures var r := Run(have, events, hash);
            && NextRange(r.have.Keys, r.low, Total(r)).0 == Head(Ranges(r.have.Keys, 0, Total(r)))
            && (Complete(r) <==> Ranges(r.have.Keys, 0, Total(r)) == [])
            && (r.verified == Some(true) ==>
                  r.offer.Some? &&
                  exists f :: f in r.files && |f.0| == r.offer.value.size && hash(f.0) == r.offer.value.sha256)
  {
    ReachableOk(have, events, hash);
    var r := Run(have, events, hash);
    hide Run, Ranges, NextRange;
    SearchIsHead(r.have.Keys, r.low, Total(r));
    NothingMissing(r.have.Keys, Total(r));
    if HoldsAll(r.have.Keys, 0, Total(r)) {
      EnoughHeld(r.have.Keys, Total(r));
    }
    if r.verified == Some(true) {
      assert r.files[|r.files| - 1] in r.files;
    }
  }

  lemma {:induction false} EnoughHeld(held: set<int>, total: nat)
    requires HoldsAll(held, 0, total)
    ensures |held| >= total
  {
    if total > 0 {
      EnoughHeld(held - {total - 1}, total - 1);
    }
  }
}
