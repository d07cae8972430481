/** File distribution (telesthete/protocol/drop.py): the offer, the window search, and both ends' handlers, as
    values. */
module Drop {
  import opened BigEndian
  import F = Fragments

  const CHUNK_SIZE := 1024
  const MAX_RANGE_CHUNKS := 64

  type Payload = seq<byte>
  type Digest = seq<byte>

  datatype Range = Range(start: nat, end: nat)

  datatype Offer = Offer(size: int, chunkSize: int, total: int, sha256: Digest)

  /** `requests`, `dones` and `files` record what was sent and what the completion callback was given. */
  datatype Receiver = Receiver(
    offer: Option<Offer>,
    have: map<int, Payload>,
    verified: Option<bool>,
    outstanding: Option<Range>,
    low: nat,
    requests: seq<Range>,
    dones: seq<Digest>,
    files: seq<(Payload, bool)>)

  function NewReceiver(have: map<int, Payload>): Receiver
  {
    Receiver(None, have, None, None, 0, [], [], [])
  }

  predicate ValidOffer(o: Offer)
  {
    o.size >= 0 && o.chunkSize == CHUNK_SIZE && o.total == F.PieceCount(o.size, CHUNK_SIZE)
  }

  function ChunkLen(o: Offer, i: int): int
  {
    if i < o.total - 1 then CHUNK_SIZE else o.size - (o.total - 1) * CHUNK_SIZE
  }

  function Total(r: Receiver): (t: nat)
  {
    if r.offer.Some? && r.offer.value.total > 0 then r.offer.value.total else 0
  }

  // ---- Searching for what is missing

  function Min(a: nat, b: nat): nat
  {
    if a <= b then a else b
  }

  /** The first index from `i` on that is not held. */
  function SkipHeld(held: set<int>, i: nat, total: nat): (s: nat)
    ensures i <= s && (if i <= total then s <= total else s == i)
    ensures forall j :: i <= j < s ==> j in held
    ensures s < total ==> s !in held
    decreases total - i
  {
    if i < total && i in held then SkipHeld(held, i + 1, total) else i
  }

  /** How far a run of missing indices goes, up to `limit`. */
  function WindowEnd(held: set<int>, i: nat, limit: nat): (e: nat)
    ensures i <= e && (if i <= limit then e <= limit else e == i)
    ensures forall j :: i <= j < e ==> j !in held
    ensures e < limit ==> e in held
    decreases limit - i
  {
    if i < limit && i !in held then WindowEnd(held, i + 1, limit) else i
  }

  /** The window that starts at a missing index. */
  function Window(held: set<int>, s: nat, total: nat): (w: Range)
    requires s < total
    ensures w.start == s < w.end <= total
  {
    Range(s, WindowEnd(held, s + 1, Min(total, s + MAX_RANGE_CHUNKS)))
  }

  /** Every missing window from `i` on: the full scan. */
  function Ranges(held: set<int>, i: nat, total: nat): seq<Range>
    decreases total - i
  {
    var s := SkipHeld(held, i, total);
    if s >= total then [] else [Window(held, s, total)] + Ranges(held, Window(held, s, total).end, total)
  }

  /** The incremental search: start at the low mark, and report where it now stands. */
  function NextRange(held: set<int>, low: nat, total: nat): (Option<Range>, nat)
  {
    var s := SkipHeld(held, low, total);
    (if s >= total then None else Some(Window(held, s, total)), s)
  }

  // ---- The receiver

  predicate HoldsAll(held: set<int>, start: int, end: int)
  {
    forall i :: start <= i < end ==> i in held
  }

  predicate Complete(r: Receiver)
  {
    |r.have| >= Total(r) && HoldsAll(r.have.Keys, 0, Total(r))
  }

  function RequestMissing(r: Receiver): Receiver
  {
    if r.offer.None? || r.verified.Some? then r
    else
      var (window, low) := NextRange(r.have.Keys, r.low, Total(r));
      if window.None? then r.(low := low)
      else r.(low := low, outstanding := window, requests := r.requests + [window.value])
  }

  function NatKeys(have: map<int, Payload>): map<nat, Payload>
  {
    map i: nat | i in have :: have[i]
  }

  function Assemble(r: Receiver): Payload
    requires HoldsAll(r.have.Keys, 0, Total(r)) && r.offer.Some?
  {
    var whole := F.Concat(NatKeys(r.have), Total(r));
    if 0 <= r.offer.value.size <= |whole| then whole[..r.offer.value.size] else whole
  }

  function Finish(r: Receiver, hash: Payload -> Digest): Receiver
    requires HoldsAll(r.have.Keys, 0, Total(r)) && r.offer.Some?
  {
    var data := Assemble(r);
    var ok := hash(data) == r.offer.value.sha256;
    r.(verified := Some(ok), dones := r.dones + [hash(data)], files := r.files + [(data, ok)])
  }

  predicate Fits(o: Offer, i: int, chunk: Payload)
  {
    0 <= i < o.total && |chunk| == ChunkLen(o, i)
  }

  /** Only chunks this offer defines survive. */
  function Relevant(have: map<int, Payload>, o: Offer): map<int, Payload>
  {
    map i | i in have && Fits(o, i, have[i]) :: have[i]
  }

  predicate OtherFile(r: Receiver, o: Offer)
  {
    r.offer.Some? && (o.sha256 != r.offer.value.sha256 || o.size != r.offer.value.size)
  }

  function TakeOffer(r: Receiver, o: Offer): Receiver
  {
    var kept := if OtherFile(r, o) then r.(have := map[], verified := None) else r;
    kept.(offer := Some(o), have := Relevant(kept.have, o), low := 0)
  }

  function HandleOffer(r: Receiver, o: Offer, hash: Payload -> Digest): Receiver
  {
    if !ValidOffer(o) then r
    else
      var next := TakeOffer(r, o);
      if Complete(next) then Finish(next, hash) else RequestMissing(next)
  }

  /** A CHUNK body: index(4) || data. */
  function ChunkBody(index: nat, data: Payload): Payload
  {
    ToBytes(index, 4) + data
  }

  function BodyIndex(body: Payload): nat
  {
    FromBytes(body[..Min(4, |body|)])
  }

  function BodyData(body: Payload): Payload
  {
    body[Min(4, |body|)..]
  }

  function TakeChunk(r: Receiver, index: nat, data: Payload): Receiver
    requires r.offer.Some?
  {
    if index !in r.have && |data| == ChunkLen(r.offer.value, index) then r.(have := r.have[index := data]) else r
  }

  function Advance(r: Receiver, hash: Payload -> Digest): Receiver
    requires r.offer.Some?
  {
    if Complete(r) then Finish(r, hash)
    else if r.outstanding.Some? && HoldsAll(r.have.Keys, r.outstanding.value.start, r.outstanding.value.end)
        then RequestMissing(r)
    else r
  }

  function HandleChunk(r: Receiver, body: Payload, hash: Payload -> Digest): Receiver
  {
    if r.offer.None? || BodyIndex(body) >= r.offer.value.total then r
    else Advance(TakeChunk(r, BodyIndex(body), BodyData(body)), hash)
  }

  // ---- The sender

  function OfferOf(data: Payload, hash: Payload -> Digest): Offer
  {
    Offer(|data|, CHUNK_SIZE, F.PieceCount(|data|, CHUNK_SIZE), hash(data))
  }

  /** CHUNK bodies for indices `i .. end`; an index beyond four bytes raises, which ends the answer. */
  function ServeFrom(data: Payload, i: nat, end: nat): seq<Payload>
    requires end <= F.PieceCount(|data|, CHUNK_SIZE)
    decreases end - i
  {
    if i >= end || i >= U32_LIMIT then []
    else [ChunkBody(i, F.Piece(data, CHUNK_SIZE, i))] + ServeFrom(data, i + 1, end)
  }

  /** The answer to one requested range, clamped to the file and to the window. */
  function ServeRange(data: Payload, start: int, end: int): seq<Payload>
  {
    var s: nat := if start < 0 then 0 else start;
    var e := Min(Min(if end < 0 then 0 else end, F.PieceCount(|data|, CHUNK_SIZE)), s + MAX_RANGE_CHUNKS);
    ServeFrom(data, s, e)
  }
}
