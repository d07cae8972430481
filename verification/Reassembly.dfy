/** The reassembler's state and transitions, as values (rust/telesthete/src/wire/fragment.rs). */
module Reassembly {
  import opened BigEndian
  import opened Fragments
  import opened Sums

  const DEFAULT_TIMEOUT := 30_000
  const DEFAULT_BUFFER_LIMIT := 256
  const LIBRARY_MAX_BUFFERED_BYTES := 64 * 1024 * 1024
  const EVICTED_MEMORY := 1024

  type Instant = nat

  datatype Partial = Partial(total: nat, parts: map<nat, Payload>, size: nat, firstSeen: Instant, order: nat)

  datatype Config = Config(limit: nat, maxFragments: nat, maxChunkPayload: nat, maxBytes: Option<nat>, timeout: nat)

  datatype State = State(
    cfg: Config,
    buffers: map<FragmentId, Partial>,
    bytes: int,
    evicted: map<FragmentId, Instant>,
    evictedOrder: seq<(FragmentId, Instant)>,
    nextOrder: nat)

  function Max(a: nat, b: nat): nat { if a < b then b else a }

  /** The builder methods floor their arguments; this is what every built configuration satisfies. */
  predicate ValidConfig(cfg: Config)
  {
    cfg.limit >= 1 && 1 <= cfg.maxFragments <= WIRE_MAX_FRAGMENTS && cfg.maxChunkPayload >= 1
  }

  function Fresh(cfg: Config): State
  {
    State(cfg, map[], 0, map[], [], 0)
  }

  function ChunkSizeConfig(chunkSize: nat): Config
  {
    Config(DEFAULT_BUFFER_LIMIT, WIRE_MAX_FRAGMENTS, Max(chunkSize, 1),
           Some(Max(LIBRARY_MAX_BUFFERED_BYTES, Max(chunkSize, 1) * WIRE_MAX_FRAGMENTS)), DEFAULT_TIMEOUT)
  }

  function ForChunkSize(chunkSize: nat): State
  {
    Fresh(ChunkSizeConfig(chunkSize))
  }

  ghost function SizeOf(p: Partial): nat { p.size }

  ghost function LengthOf(p: Payload): nat { |p| }

  predicate Expired(cfg: Config, at: Instant, now: Instant)
  {
    now - at > cfg.timeout
  }

  // ---- Eviction

  ghost predicate IsOldest(buffers: map<FragmentId, Partial>, exclude: set<FragmentId>, fid: FragmentId)
  {
    fid in buffers && fid !in exclude
    && forall k :: k in buffers && k !in exclude ==> buffers[fid].order <= buffers[k].order
  }

  lemma {:induction false} OldestExists(buffers: map<FragmentId, Partial>, exclude: set<FragmentId>)
    requires buffers.Keys - exclude != {}
    ensures exists fid :: IsOldest(buffers, exclude, fid)
    decreases buffers.Keys - exclude
  {
    var k :| k in buffers.Keys - exclude;
    if buffers.Keys - exclude == {k} {
      assert forall j :: j in buffers && j !in exclude ==> j in buffers.Keys - exclude;
      assert IsOldest(buffers, exclude, k);
    } else {
      assert buffers.Keys - exclude - {k} != {};
      assert buffers.Keys - (exclude + {k}) == buffers.Keys - exclude - {k};
      OldestExists(buffers, exclude + {k});
      var m :| IsOldest(buffers, exclude + {k}, m);
      assert IsOldest(buffers, exclude, if buffers[k].order <= buffers[m].order then k else m);
    }
  }

  /** The partial that arrived first, leaving `exclude` aside. */
  ghost function Oldest(buffers: map<FragmentId, Partial>, exclude: set<FragmentId>): (r: Option<FragmentId>)
    ensures r.Some? <==> buffers.Keys - exclude != {}
    ensures r.Some? ==> IsOldest(buffers, exclude, r.value)
  {
    if buffers.Keys - exclude == {} then None
    else
      OldestExists(buffers, exclude);
      var fid :| IsOldest(buffers, exclude, fid);
      Some(fid)
  }

  function DropPartial(s: State, fid: FragmentId): State
  {
    s.(buffers := s.buffers - {fid}, bytes := s.bytes - (if fid in s.buffers then s.buffers[fid].size else 0))
  }

  function PopEvicted(s: State): State
    requires s.evictedOrder != []
  {
    var (fid, at) := s.evictedOrder[0];
    s.(evictedOrder := s.evictedOrder[1..],
       evicted := if fid in s.evicted && s.evicted[fid] == at then s.evicted - {fid} else s.evicted)
  }

  function TrimEvicted(s: State): State
    decreases |s.evictedOrder|
  {
    if |s.evicted| > EVICTED_MEMORY && s.evictedOrder != [] then TrimEvicted(PopEvicted(s)) else s
  }

  function Remember(s: State, fid: FragmentId, now: Instant): State
  {
    s.(evicted := s.evicted[fid := now], evictedOrder := s.evictedOrder + [(fid, now)])
  }

  /** Give up on a partial and remember its id. */
  function Evict(s: State, fid: FragmentId, now: Instant): (r: State)
    ensures r.buffers == s.buffers - {fid}
    ensures r.cfg == s.cfg && r.nextOrder == s.nextOrder
    ensures r.bytes == s.bytes - (if fid in s.buffers then s.buffers[fid].size else 0)
  {
    TrimKeepsBuffers(Remember(DropPartial(s, fid), fid, now));
    TrimEvicted(Remember(DropPartial(s, fid), fid, now))
  }

  lemma TrimKeepsBuffers(s: State)
    ensures var r := TrimEvicted(s);
            r.buffers == s.buffers && r.bytes == s.bytes && r.cfg == s.cfg && r.nextOrder == s.nextOrder
    decreases |s.evictedOrder|
  {
  }

  // ---- Expiry

  function ForgetExpired(s: State, now: Instant): State
    decreases |s.evictedOrder|
  {
    if s.evictedOrder != [] && Expired(s.cfg, s.evictedOrder[0].1, now) then ForgetExpired(PopEvicted(s), now) else s
  }

  function StaleIds(s: State, now: Instant): set<FragmentId>
  {
    set k | k in s.buffers && Expired(s.cfg, s.buffers[k].firstSeen, now)
  }

  ghost function DropStale(s: State, now: Instant): State
  {
    var stale := StaleIds(s, now);
    s.(buffers := s.buffers - stale,
       bytes := s.bytes - Sum(Restrict(s.buffers, stale), SizeOf))
  }

  ghost function Gc(s: State, now: Instant): State
  {
    DropStale(ForgetExpired(s, now), now)
  }

  // ---- Feeding

  /** Evict the oldest other partials until `n` more bytes fit; `false` if they never do. */
  ghost function EvictUntilFits(s: State, fid: FragmentId, n: nat, max: nat, now: Instant): (State, bool)
    decreases |s.buffers|
  {
    if s.bytes + n <= max then (s, true)
    else
      match Oldest(s.buffers, {fid})
      case Some(victim) =>
        assert (s.buffers - {victim}).Keys == s.buffers.Keys - {victim};
        EvictUntilFits(Evict(s, victim, now), fid, n, max, now)
      case None => (Evict(s, fid, now), false)
  }

  ghost function MakeRoom(s: State, fid: FragmentId, n: nat, now: Instant): (State, bool)
  {
    match s.cfg.maxBytes
    case None => (s, true)
    case Some(max) => if n > max then (s, false) else EvictUntilFits(s, fid, n, max, now)
  }

  /** At the count limit, a message that needs a new partial evicts the oldest one first. */
  ghost function RoomForOne(s: State, c: Chunk, now: Instant): State
  {
    if c.fid !in s.buffers && |s.buffers| >= s.cfg.limit && Oldest(s.buffers, {}).Some?
    then Evict(s, Oldest(s.buffers, {}).value, now) else s
  }

  /** The partial `c` lands in: the one already open, or an empty one opened now. */
  function Landing(s: State, c: Chunk, now: Instant): Partial
  {
    if c.fid in s.buffers then s.buffers[c.fid] else Partial(c.total, map[], 0, now, s.nextOrder)
  }

  function Grown(p: Partial, c: Chunk): Partial
  {
    p.(parts := p.parts[c.index := c.data], size := p.size + |c.data|)
  }

  /** Put `c` into its landing partial. */
  function AddPart(s: State, c: Chunk, now: Instant): State
  {
    s.(buffers := s.buffers[c.fid := Grown(Landing(s, c, now), c)],
       bytes := s.bytes + |c.data|,
       nextOrder := if c.fid in s.buffers then s.nextOrder else s.nextOrder + 1)
  }

  /** Hand out a partial whose part count has reached its total. The source indexes `parts` with
      every `i < total`; `FullIndexSet` is why none is ever absent. */
  function Complete(s: State, fid: FragmentId): (State, Option<Payload>)
    requires fid in s.buffers
  {
    var p := s.buffers[fid];
    if |p.parts| == p.total && (forall i: nat :: i < p.total ==> i in p.parts)
    then (DropPartial(s, fid), Some(Concat(p.parts, p.total)))
    else (s, None)
  }

  ghost function Store(s: State, c: Chunk, now: Instant): (State, Option<Payload>)
  {
    Complete(AddPart(RoomForOne(s, c, now), c, now), c.fid)
  }

  /** A sender that changes `total` mid-message gets its partial reset. */
  function ResetMismatch(s: State, c: Chunk): State
  {
    if c.fid in s.buffers && s.buffers[c.fid].total != c.total then DropPartial(s, c.fid) else s
  }

  ghost function Admit(s: State, c: Chunk, now: Instant): (State, Option<Payload>)
  {
    if c.fid in s.buffers && c.index in s.buffers[c.fid].parts then (s, None)
    else if c.fid !in s.buffers && c.total == 1 then (s, Some(c.data))
    else if |c.data| > s.cfg.maxChunkPayload then (s, None)
    else
      var (s1, fits) := MakeRoom(s, c.fid, |c.data|, now);
      if fits then Store(s1, c, now) else (s1, None)
  }

  ghost function Accept(s: State, c: Chunk, now: Instant): (State, Option<Payload>)
  {
    if c.fid in s.evicted then (s, None) else Admit(ResetMismatch(s, c), c, now)
  }

  /** One decrypted Channel payload in; the full message out when it completes one. */
  ghost function Feed(s: State, raw: seq<byte>, now: Instant): (State, Option<Payload>)
  {
    match ParseChunk(raw)
    case None => (s, None)
    case Some(c) => if c.total > s.cfg.maxFragments then (s, None) else Accept(Gc(s, now), c, now)
  }
}
