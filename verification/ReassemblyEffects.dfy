/** What is given up, remembered, forgotten and refused, in every reachable reassembler. */
module ReassemblyEffects {
  import opened BigEndian
  import opened Fragments
  import opened Sums
  import opened Reassembly
  import opened ReassemblyInvariant
  import opened ReassemblyTheorems

  // ---- Clocks that do not go back

  /** Evictions are remembered in the order they happened, none of them after `now`. */
  ghost predicate Timely(order: seq<(FragmentId, Instant)>, now: Instant)
  {
    && (forall i, j :: 0 <= i < j < |order| ==> order[i].1 <= order[j].1)
    && (forall i :: 0 <= i < |order| ==> order[i].1 <= now)
  }

  ghost predicate Clocked(inputs: seq<Input>)
  {
    forall i, j :: 0 <= i < j < |inputs| ==> inputs[i].now <= inputs[j].now
  }

  lemma LaterStillTimely(order: seq<(FragmentId, Instant)>, now: Instant, later: Instant)
    requires Timely(order, now) && now <= later
    ensures Timely(order, later)
  {
  }

  lemma {:induction false} TrimIsTimely(s: State, now: Instant)
    requires Timely(s.evictedOrder, now)
    ensures Timely(TrimEvicted(s).evictedOrder, now)
    decreases |s.evictedOrder|
  {
    if |s.evicted| > EVICTED_MEMORY && s.evictedOrder != [] {
      TrimIsTimely(PopEvicted(s), now);
    }
  }

  lemma {:induction false} ForgetIsTimely(s: State, now: Instant)
    requires Timely(s.evictedOrder, now)
    ensures Timely(ForgetExpired(s, now).evictedOrder, now)
    decreases |s.evictedOrder|
  {
    if s.evictedOrder != [] && Expired(s.cfg, s.evictedOrder[0].1, now) {
      ForgetIsTimely(PopEvicted(s), now);
    }
  }

  lemma EvictIsTimely(s: State, fid: FragmentId, now: Instant)
    requires Timely(s.evictedOrder, now)
    ensures Timely(Evict(s, fid, now).evictedOrder, now)
  {
    hide TrimEvicted;
    TrimIsTimely(Remember(DropPartial(s, fid), fid, now), now);
  }

  lemma {:induction false} MakingRoomIsTimely(s: State, fid: FragmentId, n: nat, max: nat, now: Instant)
    requires Timely(s.evictedOrder, now)
    ensures Timely(EvictUntilFits(s, fid, n, max, now).0.evictedOrder, now)
    decreases |s.buffers|
  {
    hide Timely, Evict;
    if s.bytes + n > max {
      match Oldest(s.buffers, {fid})
      case Some(victim) =>
        EvictIsTimely(s, victim, now);
        assert (s.buffers - {victim}).Keys == s.buffers.Keys - {victim};
        MakingRoomIsTimely(Evict(s, victim, now), fid, n, max, now);
      case None => EvictIsTimely(s, fid, now);
    }
  }

  lemma StoreIsTimely(s: State, c: Chunk, now: Instant)
    requires Timely(s.evictedOrder, now)
    ensures Timely(Store(s, c, now).0.evictedOrder, now)
  {
    hide Timely, Evict, Oldest, Concat;
    if Oldest(s.buffers, {}).Some? {
      EvictIsTimely(s, Oldest(s.buffers, {}).value, now);
    }
    var r := RoomForOne(s, c, now);
    hide RoomForOne, Landing, Grown;
    assert AddPart(r, c, now).evictedOrder == r.evictedOrder;
  }

  lemma AdmitIsTimely(s: State, c: Chunk, now: Instant)
    requires Timely(s.evictedOrder, now)
    ensures Timely(Admit(s, c, now).0.evictedOrder, now)
  {
    hide Timely, EvictUntilFits, Store;
    if s.cfg.maxBytes.Some? {
      MakingRoomIsTimely(s, c.fid, |c.data|, s.cfg.maxBytes.value, now);
    }
    StoreIsTimely(MakeRoom(s, c.fid, |c.data|, now).0, c, now);
  }

  lemma FeedIsTimely(s: State, raw: seq<byte>, now: Instant)
    requires Timely(s.evictedOrder, now)
    ensures Timely(Feed(s, raw, now).0.evictedOrder, now)
  {
    hide Timely, ParseChunk, Admit, ForgetExpired, Sum, Restrict, StaleIds;
    ForgetIsTimely(s, now);
    match ParseChunk(raw)
    case None =>
    case Some(c) => AdmitIsTimely(ResetMismatch(Gc(s, now), c), c, now);
  }

  lemma {:induction false} ReachableIsTimely(cfg: Config, inputs: seq<Input>, now: Instant)
    requires Clocked(inputs) && forall i :: 0 <= i < |inputs| ==> inputs[i].now <= now
    ensures Timely(FeedAll(Fresh(cfg), inputs).0.evictedOrder, now)
  {
    if inputs != [] {
      hide Feed, Timely;
      var n := |inputs| - 1;
      ReachableIsTimely(cfg, inputs[..n], inputs[n].now);
      FeedIsTimely(FeedAll(Fresh(cfg), inputs[..n]).0, inputs[n].raw, inputs[n].now);
      LaterStillTimely(FeedAll(Fresh(cfg), inputs).0.evictedOrder, inputs[n].now, now);
    } else {
      assert Timely([], now);
    }
  }

  // ---- Expiry

  lemma HeadOfMemory(evicted: map<FragmentId, Instant>, order: seq<(FragmentId, Instant)>)
    requires MemoryOk(evicted, order) && order != []
    ensures order[0].0 in evicted && evicted[order[0].0] == order[0].1
  {
  }

  /** Nothing was evicted before what is at the head of the queue. */
  lemma HeadIsFirst(s: State, now: Instant, k: FragmentId)
    requires MemoryOk(s.evicted, s.evictedOrder) && Timely(s.evictedOrder, now) && k in s.evicted
    ensures s.evictedOrder != [] && s.evictedOrder[0].1 <= s.evicted[k]
  {
    var i :| 0 <= i < |s.evictedOrder| && s.evictedOrder[i].0 == k;
    assert s.evictedOrder[0].1 <= s.evictedOrder[i].1;
  }

  lemma PopIsTimely(s: State, now: Instant)
    requires s.evictedOrder != [] && Timely(s.evictedOrder, now)
    ensures Timely(PopEvicted(s).evictedOrder, now)
  {
  }

  lemma {:induction false} ForgetsExactly(s: State, now: Instant, k: FragmentId)
    requires MemoryOk(s.evicted, s.evictedOrder) && Timely(s.evictedOrder, now)
    ensures var t := ForgetExpired(s, now);
            && (k in t.evicted <==> k in s.evicted && now - s.evicted[k] <= s.cfg.timeout)
            && (k in t.evicted ==> t.evicted[k] == s.evicted[k])
    decreases |s.evictedOrder|
  {
    hide MemoryOk, Timely;
    if s.evictedOrder != [] && Expired(s.cfg, s.evictedOrder[0].1, now) {
      PopKeepsMemory(s);
      PopIsTimely(s, now);
      HeadOfMemory(s.evicted, s.evictedOrder);
      ForgetsExactly(PopEvicted(s), now, k);
    } else if k in s.evicted {
      HeadIsFirst(s, now, k);
    }
  }

  /** Each feed first drops exactly the partials opened longer ago than the timeout, and forgets exactly the evictions
      that happened longer ago than that. */
  lemma ExpiresExactly(cfg: Config, inputs: seq<Input>, now: Instant, k: FragmentId)
    requires ValidConfig(cfg) && Clocked(inputs) && forall i :: 0 <= i < |inputs| ==> inputs[i].now <= now
    ensures var s := FeedAll(Fresh(cfg), inputs).0;
            var g := Gc(s, now);
            && (k in g.buffers <==> k in s.buffers && now - s.buffers[k].firstSeen <= cfg.timeout)
            && (k in g.buffers ==> g.buffers[k] == s.buffers[k])
            && (k in g.evicted <==> k in s.evicted && now - s.evicted[k] <= cfg.timeout)
            && (k in g.evicted ==> g.evicted[k] == s.evicted[k])
            && g.bytes == Sum(g.buffers, SizeOf)
  {
    ReachableInv(cfg, inputs);
    ReachableIsTimely(cfg, inputs, now);
    var s := FeedAll(Fresh(cfg), inputs).0;
    hide FeedAll, Timely, BuffersOk;
    ForgetsExactly(s, now, k);
    ForgetKeepsMemory(s, now);
    GcKeepsInv(s, now);
    hide Sum, ForgetExpired, MemoryOk;
  }

  // ---- Eviction

  /** One id too many: the oldest goes. */
  lemma TrimsOne(m: State)
    requires MemoryOk(m.evicted, m.evictedOrder) && |m.evicted| <= EVICTED_MEMORY + 1
    ensures |m.evicted| > EVICTED_MEMORY ==> m.evictedOrder != []
    ensures TrimEvicted(m).evicted
         == if |m.evicted| <= EVICTED_MEMORY then m.evicted else m.evicted - {m.evictedOrder[0].0}
  {
    if |m.evicted| > EVICTED_MEMORY {
      SomethingRemembered(m.evicted, m.evictedOrder);
      HeadOfMemory(m.evicted, m.evictedOrder);
      PopKeepsMemory(m);
      hide MemoryOk;
      var p := PopEvicted(m);
      assert p.evicted.Keys == m.evicted.Keys - {m.evictedOrder[0].0};
      assert |p.evicted| <= EVICTED_MEMORY;
      assert TrimEvicted(p) == p;
    }
  }

  lemma SomethingRemembered(evicted: map<FragmentId, Instant>, order: seq<(FragmentId, Instant)>)
    requires MemoryOk(evicted, order) && |evicted| > 0
    ensures order != []
  {
    assert evicted.Keys != {};
    var k :| k in evicted.Keys;
    var i :| 0 <= i < |order| && order[i].0 == k;
  }

  lemma PutAndRemove(m: map<FragmentId, Instant>, k: FragmentId, at: Instant, gone: FragmentId)
    requires gone != k
    ensures m[k := at] - {gone} == (m - {gone})[k := at]
  {
  }

  lemma MemoryIsSome()
    ensures EVICTED_MEMORY > 0
  {
  }

  /** An evicted partial is gone and its id remembered as of now; at the cap the memory gives up its oldest id
      for it. */
  lemma EvictExactly(s: State, fid: FragmentId, now: Instant)
    requires Inv(s) && fid in s.buffers
    ensures |s.evicted| >= EVICTED_MEMORY ==> s.evictedOrder != []
    ensures var t := Evict(s, fid, now);
            var kept := if |s.evicted| < EVICTED_MEMORY then s.evicted else s.evicted - {s.evictedOrder[0].0};
            t.buffers == s.buffers - {fid} && t.bytes == s.bytes - s.buffers[fid].size && t.evicted == kept[fid := now]
  {
    hide BuffersOk, Sum, MemoryOk, TrimEvicted, ValidConfig, WithinBudget, EVICTED_MEMORY;
    var m := Remember(DropPartial(s, fid), fid, now);
    RememberKeepsMemory(DropPartial(s, fid), fid, now);
    assert m.evicted.Keys == s.evicted.Keys + {fid};
    assert |m.evicted| == |s.evicted| + 1;
    TrimsOne(m);
    MemoryIsSome();
    if |s.evicted| >= EVICTED_MEMORY {
      SomethingRemembered(s.evicted, s.evictedOrder);
      HeadOfMemory(s.evicted, s.evictedOrder);
      assert m.evictedOrder[0] == s.evictedOrder[0];
      PutAndRemove(s.evicted, fid, now, s.evictedOrder[0].0);
    }
  }

  /** `t` is `s` without the partials that had to go so that `n` more bytes for `fid` fit: the oldest others first, and
      no more of them than needed. */
  ghost predicate OldestGone(s: State, t: State, fid: FragmentId, n: nat, max: nat)
  {
    && (fid in s.buffers ==> fid in t.buffers)
    && InOrder(s, t, fid)
    && (t.buffers != s.buffers ==>
          exists v :: v in s.buffers && v !in t.buffers && t.bytes + s.buffers[v].size + n > max)
  }

  /** Whatever went is older than whatever stayed, `fid` aside. */
  ghost predicate InOrder(s: State, t: State, fid: FragmentId)
  {
    forall j, k :: k in s.buffers && k !in t.buffers && j in s.buffers && j in t.buffers && j != fid ==>
      s.buffers[k].order < s.buffers[j].order
  }

  /** Making room always succeeds for a message that fits the budget on its own, and then gives up the oldest others,
      oldest first, and no more than needed; a message that cannot fit is given up itself. */
  lemma {:induction false} MakesRoomExactly(s: State, fid: FragmentId, n: nat, max: nat, now: Instant)
    requires Inv(s) && s.cfg.maxBytes == Some(max) && n <= max && fid !in s.evicted
    ensures var (t, fits) := EvictUntilFits(s, fid, n, max, now);
            && (fits <==> (if fid in s.buffers then s.buffers[fid].size else 0) + n <= max)
            && (fits ==> t.bytes + n <= max && OldestGone(s, t, fid, n, max))
            && (!fits ==> t.buffers == map[] && fid in t.evicted)
    decreases |s.buffers|
  {
    hide BuffersOk, MemoryOk, Sum, ValidConfig, Evict, OldestGone;
    EvictUntilFitsKeepsInv(s, fid, n, max, now);
    if s.bytes + n <= max {
      OwnWithinAll(s, fid);
      NothingGone(s, fid, n, max);
    } else {
      match Oldest(s.buffers, {fid})
      case Some(victim) =>
        EvictKeepsInv(s, victim, now);
        EvictExactly(s, victim, now);
        var u := Evict(s, victim, now);
        MakesRoomExactly(u, fid, n, max, now);
        var (t, fits) := EvictUntilFits(u, fid, n, max, now);
        if fits {
          EvictUntilFitsKeepsInv(u, fid, n, max, now);
          OneMoreGone(s, u, t, fid, n, max, victim);
        }
      case None =>
        OnlyOwn(s, fid);
        EvictKeepsInv(s, fid, now);
        EvictExactly(s, fid, now);
        assert s.buffers - {fid} == map[];
    }
  }

  lemma OwnWithinAll(s: State, fid: FragmentId)
    requires Inv(s)
    ensures fid in s.buffers ==> s.buffers[fid].size <= s.bytes
  {
    if fid in s.buffers { SumRemove(s.buffers, SizeOf, fid); }
  }

  lemma OnlyOwn(s: State, fid: FragmentId)
    requires Inv(s) && s.buffers.Keys - {fid} == {}
    ensures s.bytes == if fid in s.buffers then s.buffers[fid].size else 0
  {
    if fid in s.buffers {
      SumRemove(s.buffers, SizeOf, fid);
      assert s.buffers - {fid} == map[];
    } else {
      OwnBytesOnly(s, fid);
    }
  }

  lemma NothingGone(s: State, fid: FragmentId, n: nat, max: nat)
    ensures OldestGone(s, s, fid, n, max)
  {
  }

  lemma OneMoreGone(s: State, u: State, t: State, fid: FragmentId, n: nat, max: nat, victim: FragmentId)
    requires IsOldest(s.buffers, {fid}, victim) && u.buffers == s.buffers - {victim}
    requires BuffersOk(s.buffers, s.cfg, s.nextOrder)
    requires u.bytes == s.bytes - s.buffers[victim].size && s.bytes + n > max
    requires Shrunk(u, t) && OldestGone(u, t, fid, n, max) && (t.buffers == u.buffers ==> t.bytes == u.bytes)
    ensures OldestGone(s, t, fid, n, max)
  {
    hide PartialOk;
    assert victim !in t.buffers;
    OldestGoesFirst(s, u, t, fid, victim);
    hide IsOldest, BuffersOk;
    if t.buffers == u.buffers {
      assert t.bytes + s.buffers[victim].size + n > max;
    } else {
      var v :| v in u.buffers && v !in t.buffers && t.bytes + u.buffers[v].size + n > max;
      assert v in s.buffers && t.bytes + s.buffers[v].size + n > max;
    }
  }

  lemma OldestGoesFirst(s: State, u: State, t: State, fid: FragmentId, victim: FragmentId)
    requires IsOldest(s.buffers, {fid}, victim) && u.buffers == s.buffers - {victim}
    requires BuffersOk(s.buffers, s.cfg, s.nextOrder)
    requires Shrunk(u, t) && InOrder(u, t, fid)
    ensures InOrder(s, t, fid)
  {
    hide PartialOk;
    forall j, k | k in s.buffers && k !in t.buffers && j in s.buffers && j in t.buffers && j != fid
      ensures s.buffers[k].order < s.buffers[j].order
    {
      if k != victim { assert k in u.buffers && j in u.buffers; }
    }
  }

  // ---- What a chunk does

  /** A chunk of a message given up less than the timeout ago is dropped. */
  lemma EvictedStaysOut(s: State, raw: seq<byte>, now: Instant)
    requires ParseChunk(raw).Some? && ParseChunk(raw).value.total <= s.cfg.maxFragments
    requires ParseChunk(raw).value.fid in Gc(s, now).evicted
    ensures Feed(s, raw, now) == (Gc(s, now), None)
  {
    hide Gc, ParseChunk;
  }

  /** A chunk that declares more parts than the limit has no effect at all, not even expiry. */
  lemma TooManyParts(s: State, raw: seq<byte>, now: Instant)
    requires ParseChunk(raw).None? || ParseChunk(raw).value.total > s.cfg.maxFragments
    ensures Feed(s, raw, now) == (s, None)
  {
  }

  /** A message of one chunk is given back at once, whatever its size, and nothing is stored. */
  lemma SingleGivenBack(s: State, raw: seq<byte>, now: Instant)
    requires ParseChunk(raw).Some? && ParseChunk(raw).value.total == 1 <= s.cfg.maxFragments
    requires ParseChunk(raw).value.fid !in Gc(s, now).evicted && ParseChunk(raw).value.fid !in Gc(s, now).buffers
    ensures Feed(s, raw, now) == (Gc(s, now), Some(ParseChunk(raw).value.data))
  {
    hide Gc, ParseChunk;
  }

  /** A message held with another part count than the chunk declares. */
  ghost predicate Disagrees(g: State, c: Chunk)
  {
    c.fid !in g.evicted && c.fid in g.buffers && g.buffers[c.fid].total != c.total
  }

  /** A chunk of a longer message above the payload limit is never stored. */
  lemma OversizeDropped(s: State, raw: seq<byte>, now: Instant)
    requires ParseChunk(raw).Some? && 1 < ParseChunk(raw).value.total <= s.cfg.maxFragments
    requires |ParseChunk(raw).value.data| > Gc(s, now).cfg.maxChunkPayload
    ensures var g, c := Gc(s, now), ParseChunk(raw).value;
            var (t, out) := Feed(s, raw, now);
            && out.None? && t.evicted == g.evicted
            && t.buffers == g.buffers - (if Disagrees(g, c) then {c.fid} else {})
  {
    hide Gc, ParseChunk;
    assert Gc(s, now).buffers - {} == Gc(s, now).buffers;
  }

  /** The parts a chunk joins: those its message has, if they were counted for the same total. */
  ghost function Base(g: State, c: Chunk): map<nat, Payload>
  {
    if c.fid in g.buffers && g.buffers[c.fid].total == c.total then g.buffers[c.fid].parts else map[]
  }

  /** A new chunk of a longer message that fits beside everything held. */
  ghost predicate Welcome(g: State, c: Chunk)
  {
    && c.index < c.total && 1 < c.total <= g.cfg.maxFragments && |c.data| <= g.cfg.maxChunkPayload
    && c.fid !in g.evicted && c.index !in Base(g, c)
    && (g.cfg.maxBytes.Some? ==> g.bytes + |c.data| <= g.cfg.maxBytes.value)
  }

  /** The message comes out when the chunk makes it whole; otherwise all of it is kept. */
  ghost predicate Joined(g: State, c: Chunk, t: State, out: Option<Payload>)
  {
    var parts := Base(g, c)[c.index := c.data];
    if parts.Keys == Below(c.total) then out == Some(Concat(parts, c.total)) && c.fid !in t.buffers
    else
      && out.None? && c.fid in t.buffers && t.buffers[c.fid].parts == parts && t.buffers[c.fid].total == c.total
  }

  /** A message that is new at the count limit. */
  ghost predicate Crowded(g: State, c: Chunk)
  {
    c.fid !in g.buffers && |g.buffers| >= g.cfg.limit
  }

  /** Other messages are untouched, except that a new one at the count limit takes the place of the oldest, whose id is
      then remembered. */
  ghost predicate OthersKept(g: State, c: Chunk, t: State)
  {
    if Crowded(g, c) then
      exists v :: IsOldest(g.buffers, {}, v) && v in t.evicted && t.buffers - {c.fid} == g.buffers - {v}
    else t.buffers - {c.fid} == g.buffers - {c.fid} && t.evicted == g.evicted
  }

  lemma ResetEffect(g: State, c: Chunk)
    requires Inv(g) && Welcome(g, c)
    ensures var r := ResetMismatch(g, c);
            && Inv(r) && Storable(r, c) && r.buffers - {c.fid} == g.buffers - {c.fid} && r.evicted == g.evicted
            && r.cfg == g.cfg && r.bytes >= 0 && (c.fid !in g.buffers ==> r == g)
            && (c.fid in r.buffers ==> r.buffers[c.fid].parts == Base(g, c))
            && (c.fid !in r.buffers ==> Base(g, c) == map[] && (c.fid in g.buffers ==> |r.buffers| < r.cfg.limit))
  {
    hide BuffersOk, MemoryOk, Sum;
    if c.fid in g.buffers && g.buffers[c.fid].total != c.total {
      DropKeepsInv(g, c.fid);
      OwnWithinAll(g, c.fid);
    }
  }

  lemma FeedStores(s: State, raw: seq<byte>, c: Chunk, now: Instant)
    requires ParseChunk(raw) == Some(c) && c.total <= s.cfg.maxFragments && Inv(Gc(s, now)) && Welcome(Gc(s, now), c)
    ensures Feed(s, raw, now) == Store(ResetMismatch(Gc(s, now), c), c, now)
  {
    hide Gc, ParseChunk, Store, Inv, ResetMismatch, Base;
    var r := ResetMismatch(Gc(s, now), c);
    ResetEffect(Gc(s, now), c);
    AdmitWelcomes(r, c, now);
    hide Admit, Welcome, Storable;
  }

  lemma AdmitWelcomes(r: State, c: Chunk, now: Instant)
    requires Storable(r, c) && r.bytes >= 0 && 1 < c.total && |c.data| <= r.cfg.maxChunkPayload
    ensures Admit(r, c, now) == Store(r, c, now)
  {
    hide Store;
  }

  lemma RoomEffect(g: State, c: Chunk, now: Instant)
    requires Inv(g) && Welcome(g, c)
    ensures var r := ResetMismatch(g, c);
            var q := RoomForOne(r, c, now);
            && Inv(q) && Storable(q, c) && RoomForOne(q, c, now) == q
            && (c.fid in q.buffers ==> q.buffers[c.fid].parts == Base(g, c))
            && (c.fid !in q.buffers ==> Base(g, c) == map[])
            && (!Crowded(g, c) ==> q == r) && (Crowded(g, c) ==> OthersKept(g, c, q) && c.fid !in q.buffers)
  {
    ResetEffect(g, c);
    var r := ResetMismatch(g, c);
    RoomForOneKeepsInv(r, c, now);
    if Crowded(g, c) { CrowdedRoom(g, c, now); }
    hide Inv, Evict, Storable, Base, Welcome, OthersKept, Oldest;
  }

  lemma CrowdedRoom(g: State, c: Chunk, now: Instant)
    requires Inv(g) && Crowded(g, c)
    ensures OthersKept(g, c, RoomForOne(g, c, now)) && c.fid !in RoomForOne(g, c, now).buffers
  {
    assert g.cfg.limit >= 1 && |g.buffers| >= 1;
    hide Inv, Evict, IsOldest, EVICTED_MEMORY, OthersKept;
    assert g.buffers.Keys != {} && g.buffers.Keys - {} == g.buffers.Keys;
    var v := Oldest(g.buffers, {}).value;
    OldestIsHeld(g.buffers, v);
    EvictExactly(g, v, now);
    var q := Evict(g, v, now);
    assert RoomForOne(g, c, now) == q;
    hide RoomForOne, Oldest;
    PlaceTaken(g, c, q, v);
  }

  lemma PlaceTaken(g: State, c: Chunk, q: State, v: FragmentId)
    requires Crowded(g, c) && IsOldest(g.buffers, {}, v) && q.buffers == g.buffers - {v} && v in q.evicted
    ensures OthersKept(g, c, q) && c.fid !in q.buffers
  {
    hide IsOldest;
    assert q.buffers - {c.fid} == g.buffers - {v};
  }

  lemma OldestIsHeld(buffers: map<FragmentId, Partial>, v: FragmentId)
    requires IsOldest(buffers, {}, v)
    ensures v in buffers
  {
  }

  /** A chunk that is new and fits joins its message, wherever the reassembler is. */
  lemma ChunkJoins(s: State, raw: seq<byte>, now: Instant)
    requires Inv(s) && ParseChunk(raw).Some? && ParseChunk(raw).value.total <= s.cfg.maxFragments
    requires Welcome(Gc(s, now), ParseChunk(raw).value)
    ensures var g, c := Gc(s, now), ParseChunk(raw).value;
            var (t, out) := Feed(s, raw, now);
            Joined(g, c, t, out) && OthersKept(g, c, t)
  {
    hide Gc, ParseChunk, Inv, Welcome;
    GcKeepsInv(s, now);
    var g, c := Gc(s, now), ParseChunk(raw).value;
    FeedStores(s, raw, c, now);
    StoreJoins(g, c, now);
    hide Feed, Store, Joined, OthersKept, ResetMismatch;
  }

  lemma StoreJoins(g: State, c: Chunk, now: Instant)
    requires Inv(g) && Welcome(g, c)
    ensures var (t, out) := Store(ResetMismatch(g, c), c, now);
            Joined(g, c, t, out) && OthersKept(g, c, t)
  {
    hide Inv, Welcome, Storable, RoomForOne, Concat, OthersKept, Joined, Base, Crowded, Landing, Grown, Below, Store;
    var r := ResetMismatch(g, c);
    ResetEffect(g, c);
    RoomEffect(g, c, now);
    hide ResetMismatch;
    var q := RoomForOne(r, c, now);
    StoreRooms(r, c, now);
    StoreOpensOrGrows(q, c, now);
    LandsOn(q, c, now, Base(g, c));
    var (t, out) := Store(q, c, now);
    JoinedBy(g, c, q, Grown(Landing(q, c, now), c), t, out);
    KeptBy(g, c, r, q, t);
  }

  lemma StoreRooms(r: State, c: Chunk, now: Instant)
    requires RoomForOne(RoomForOne(r, c, now), c, now) == RoomForOne(r, c, now)
    ensures Store(r, c, now) == Store(RoomForOne(r, c, now), c, now)
  {
    hide RoomForOne, Complete, AddPart;
  }

  lemma LandsOn(q: State, c: Chunk, now: Instant, base: map<nat, Payload>)
    requires Storable(q, c) && base == if c.fid in q.buffers then q.buffers[c.fid].parts else map[]
    ensures var p := Grown(Landing(q, c, now), c); p.parts == base[c.index := c.data] && p.total == c.total
  {
  }

  lemma JoinedBy(g: State, c: Chunk, q: State, p: Partial, t: State, out: Option<Payload>)
    requires p.parts == Base(g, c)[c.index := c.data] && p.total == c.total
    requires if p.parts.Keys == Below(p.total)
             then out == Some(Concat(p.parts, p.total)) && t.buffers == q.buffers - {c.fid}
             else out == None && t.buffers == q.buffers[c.fid := p]
    ensures Joined(g, c, t, out) && t.buffers - {c.fid} == q.buffers - {c.fid}
  {
    hide Concat, Base, Below;
  }

  lemma KeptBy(g: State, c: Chunk, r: State, q: State, t: State)
    requires t.buffers - {c.fid} == q.buffers - {c.fid} && t.evicted == q.evicted
    requires if Crowded(g, c) then OthersKept(g, c, q)
             else q == r && r.buffers - {c.fid} == g.buffers - {c.fid} && r.evicted == g.evicted
    ensures OthersKept(g, c, t)
  {
    hide IsOldest, Crowded;
  }
}
