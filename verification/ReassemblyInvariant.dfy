/** What every reachable reassembler satisfies, whatever bytes it is fed and whenever. */
module ReassemblyInvariant {
  import opened BigEndian
  import opened Fragments
  import opened Sums
  import opened Reassembly

  /** An incomplete message: some but not all of its parts, and an exact byte count. */
  ghost predicate PartialOk(p: Partial, cfg: Config, nextOrder: nat)
  {
    && p.parts.Keys <= Below(p.total)
    && 0 < |p.parts| < p.total <= cfg.maxFragments
    && p.size == Sum(p.parts, LengthOf)
    && p.order < nextOrder
  }

  ghost predicate BuffersOk(buffers: map<FragmentId, Partial>, cfg: Config, nextOrder: nat)
  {
    && (forall k :: k in buffers ==> PartialOk(buffers[k], cfg, nextOrder))
    && (forall j, k :: j in buffers && k in buffers && j != k ==> buffers[j].order != buffers[k].order)
  }

  /** The eviction map and its queue hold the same ids, once each, with the same instants. */
  ghost predicate MemoryOk(evicted: map<FragmentId, Instant>, order: seq<(FragmentId, Instant)>)
  {
    && (forall i, j :: 0 <= i < j < |order| ==> order[i].0 != order[j].0)
    && (forall i :: 0 <= i < |order| ==> order[i].0 in evicted && evicted[order[i].0] == order[i].1)
    && (forall k :: k in evicted ==> exists i :: 0 <= i < |order| && order[i].0 == k)
  }

  ghost predicate WithinBudget(s: State)
  {
    s.cfg.maxBytes.Some? ==> s.bytes <= s.cfg.maxBytes.value
  }

  ghost predicate Inv(s: State)
  {
    && ValidConfig(s.cfg)
    && BuffersOk(s.buffers, s.cfg, s.nextOrder)
    && s.bytes == Sum(s.buffers, SizeOf)
    && WithinBudget(s)
    && |s.buffers| <= s.cfg.limit
    && s.buffers.Keys !! s.evicted.Keys
    && MemoryOk(s.evicted, s.evictedOrder)
    && |s.evicted| <= EVICTED_MEMORY
  }

  /** `t` still holds a partial of `s` unchanged, or has dropped it. */
  ghost predicate Shrunk(s: State, t: State)
  {
    && t.cfg == s.cfg && t.nextOrder == s.nextOrder
    && t.buffers.Keys <= s.buffers.Keys
    && forall k :: k in t.buffers ==> t.buffers[k] == s.buffers[k]
  }

  // ---- Eviction memory

  lemma PopKeepsMemory(s: State)
    requires MemoryOk(s.evicted, s.evictedOrder) && s.evictedOrder != []
    ensures MemoryOk(PopEvicted(s).evicted, PopEvicted(s).evictedOrder)
    ensures PopEvicted(s).evicted == s.evicted - {s.evictedOrder[0].0}
  {
    var t := PopEvicted(s);
    forall k | k in t.evicted
      ensures exists i :: 0 <= i < |t.evictedOrder| && t.evictedOrder[i].0 == k
    {
      var i :| 0 <= i < |s.evictedOrder| && s.evictedOrder[i].0 == k;
      assert t.evictedOrder[i - 1].0 == k;
    }
  }

  lemma {:induction false} TrimKeepsMemory(s: State)
    requires MemoryOk(s.evicted, s.evictedOrder)
    ensures var t := TrimEvicted(s);
            && MemoryOk(t.evicted, t.evictedOrder)
            && |t.evicted| <= EVICTED_MEMORY
            && t.evicted.Keys <= s.evicted.Keys
    decreases |s.evictedOrder|
  {
    if s.evictedOrder == [] {
      assert s.evicted.Keys == {};
    } else if |s.evicted| > EVICTED_MEMORY {
      PopKeepsMemory(s);
      TrimKeepsMemory(PopEvicted(s));
    }
  }

  lemma {:induction false} ForgetKeepsMemory(s: State, now: Instant)
    requires MemoryOk(s.evicted, s.evictedOrder)
    ensures var t := ForgetExpired(s, now);
            && MemoryOk(t.evicted, t.evictedOrder)
            && t.evicted.Keys <= s.evicted.Keys && |t.evicted| <= |s.evicted|
            && t == s.(evicted := t.evicted, evictedOrder := t.evictedOrder)
    decreases |s.evictedOrder|
  {
    if s.evictedOrder != [] && Expired(s.cfg, s.evictedOrder[0].1, now) {
      PopKeepsMemory(s);
      var p := PopEvicted(s);
      assert p.evicted.Keys == s.evicted.Keys - {s.evictedOrder[0].0};
      ForgetKeepsMemory(p, now);
    }
  }

  lemma RememberKeepsMemory(s: State, fid: FragmentId, now: Instant)
    requires MemoryOk(s.evicted, s.evictedOrder) && fid !in s.evicted
    ensures MemoryOk(Remember(s, fid, now).evicted, Remember(s, fid, now).evictedOrder)
  {
    var t := Remember(s, fid, now);
    assert t.evictedOrder[|s.evictedOrder|] == (fid, now);
    forall k | k in t.evicted
      ensures exists i :: 0 <= i < |t.evictedOrder| && t.evictedOrder[i].0 == k
    {
      if k != fid {
        var i :| 0 <= i < |s.evictedOrder| && s.evictedOrder[i].0 == k;
        assert t.evictedOrder[i].0 == k;
      }
    }
  }

  // ---- Dropping and evicting

  lemma BuffersShrink(s: map<FragmentId, Partial>, t: map<FragmentId, Partial>, cfg: Config, nextOrder: nat)
    requires BuffersOk(s, cfg, nextOrder)
    requires t.Keys <= s.Keys && forall k :: k in t ==> t[k] == s[k]
    ensures BuffersOk(t, cfg, nextOrder)
  {
    hide PartialOk;
  }

  lemma DropKeepsInv(s: State, fid: FragmentId)
    requires Inv(s) && fid in s.buffers
    ensures Inv(DropPartial(s, fid)) && Shrunk(s, DropPartial(s, fid))
    ensures |DropPartial(s, fid).buffers| == |s.buffers| - 1
  {
    hide BuffersOk, MemoryOk, Sum, ValidConfig;
    var t := DropPartial(s, fid);
    BuffersShrink(s.buffers, t.buffers, s.cfg, s.nextOrder);
    SumRemove(s.buffers, SizeOf, fid);
    assert t.buffers.Keys == s.buffers.Keys - {fid};
  }

  lemma EvictKeepsInv(s: State, fid: FragmentId, now: Instant)
    requires Inv(s) && fid in s.buffers
    ensures Inv(Evict(s, fid, now)) && Shrunk(s, Evict(s, fid, now))
    ensures |Evict(s, fid, now).buffers| == |s.buffers| - 1
    ensures Evict(s, fid, now).evicted.Keys <= s.evicted.Keys + {fid}
  {
    hide BuffersOk, MemoryOk, Sum, ValidConfig, TrimEvicted;
    DropKeepsInv(s, fid);
    var d := DropPartial(s, fid);
    RememberKeepsMemory(d, fid, now);
    var m := Remember(d, fid, now);
    TrimKeepsMemory(m);
    TrimKeepsBuffers(m);
    assert m.evicted.Keys == d.evicted.Keys + {fid};
  }

  /** With no other message buffered, any bytes held are this message's own. */
  lemma OwnBytesOnly(s: State, fid: FragmentId)
    requires Inv(s) && s.buffers.Keys - {fid} == {}
    ensures fid !in s.buffers ==> s.bytes == 0
  {
    if fid !in s.buffers {
      assert s.buffers.Keys == s.buffers.Keys - {fid};
    }
  }

  lemma {:induction false} EvictUntilFitsKeepsInv(s: State, fid: FragmentId, n: nat, max: nat, now: Instant)
    requires Inv(s) && s.cfg.maxBytes == Some(max) && n <= max && fid !in s.evicted
    ensures var (t, fits) := EvictUntilFits(s, fid, n, max, now);
            && Inv(t) && Shrunk(s, t)
            && (fits ==> t.bytes + n <= max && fid !in t.evicted && (fid in t.buffers <==> fid in s.buffers))
            && (!fits ==> fid !in t.buffers)
    decreases |s.buffers|
  {
    hide BuffersOk, MemoryOk, Sum, ValidConfig, Evict;
    if s.bytes + n > max {
      match Oldest(s.buffers, {fid})
      case Some(victim) =>
        EvictKeepsInv(s, victim, now);
        EvictUntilFitsKeepsInv(Evict(s, victim, now), fid, n, max, now);
      case None =>
        OwnBytesOnly(s, fid);
        EvictKeepsInv(s, fid, now);
    }
  }

  lemma MakeRoomKeepsInv(s: State, fid: FragmentId, n: nat, now: Instant)
    requires Inv(s) && fid !in s.evicted
    ensures var (t, fits) := MakeRoom(s, fid, n, now);
            && Inv(t) && Shrunk(s, t)
            && (fits ==> fid !in t.evicted && (fid in t.buffers <==> fid in s.buffers))
            && (fits && t.cfg.maxBytes.Some? ==> t.bytes + n <= t.cfg.maxBytes.value)
  {
    hide BuffersOk, MemoryOk;
    match s.cfg.maxBytes
    case None =>
    case Some(max) => if n <= max { EvictUntilFitsKeepsInv(s, fid, n, max, now); }
  }

  // ---- Expiry

  lemma DropStaleKeepsInv(s: State, now: Instant)
    requires Inv(s)
    ensures Inv(DropStale(s, now)) && Shrunk(s, DropStale(s, now))
    ensures DropStale(s, now).evicted == s.evicted
  {
    hide BuffersOk, MemoryOk, Sum, ValidConfig, StaleIds, Restrict;
    var stale := StaleIds(s, now);
    RemovalShrinks(s.buffers, stale);
    BuffersShrink(s.buffers, s.buffers - stale, s.cfg, s.nextOrder);
    SumSplit(s.buffers, SizeOf, stale);
  }

  lemma RemovalShrinks(m: map<FragmentId, Partial>, gone: set<FragmentId>)
    ensures (m - gone).Keys <= m.Keys && |m - gone| <= |m|
    ensures forall k :: k in m - gone ==> (m - gone)[k] == m[k]
  {
    SubsetCard((m - gone).Keys, m.Keys);
  }

  lemma GcKeepsInv(s: State, now: Instant)
    requires Inv(s)
    ensures Inv(Gc(s, now)) && Shrunk(s, Gc(s, now))
    ensures Gc(s, now).evicted.Keys <= s.evicted.Keys
  {
    hide BuffersOk, MemoryOk, Sum, ValidConfig, DropStale;
    ForgetKeepsMemory(s, now);
    DropStaleKeepsInv(ForgetExpired(s, now), now);
  }

  // ---- Storing a part

  /** `c` may go into `s`: it fits, its id is not evicted, and it is a new index of a matching partial. */
  ghost predicate Storable(s: State, c: Chunk)
  {
    && c.index < c.total <= s.cfg.maxFragments
    && (s.cfg.maxBytes.Some? ==> s.bytes + |c.data| <= s.cfg.maxBytes.value)
    && c.fid !in s.evicted
    && (c.fid in s.buffers ==> s.buffers[c.fid].total == c.total && c.index !in s.buffers[c.fid].parts)
    && (c.fid !in s.buffers ==> c.total > 1)
  }

  lemma RoomForOneKeepsInv(s: State, c: Chunk, now: Instant)
    requires Inv(s) && Storable(s, c)
    ensures var t := RoomForOne(s, c, now);
            && Inv(t) && Shrunk(s, t) && Storable(t, c)
            && (c.fid in t.buffers <==> c.fid in s.buffers)
            && (c.fid !in t.buffers ==> |t.buffers| < t.cfg.limit)
  {
    hide BuffersOk, MemoryOk;
    if c.fid !in s.buffers && |s.buffers| >= s.cfg.limit {
      assert s.buffers.Keys - {} == s.buffers.Keys;
      var victim := Oldest(s.buffers, {}).value;
      EvictKeepsInv(s, victim, now);
      SumRemove(s.buffers, SizeOf, victim);
    }
  }

  lemma GrownPartial(p: Partial, c: Chunk)
    requires p.parts.Keys <= Below(p.total) && p.total == c.total && c.index < c.total && c.index !in p.parts
    requires p.size == Sum(p.parts, LengthOf)
    ensures Grown(p, c).parts.Keys <= Below(p.total)
    ensures |Grown(p, c).parts| == |p.parts| + 1
    ensures Grown(p, c).size == Sum(Grown(p, c).parts, LengthOf)
    ensures |Grown(p, c).parts| == p.total <==> Grown(p, c).parts.Keys == Below(p.total)
  {
    var g := Grown(p, c);
    SumInsert(p.parts, LengthOf, c.index, c.data);
    assert g.parts.Keys == p.parts.Keys + {c.index};
    FullIndexSet(g.parts.Keys, p.total);
  }

  /** The landing partial after `c` has joined it is consistent, and full exactly when handed out. */
  lemma LandingGrows(s: State, c: Chunk, now: Instant)
    requires BuffersOk(s.buffers, s.cfg, s.nextOrder) && Storable(s, c)
    ensures var p := Landing(s, c, now);
            var g := Grown(p, c);
            && g.parts.Keys <= Below(g.total) && 0 < |g.parts| <= g.total == c.total
            && g.size == Sum(g.parts, LengthOf)
            && (|g.parts| == g.total <==> g.parts.Keys == Below(g.total))
            && (|g.parts| == g.total ==> c.fid in s.buffers)
  {
    GrownPartial(Landing(s, c, now), c);
    FullIndexSet(Grown(Landing(s, c, now), c).parts.Keys, c.total);
  }

  lemma AddPartKeepsSum(s: State, c: Chunk, now: Instant)
    requires s.bytes == Sum(s.buffers, SizeOf)
    ensures AddPart(s, c, now).bytes == Sum(AddPart(s, c, now).buffers, SizeOf)
  {
    SumUpdate(s.buffers, SizeOf, c.fid, Grown(Landing(s, c, now), c));
    if c.fid in s.buffers {
      SumRemove(s.buffers, SizeOf, c.fid);
    } else {
      assert s.buffers - {c.fid} == s.buffers;
    }
  }

  lemma AddPartKeepsBuffers(s: State, c: Chunk, now: Instant)
    requires BuffersOk(s.buffers, s.cfg, s.nextOrder) && Storable(s, c)
    requires |Grown(Landing(s, c, now), c).parts| < c.total
    ensures BuffersOk(AddPart(s, c, now).buffers, s.cfg, AddPart(s, c, now).nextOrder)
  {
    LandingGrows(s, c, now);
  }

  /** Adding a part: everything of `Inv` holds again, unless that part was the last. */
  lemma AddPartKeepsInv(s: State, c: Chunk, now: Instant)
    requires Inv(s) && Storable(s, c) && (c.fid !in s.buffers ==> |s.buffers| < s.cfg.limit)
    requires |Grown(Landing(s, c, now), c).parts| < c.total
    ensures Inv(AddPart(s, c, now))
  {
    hide MemoryOk, BuffersOk, Grown, Sum;
    AddPartKeepsSum(s, c, now);
    AddPartKeepsBuffers(s, c, now);
    assert AddPart(s, c, now).buffers.Keys == s.buffers.Keys + {c.fid};
    if c.fid in s.buffers {
      assert s.buffers.Keys + {c.fid} == s.buffers.Keys;
    }
  }

  lemma CompleteKeepsInv(s: State, c: Chunk, now: Instant)
    requires Inv(s) && c.fid in s.buffers
    ensures Inv(DropPartial(AddPart(s, c, now), c.fid))
    ensures DropPartial(AddPart(s, c, now), c.fid) == DropPartial(s, c.fid)
  {
    hide BuffersOk, MemoryOk, Sum, ValidConfig;
    DropKeepsInv(s, c.fid);
    assert AddPart(s, c, now).buffers - {c.fid} == s.buffers - {c.fid};
  }

  lemma StoreKeepsInv(s: State, c: Chunk, now: Instant)
    requires Inv(s) && Storable(s, c)
    ensures Inv(Store(s, c, now).0)
  {
    hide BuffersOk, MemoryOk, ValidConfig, Sum, RoomForOne, Storable, Landing, Grown;
    RoomForOneKeepsInv(s, c, now);
    var r := RoomForOne(s, c, now);
    LandingGrows(r, c, now);
    if |Grown(Landing(r, c, now), c).parts| == c.total {
      CompleteKeepsInv(r, c, now);
    } else {
      AddPartKeepsInv(r, c, now);
    }
  }

  // ---- The whole of `feed`

  lemma AdmitKeepsInv(s: State, c: Chunk, now: Instant)
    requires Inv(s) && c.fid !in s.evicted && c.index < c.total <= s.cfg.maxFragments
    requires c.fid in s.buffers ==> s.buffers[c.fid].total == c.total
    ensures Inv(Admit(s, c, now).0)
  {
    hide BuffersOk, MemoryOk, MakeRoom, Store;
    MakeRoomKeepsInv(s, c.fid, |c.data|, now);
    var (s1, fits) := MakeRoom(s, c.fid, |c.data|, now);
    if !(c.fid in s.buffers && c.index in s.buffers[c.fid].parts)
       && !(c.fid !in s.buffers && c.total == 1)
       && |c.data| <= s.cfg.maxChunkPayload && fits {
      StoreKeepsInv(s1, c, now);
    }
  }

  /** Any bytes at any instant leave a well-formed reassembler well-formed. */
  lemma FeedKeepsInv(s: State, raw: seq<byte>, now: Instant)
    requires Inv(s)
    ensures Inv(Feed(s, raw, now).0)
    ensures Feed(s, raw, now).0.cfg == s.cfg
  {
    hide BuffersOk, MemoryOk, Gc, Admit;
    match ParseChunk(raw)
    case None =>
    case Some(c) =>
      if c.total <= s.cfg.maxFragments {
        GcKeepsInv(s, now);
        var g := Gc(s, now);
        if c.fid !in g.evicted {
          if c.fid in g.buffers { DropKeepsInv(g, c.fid); }
          AdmitKeepsInv(ResetMismatch(g, c), c, now);
          FeedKeepsConfig(ResetMismatch(g, c), c, now);
        }
      }
  }

  lemma FeedKeepsConfig(s: State, c: Chunk, now: Instant)
    requires Inv(s) && c.fid !in s.evicted
    ensures Admit(s, c, now).0.cfg == s.cfg
  {
    hide Inv, Oldest;
    MakeRoomKeepsInv(s, c.fid, |c.data|, now);
  }

  // ---- Whole runs

  datatype Input = Input(raw: seq<byte>, now: Instant)

  /** Feed a whole sequence of payloads, collecting the answer to each. */
  ghost function FeedAll(s: State, inputs: seq<Input>): (r: (State, seq<Option<Payload>>))
    ensures |r.1| == |inputs|
  {
    if inputs == [] then (s, [])
    else
      var (t, outs) := FeedAll(s, inputs[..|inputs| - 1]);
      var (u, out) := Feed(t, inputs[|inputs| - 1].raw, inputs[|inputs| - 1].now);
      (u, outs + [out])
  }

  /** Every reachable reassembler: exact accounting, both limits, and a consistent eviction memory. */
  lemma {:induction false} ReachableInv(cfg: Config, inputs: seq<Input>)
    requires ValidConfig(cfg)
    ensures Inv(FeedAll(Fresh(cfg), inputs).0)
    ensures FeedAll(Fresh(cfg), inputs).0.cfg == cfg
  {
    if inputs != [] {
      ReachableInv(cfg, inputs[..|inputs| - 1]);
      var last := inputs[|inputs| - 1];
      FeedKeepsInv(FeedAll(Fresh(cfg), inputs[..|inputs| - 1]).0, last.raw, last.now);
    }
  }
}
