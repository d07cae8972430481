/** The mutable reassembler: `feed` and its helpers, step by step, against the transitions in `Reassembly`. */
module ReassemblerObject {
  import opened BigEndian
  import opened Fragments
  import opened Sums
  import Spec = Reassembly
  import opened ReassemblyInvariant

  /** A partial with as many parts as its total has every part. */
  lemma FullWhenCounted(s: Spec.State, c: Chunk, now: Spec.Instant)
    requires Inv(s) && Storable(s, c)
    ensures var g := Spec.Grown(Spec.Landing(s, c, now), c);
            |g.parts| == g.total ==> forall i: nat :: i < g.total ==> i in g.parts
  {
    LandingGrows(s, c, now);
  }

  class Reassembler {
    const cfg: Spec.Config
    var buffers: map<FragmentId, Spec.Partial>
    var bytes: int
    var evicted: map<FragmentId, Spec.Instant>
    var evictedOrder: seq<(FragmentId, Spec.Instant)>
    var nextOrder: nat

    ghost function Value(): Spec.State
      reads this
    {
      Spec.State(cfg, buffers, bytes, evicted, evictedOrder, nextOrder)
    }

    constructor ForChunkSize(chunkSize: nat)
      ensures Value() == Spec.ForChunkSize(chunkSize) && Inv(Value())
    {
      cfg := Spec.ChunkSizeConfig(chunkSize);
      buffers, bytes, evicted, evictedOrder, nextOrder := map[], 0, map[], [], 0;
    }

    /** The first-arrived partial outside `exclude`; unique, because arrival orders are. */
    method Oldest(exclude: set<FragmentId>) returns (r: Option<FragmentId>)
      requires BuffersOk(buffers, cfg, nextOrder)
      ensures r == Spec.Oldest(buffers, exclude)
    {
      var todo := buffers.Keys - exclude;
      r := None;
      while todo != {}
        invariant todo <= buffers.Keys - exclude
        invariant r.None? ==> todo == buffers.Keys - exclude
        invariant r.Some? ==> r.value in buffers.Keys - exclude - todo
        invariant r.Some? ==> forall k :: k in buffers.Keys - exclude - todo ==>
            buffers[r.value].order <= buffers[k].order
        decreases todo
      {
        var k :| k in todo;
        if r.None? || buffers[k].order < buffers[r.value].order {
          r := Some(k);
        }
        todo := todo - {k};
      }
      if r.Some? {
        assert Spec.IsOldest(buffers, exclude, r.value);
        assert Spec.IsOldest(buffers, exclude, Spec.Oldest(buffers, exclude).value);
      }
    }

    method DropPartial(fid: FragmentId)
      modifies this`buffers, this`bytes
      ensures Value() == Spec.DropPartial(old(Value()), fid)
    {
      if fid in buffers {
        bytes := bytes - buffers[fid].size;
        buffers := buffers - {fid};
      } else {
        assert buffers - {fid} == buffers;
      }
    }

    method PopEvicted()
      requires evictedOrder != []
      modifies this`evicted, this`evictedOrder
      ensures Value() == Spec.PopEvicted(old(Value()))
    {
      var (fid, at) := evictedOrder[0];
      evictedOrder := evictedOrder[1..];
      if fid in evicted && evicted[fid] == at {
        evicted := evicted - {fid};
      }
    }

    method Evict(fid: FragmentId, now: Spec.Instant)
      modifies this`buffers, this`bytes, this`evicted, this`evictedOrder
      ensures Value() == Spec.Evict(old(Value()), fid, now)
    {
      DropPartial(fid);
      evicted := evicted[fid := now];
      evictedOrder := evictedOrder + [(fid, now)];
      while |evicted| > Spec.EVICTED_MEMORY && evictedOrder != []
        invariant Spec.TrimEvicted(Value()) == Spec.Evict(old(Value()), fid, now)
        decreases |evictedOrder|
      {
        PopEvicted();
      }
    }

    method DropStale(now: Spec.Instant)
      modifies this`buffers, this`bytes
      ensures Value() == Spec.DropStale(old(Value()), now)
    {
      ghost var s := Value();
      var stale := set k | k in buffers && Spec.Expired(cfg, buffers[k].firstSeen, now);
      var todo := stale;
      while todo != {}
        invariant todo <= stale && stale == Spec.StaleIds(s, now)
        invariant Value() == s.(buffers := s.buffers - (stale - todo), bytes := bytes)
        invariant bytes == s.bytes - Sum(Restrict(s.buffers, stale - todo), Spec.SizeOf)
        decreases todo
      {
        var k :| k in todo;
        ghost var done := stale - todo;
        assert k in s.buffers && k !in done;
        SumInsert(Restrict(s.buffers, done), Spec.SizeOf, k, s.buffers[k]);
        assert Restrict(s.buffers, done)[k := s.buffers[k]] == Restrict(s.buffers, done + {k});
        DropPartial(k);
        todo := todo - {k};
        assert stale - todo == done + {k};
        assert s.buffers - done - {k} == s.buffers - (done + {k});
      }
      assert stale - todo == stale;
    }

    method Gc(now: Spec.Instant)
      requires Inv(Value())
      modifies this`buffers, this`bytes, this`evicted, this`evictedOrder
      ensures Value() == Spec.Gc(old(Value()), now)
    {
      hide Inv;
      while evictedOrder != [] && Spec.Expired(cfg, evictedOrder[0].1, now)
        invariant Spec.ForgetExpired(Value(), now) == Spec.ForgetExpired(old(Value()), now)
        decreases |evictedOrder|
      {
        PopEvicted();
      }
      DropStale(now);
    }

    /** The byte-budget loop of `feed`. */
    method MakeRoom(fid: FragmentId, n: nat, now: Spec.Instant) returns (fits: bool)
      requires Inv(Value()) && fid !in evicted
      modifies this`buffers, this`bytes, this`evicted, this`evictedOrder
      ensures (Value(), fits) == Spec.MakeRoom(old(Value()), fid, n, now)
      ensures Inv(Value())
    {
      MakeRoomKeepsInv(Value(), fid, n, now);
      if cfg.maxBytes.None? {
        return true;
      }
      var max := cfg.maxBytes.value;
      if n > max {
        return false;
      }
      hide BuffersOk, MemoryOk, Sum;
      while bytes + n > max
        invariant Inv(Value()) && fid !in evicted
        invariant Spec.EvictUntilFits(Value(), fid, n, max, now) == Spec.EvictUntilFits(old(Value()), fid, n, max, now)
        decreases |buffers|
      {
        var victim := Oldest({fid});
        if victim.None? {
          Evict(fid, now);
          return false;
        }
        EvictKeepsInv(Value(), victim.value, now);
        Evict(victim.value, now);
      }
      return true;
    }

    /** Open a partial for `c` if there is none, and put the part in. */
    method AddPart(c: Chunk, now: Spec.Instant) returns (p: Spec.Partial)
      modifies this`buffers, this`bytes, this`nextOrder
      ensures Value() == Spec.AddPart(old(Value()), c, now)
      ensures p == Spec.Grown(Spec.Landing(old(Value()), c, now), c)
    {
      if c.fid !in buffers {
        buffers := buffers[c.fid := Spec.Partial(c.total, map[], 0, now, nextOrder)];
        nextOrder := nextOrder + 1;
      }
      p := buffers[c.fid];
      p := p.(parts := p.parts[c.index := c.data], size := p.size + |c.data|);
      buffers := buffers[c.fid := p];
      bytes := bytes + |c.data|;
      assert buffers == old(buffers)[c.fid := p];
    }

    /** At the count limit, evict the oldest partial to open another. */
    method RoomForOne(c: Chunk, now: Spec.Instant)
      requires Inv(Value())
      modifies this`buffers, this`bytes, this`evicted, this`evictedOrder
      ensures Value() == Spec.RoomForOne(old(Value()), c, now)
    {
      if c.fid !in buffers && |buffers| >= cfg.limit {
        var victim := Oldest({});
        if victim.Some? {
          Evict(victim.value, now);
        }
      }
    }

    /** The tail of `feed`: the part is stored, and the message handed out once it is whole. */
    method Store(c: Chunk, now: Spec.Instant) returns (out: Option<Payload>)
      requires Inv(Value()) && Storable(Value(), c)
      modifies this
      ensures (Value(), out) == Spec.Store(old(Value()), c, now)
    {
      hide Inv, Sum, Spec.RoomForOne, Storable, Spec.Landing, Spec.Grown;
      RoomForOneKeepsInv(Value(), c, now);
      RoomForOne(c, now);
      FullWhenCounted(Value(), c, now);
      var p := AddPart(c, now);
      assert Value().buffers[c.fid] == p;
      if |p.parts| != p.total {
        return None;
      }
      DropPartial(c.fid);
      var message: Payload := [];
      for i := 0 to p.total
        invariant message == Concat(p.parts, i)
      {
        message := message + p.parts[i];
      }
      return Some(message);
    }

    method Feed(raw: seq<byte>, now: Spec.Instant) returns (out: Option<Payload>)
      requires Inv(Value())
      modifies this
      ensures (Value(), out) == Spec.Feed(old(Value()), raw, now)
      ensures Inv(Value())
    {
      hide Inv, Sum, Spec.Gc, Spec.MakeRoom, Spec.Store;
      FeedKeepsInv(Value(), raw, now);
      var parsed := ParseChunk(raw);
      if parsed.None? {
        return None;
      }
      var c := parsed.value;
      if c.total > cfg.maxFragments {
        return None;
      }
      GcKeepsInv(Value(), now);
      Gc(now);
      if c.fid in evicted {
        return None;
      }
      if c.fid in buffers && buffers[c.fid].total != c.total {
        DropKeepsInv(Value(), c.fid);
        DropPartial(c.fid);
      }
      ghost var s := Value();
      if c.fid in buffers && c.index in buffers[c.fid].parts {
        return None;
      }
      if c.fid !in buffers && c.total == 1 {
        return Some(c.data);
      }
      if |c.data| > cfg.maxChunkPayload {
        return None;
      }
      MakeRoomKeepsInv(s, c.fid, |c.data|, now);
      var fits := MakeRoom(c.fid, |c.data|, now);
      if !fits {
        return None;
      }
      assert Storable(Value(), c);
      out := Store(c, now);
    }
  }
}
