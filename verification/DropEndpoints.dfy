/** The mutable ends of a Drop, against the operations in `Drop`. */
module DropObject {
  import opened BigEndian
  import F = Fragments
  import Spec = Drop
  import Theorems = DropTheorems

  class DropReceiver {
    var offer: Option<Spec.Offer>
    var have: map<int, Spec.Payload>
    var verified: Option<bool>
    var outstanding: Option<Spec.Range>
    var low: nat
    var requests: seq<Spec.Range>
    var dones: seq<Spec.Digest>
    var files: seq<(Spec.Payload, bool)>

    ghost function Value(): Spec.Receiver
      reads this
    {
      Spec.Receiver(offer, have, verified, outstanding, low, requests, dones, files)
    }

    constructor (resumed: map<int, Spec.Payload>)
      ensures Value() == Spec.NewReceiver(resumed)
    {
      offer, have, verified, outstanding, low := None, resumed, None, None, 0;
      requests, dones, files := [], [], [];
    }

    function Total(): (t: nat)
      reads this
      ensures t == Spec.Total(Value())
    {
      if offer.Some? && offer.value.total > 0 then offer.value.total else 0
    }

    /** The full scan: find each run of missing chunks, then cut it into windows. */
    method MissingRanges() returns (out: seq<Spec.Range>)
      ensures out == Spec.Ranges(have.Keys, 0, Total())
    {
      hide Spec.Ranges;
      var total := Total();
      ghost var held := have.Keys;
      out := [];
      var runStart: Option<nat> := None;
      var i := 0;
      while i < total + 1
        invariant 0 <= i <= total + 1
        invariant runStart.None? && i <= total ==> out + Spec.Ranges(held, i, total) == Spec.Ranges(held, 0, total)
        invariant runStart.None? && i == total + 1 ==> out == Spec.Ranges(held, 0, total)
        invariant runStart.Some? ==> runStart.value < i <= total
        invariant runStart.Some? ==> forall j :: runStart.value <= j < i ==> j !in held
        invariant runStart.Some? ==> out + Spec.Ranges(held, runStart.value, total) == Spec.Ranges(held, 0, total)
      {
        var lacking := i < total && i !in have;
        if lacking && runStart.None? {
          runStart := Some(i);
        } else if !lacking && runStart.Some? {
          out := CutRun(out, held, runStart.value, i, total);
          runStart := None;
          StepPast(held, i, total);
        } else if !lacking {
          StepPast(held, i, total);
        }
        i := i + 1;
      }
    }

    /** Past the end there is nothing to scan; past a held index the scan is unchanged. */
    static lemma StepPast(held: set<int>, i: nat, total: nat)
      requires i <= total && (i < total ==> i in held)
      ensures Spec.Ranges(held, i, total) == if i < total then Spec.Ranges(held, i + 1, total) else []
    {
      if i < total {
        Theorems.ScanSkips(held, i, i + 1, total);
      }
    }

    /** One run `[start, end)` appended in windows. */
    static method CutRun(before: seq<Spec.Range>, ghost held: set<int>, start: nat, end: nat, total: nat)
      returns (out: seq<Spec.Range>)
      requires start < end <= total && (end == total || end in held) && forall j :: start <= j < end ==> j !in held
      ensures out + Spec.Ranges(held, end, total) == before + Spec.Ranges(held, start, total)
    {
      hide Spec.Ranges;
      out := before;
      var s := start;
      while s < end
        invariant start <= s
        invariant out + Spec.Ranges(held, Spec.Min(s, end), total) == before + Spec.Ranges(held, start, total)
        decreases end - s
      {
        var e := Spec.Min(s + Spec.MAX_RANGE_CHUNKS, end);
        CutWindow(held, s, end, total);
        assert out + ([Spec.Range(s, e)] + Spec.Ranges(held, e, total))
            == (out + [Spec.Range(s, e)]) + Spec.Ranges(held, e, total);
        out := out + [Spec.Range(s, e)];
        s := s + Spec.MAX_RANGE_CHUNKS;
      }
    }

    static lemma CutWindow(held: set<int>, s: nat, end: nat, total: nat)
      requires s < end <= total && (end == total || end in held) && forall j :: s <= j < end ==> j !in held
      ensures var e := Spec.Min(s + Spec.MAX_RANGE_CHUNKS, end);
              Spec.Ranges(held, s, total) == [Spec.Range(s, e)] + Spec.Ranges(held, e, total)
    {
      hide Spec.Ranges;
      Theorems.ScanStep(held, s, total);
      Theorems.SkipUnique(held, s, total, s);
      Theorems.WindowUnique(held, s + 1, Spec.Min(total, s + Spec.MAX_RANGE_CHUNKS),
          Spec.Min(s + Spec.MAX_RANGE_CHUNKS, end));
    }

    /** The incremental search; the low mark stays where it stopped. */
    method NextMissingRange() returns (window: Option<Spec.Range>)
      modifies `low
      ensures (window, low) == Spec.NextRange(have.Keys, old(low), Total())
    {
      var total := Total();
      ghost var held := have.Keys;
      while low < total && low in have
        invariant Spec.SkipHeld(held, low, total) == Spec.SkipHeld(held, old(low), total)
        decreases total - low
      {
        low := low + 1;
      }
      if low >= total {
        return None;
      }
      var end := low + 1;
      var limit := Spec.Min(total, low + Spec.MAX_RANGE_CHUNKS);
      while end < limit && end !in have
        invariant low < end <= limit
        invariant Spec.WindowEnd(held, end, limit) == Spec.WindowEnd(held, low + 1, limit)
      {
        end := end + 1;
      }
      window := Some(Spec.Range(low, end));
    }

    method HoldsAll(start: nat, end: nat) returns (all: bool)
      ensures all == Spec.HoldsAll(have.Keys, start, end)
    {
      var i := start;
      while i < end && i in have
        invariant start <= i
        invariant forall j :: start <= j < i ==> j in have.Keys
        decreases end - i
      {
        i := i + 1;
      }
      all := i >= end;
    }

    /** Count first, full check only when the count is high enough. */
    method Complete() returns (complete: bool)
      ensures complete == Spec.Complete(Value())
    {
      if |have| < Total() {
        return false;
      }
      complete := HoldsAll(0, Total());
    }

    method RequestMissing()
      modifies `low, `outstanding, `requests
      ensures Value() == Spec.RequestMissing(old(Value()))
    {
      hide Spec.NextRange;
      if offer.None? || verified.Some? {
        return;
      }
      var window := NextMissingRange();
      if window.Some? {
        outstanding := window;
        requests := requests + [window.value];
      }
    }

    method Finish(hash: Spec.Payload -> Spec.Digest)
      requires offer.Some? && Spec.HoldsAll(have.Keys, 0, Total())
      modifies `verified, `dones, `files
      ensures Value() == Spec.Finish(old(Value()), hash)
    {
      var total := Total();
      ghost var parts := Spec.NatKeys(have);
      var data := [];
      var i := 0;
      while i < total
        invariant 0 <= i <= total && forall j :: 0 <= j < i ==> j in parts
        invariant data == F.Concat(parts, i)
      {
        assert i in have.Keys && i in parts;
        data := data + have[i];
        i := i + 1;
      }
      if 0 <= offer.value.size <= |data| {
        data := data[..offer.value.size];
      }
      var ok := hash(data) == offer.value.sha256;
      verified := Some(ok);
      dones := dones + [hash(data)];
      files := files + [(data, ok)];
    }

    method HandleOffer(o: Spec.Offer, hash: Spec.Payload -> Spec.Digest)
      modifies this
      ensures Value() == Spec.HandleOffer(old(Value()), o, hash)
    {
      hide Spec.RequestMissing, Spec.Finish, F.PieceCount;
      if o.size < 0 || o.chunkSize != Spec.CHUNK_SIZE || o.total != F.PieceCount(o.size, Spec.CHUNK_SIZE) {
        return;
      }
      if offer.Some? && (o.sha256 != offer.value.sha256 || o.size != offer.value.size) {
        have := map[];
        verified := None;
      }
      offer := Some(o);
      have := map i | i in have && Spec.Fits(o, i, have[i]) :: have[i];
      low := 0;
      var complete := Complete();
      if complete {
        Finish(hash);
      } else {
        RequestMissing();
      }
    }

    method HandleChunk(body: Spec.Payload, hash: Spec.Payload -> Spec.Digest)
      modifies this
      ensures Value() == Spec.HandleChunk(old(Value()), body, hash)
    {
      hide Spec.RequestMissing, Spec.Finish, Spec.BodyIndex, Spec.BodyData;
      if offer.None? {
        return;
      }
      var index, data := Spec.BodyIndex(body), Spec.BodyData(body);
      if index >= offer.value.total {
        return;
      }
      if index !in have && |data| == Spec.ChunkLen(offer.value, index) {
        have := have[index := data];
      }
      var complete := Complete();
      if complete {
        Finish(hash);
      } else if outstanding.Some? {
        var drained := HoldsAll(outstanding.value.start, outstanding.value.end);
        if drained {
          RequestMissing();
        }
      }
    }
  }

  class DropSender {
    const data: Spec.Payload

    constructor (data: Spec.Payload)
      ensures this.data == data
    {
      this.data := data;
    }

    /** The CHUNK bodies sent for one requested range. */
    method ServeRange(start: int, end: int) returns (bodies: seq<Spec.Payload>)
      ensures bodies == Spec.ServeRange(data, start, end)
    {
      hide F.PieceCount, F.Piece, Spec.ChunkBody, Spec.ServeFrom;
      var total := F.PieceCount(|data|, Spec.CHUNK_SIZE);
      var s := if start < 0 then 0 else start;
      var e := Spec.Min(Spec.Min(if end < 0 then 0 else end, total), s + Spec.MAX_RANGE_CHUNKS);
      bodies := [];
      var i := s;
      while i < e && i < U32_LIMIT
        invariant s <= i
        invariant bodies + Spec.ServeFrom(data, i, e) == Spec.ServeFrom(data, s, e)
        decreases e - i
      {
        var body := Spec.ChunkBody(i, F.Piece(data, Spec.CHUNK_SIZE, i));
        ServeNext(data, i, e);
        assert bodies + ([body] + Spec.ServeFrom(data, i + 1, e)) == (bodies + [body]) + Spec.ServeFrom(data, i + 1, e);
        bodies := bodies + [body];
        i := i + 1;
      }
      ServeNext(data, i, e);
      assert bodies + [] == bodies;
    }
  }

  lemma ServeNext(data: Spec.Payload, i: nat, e: nat)
    requires e <= F.PieceCount(|data|, Spec.CHUNK_SIZE)
    ensures Spec.ServeFrom(data, i, e)
         == if i >= e || i >= U32_LIMIT then []
            else [Spec.ChunkBody(i, F.Piece(data, Spec.CHUNK_SIZE, i))] + Spec.ServeFrom(data, i + 1, e)
  {
    hide F.PieceCount, F.Piece, Spec.ChunkBody;
  }
}
