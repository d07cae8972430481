/** Message fragmentation: the 21-byte envelope version(1) || fragment_id(16) || seq(2) || total(2) || data. */
module Fragments {
  import opened BigEndian

  const VERSION: byte := 1
  const HEADER_LEN := 21
  const MAX_CHANNEL_DATA := 1024
  const MAX_CHUNK_PAYLOAD := MAX_CHANNEL_DATA - HEADER_LEN
  const WIRE_MAX_FRAGMENTS := 0xFFFF

  type Payload = seq<byte>
  type FragmentId = s: seq<byte> | |s| == 16 witness [0, 0, 0, 0, 0, 0, 0, 0, 0, 0, 0, 0, 0, 0, 0, 0]

  datatype Chunk = Chunk(fid: FragmentId, index: nat, total: nat, data: Payload)

  function PackChunk(fid: FragmentId, index: nat, total: nat, data: Payload): seq<byte>
  {
    [VERSION] + fid + ToBytes(index, 2) + ToBytes(total, 2) + data
  }

  /** `None` on a short, wrong-version or nonsense chunk. */
  function ParseChunk(raw: seq<byte>): Option<Chunk>
  {
    if |raw| < HEADER_LEN || raw[0] != VERSION then None
    else
      var fid: FragmentId := raw[1..17];
      var index, total := FromBytes(raw[17..19]), FromBytes(raw[19..21]);
      if total == 0 || index >= total then None else Some(Chunk(fid, index, total, raw[21..]))
  }

  /** How many chunks a payload of `n` bytes needs; an empty payload still takes one. */
  function PieceCount(n: nat, size: nat): (k: nat)
    requires size > 0
    ensures k >= 1
    ensures n <= k * size && (n > 0 ==> (k - 1) * size < n)
  {
    if n == 0 then 1
    else
      assert n == (n - 1) / size * size + (n - 1) % size + 1;
      assert ((n - 1) / size + 1) * size == (n - 1) / size * size + size;
      (n - 1) / size + 1
  }

  /** The `i`-th slice of `size` bytes; the last one may be short. */
  function Piece(payload: Payload, size: nat, i: nat): (p: Payload)
    requires size > 0 && i < PieceCount(|payload|, size)
    ensures |p| <= size
  {
    PieceBounds(|payload|, size, i);
    payload[i * size .. if (i + 1) * size <= |payload| then (i + 1) * size else |payload|]
  }

  lemma PieceBounds(n: nat, size: nat, i: nat)
    requires size > 0 && i < PieceCount(n, size)
    ensures 0 <= i * size <= n && i * size <= (i + 1) * size
    ensures i + 1 < PieceCount(n, size) ==> (i + 1) * size <= n
    ensures i + 1 == PieceCount(n, size) ==> n <= (i + 1) * size
  {
    var k := PieceCount(n, size);
    assert (i + 1) * size == i * size + size;
    assert i * size >= 0;
    if n > 0 {
      assert i * size <= (k - 1) * size;
      if i + 1 < k {
        assert (i + 1) * size <= (k - 1) * size;
      }
    }
  }

  /** What the source's `assert!`s demand of a caller. */
  predicate Fragmentable(payload: Payload, size: nat)
  {
    size > 0 && PieceCount(|payload|, size) <= WIRE_MAX_FRAGMENTS
  }

  function Fragment(payload: Payload, size: nat, fid: FragmentId): (chunks: seq<seq<byte>>)
    requires Fragmentable(payload, size)
    ensures |chunks| == PieceCount(|payload|, size)
    ensures forall i :: 0 <= i < |chunks| ==> chunks[i] != []
  {
    var total := PieceCount(|payload|, size);
    seq(total, i requires 0 <= i < total => PackChunk(fid, i, total, Piece(payload, size, i)))
  }

  lemma ParsePackChunk(fid: FragmentId, index: nat, total: nat, data: Payload)
    requires index < total <= WIRE_MAX_FRAGMENTS
    ensures ParseChunk(PackChunk(fid, index, total, data)) == Some(Chunk(fid, index, total, data))
  {
    CapacityOfHeaderFields();
    FromToBytes(index, 2);
    FromToBytes(total, 2);
    var raw := PackChunk(fid, index, total, data);
    assert raw[1..17] == fid;
    assert raw[17..19] == ToBytes(index, 2);
    assert raw[19..21] == ToBytes(total, 2);
    assert raw[21..] == data;
  }

  /** Every chunk `Fragment` emits parses back to its own index, total and slice. */
  lemma ParseFragment(payload: Payload, size: nat, fid: FragmentId, i: nat)
    requires Fragmentable(payload, size) && i < PieceCount(|payload|, size)
    ensures ParseChunk(Fragment(payload, size, fid)[i])
         == Some(Chunk(fid, i, PieceCount(|payload|, size), Piece(payload, size, i)))
  {
    ParsePackChunk(fid, i, PieceCount(|payload|, size), Piece(payload, size, i));
  }

  /** Only packed chunks parse. */
  lemma ParsedIsPacked(raw: seq<byte>)
    requires ParseChunk(raw).Some?
    ensures var c := ParseChunk(raw).value;
            c.index < c.total <= WIRE_MAX_FRAGMENTS && raw == PackChunk(c.fid, c.index, c.total, c.data)
  {
    CapacityOfHeaderFields();
    ToFromBytes(raw[17..19]);
    ToFromBytes(raw[19..21]);
    assert raw == [raw[0]] + raw[1..17] + raw[17..19] + raw[19..21] + raw[21..];
  }

  /** Parts `0 .. upTo`, concatenated in index order: the tail loop of the source's `feed`. */
  function Concat(parts: map<nat, Payload>, upTo: nat): Payload
    requires forall i :: 0 <= i < upTo ==> i in parts
  {
    if upTo == 0 then [] else Concat(parts, upTo - 1) + parts[upTo - 1]
  }

  /** Where slice `i` begins. */
  function Cut(n: nat, size: nat, i: nat): nat
  {
    if 0 <= i * size <= n then i * size else n
  }

  lemma PieceIsSlice(payload: Payload, size: nat, i: nat)
    requires size > 0 && i < PieceCount(|payload|, size)
    ensures Cut(|payload|, size, i) <= Cut(|payload|, size, i + 1) <= |payload|
    ensures Piece(payload, size, i) == payload[Cut(|payload|, size, i)..Cut(|payload|, size, i + 1)]
  {
    PieceBounds(|payload|, size, i);
  }

  /** The slices of a payload, put back in order, are the payload. */
  lemma {:induction false} ConcatPieces(parts: map<nat, Payload>, payload: Payload, size: nat, upTo: nat)
    requires size > 0 && upTo <= PieceCount(|payload|, size)
    requires forall i :: 0 <= i < upTo ==> i in parts && parts[i] == Piece(payload, size, i)
    ensures Concat(parts, upTo) == payload[..Cut(|payload|, size, upTo)]
  {
    hide Cut, Piece, PieceCount;
    if upTo == 0 {
      CutAtZero(|payload|, size);
    } else {
      ConcatPieces(parts, payload, size, upTo - 1);
      PieceIsSlice(payload, size, upTo - 1);
    }
  }

  lemma CutAtZero(n: nat, size: nat)
    ensures Cut(n, size, 0) == 0
  {
    assert 0 * size == 0;
  }

  lemma ConcatAllPieces(parts: map<nat, Payload>, payload: Payload, size: nat)
    requires size > 0
    requires forall i :: 0 <= i < PieceCount(|payload|, size) ==> i in parts && parts[i] == Piece(payload, size, i)
    ensures Concat(parts, PieceCount(|payload|, size)) == payload
  {
    var k := PieceCount(|payload|, size);
    ConcatPieces(parts, payload, size, k);
    assert Cut(|payload|, size, k) == |payload|;
  }
}
