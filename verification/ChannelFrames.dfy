/** The Channel plaintext: flags || ack_num(8) || window(2) || seq(8) || data, big-endian. */
module ChannelFrames {
  import opened BigEndian

  const HEADER_LEN := 19

  /** The four defined flag bits; bits 4-7 are reserved and never carried by a parsed frame. */
  datatype Flags = Flags(syn: bool, fin: bool, ack: bool, rst: bool)

  const SYN := Flags(true, false, false, false)
  const SYN_ACK := Flags(true, false, true, false)
  const FIN_ACK := Flags(false, true, true, false)
  const ACK := Flags(false, false, true, false)

  datatype Frame = Frame(flags: Flags, ackNum: nat, window: nat, seqno: nat, data: seq<byte>)

  /** The field widths of the source's `u64` / `u16` struct members. */
  predicate Representable(f: Frame)
  {
    f.ackNum < U64_LIMIT && f.window < U16_LIMIT && f.seqno < U64_LIMIT
  }

  /** SYN, FIN and data frames use up an inner sequence number; a pure ACK does not. */
  predicate ConsumesSeq(f: Frame)
  {
    f.flags.syn || f.flags.fin || f.data != []
  }

  function FlagByte(g: Flags): byte
  {
    (if g.syn then 1 else 0) + (if g.fin then 2 else 0) + (if g.ack then 4 else 0) + (if g.rst then 8 else 0)
  }

  function FlagsOf(b: byte): Flags
  {
    Flags(b % 2 == 1, b / 2 % 2 == 1, b / 4 % 2 == 1, b / 8 % 2 == 1)
  }

  function Serialize(f: Frame): seq<byte>
  {
    [FlagByte(f.flags)] + ToBytes(f.ackNum, 8) + ToBytes(f.window, 2) + ToBytes(f.seqno, 8) + f.data
  }

  /** `None` for a short frame and for one with a reserved bit set. */
  function Parse(buf: seq<byte>): Option<Frame>
  {
    if |buf| < HEADER_LEN || buf[0] / 16 != 0 then None
    else Some(Frame(FlagsOf(buf[0]), FromBytes(buf[1..9]), FromBytes(buf[9..11]), FromBytes(buf[11..19]), buf[19..]))
  }

  lemma FlagBits(g: Flags, b: byte)
    ensures FlagsOf(FlagByte(g)) == g && FlagByte(g) < 16
    ensures b < 16 ==> FlagByte(FlagsOf(b)) == b
  {
  }

  /** Every frame the source's struct can hold survives the wire. */
  lemma ParseSerialize(f: Frame)
    requires Representable(f)
    ensures Parse(Serialize(f)) == Some(f)
  {
    hide ToBytes, FromBytes, Capacity, FlagByte, FlagsOf;
    CapacityOfHeaderFields();
    FromToBytes(f.ackNum, 8);
    FromToBytes(f.window, 2);
    FromToBytes(f.seqno, 8);
    FlagBits(f.flags, 0);
    var buf := Serialize(f);
    assert buf[1..9] == ToBytes(f.ackNum, 8);
    assert buf[9..11] == ToBytes(f.window, 2);
    assert buf[11..19] == ToBytes(f.seqno, 8);
    assert buf[19..] == f.data;
  }

  /** Parsing accepts exactly the serialized frames: one byte string per frame, nothing else. */
  lemma SerializeParse(buf: seq<byte>)
    ensures Parse(buf).Some? <==> |buf| >= HEADER_LEN && buf[0] < 16
    ensures Parse(buf).Some? ==> Representable(Parse(buf).value) && Serialize(Parse(buf).value) == buf
  {
    hide ToBytes, FromBytes, Capacity, FlagByte, FlagsOf;
    if |buf| >= HEADER_LEN && buf[0] < 16 {
      CapacityOfHeaderFields();
      ToFromBytes(buf[1..9]);
      ToFromBytes(buf[9..11]);
      ToFromBytes(buf[11..19]);
      FlagBits(SYN, buf[0]);
      assert buf == [buf[0]] + buf[1..9] + buf[9..11] + buf[11..19] + buf[19..];
    }
  }
}
