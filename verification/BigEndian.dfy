/** Fixed-width big-endian integers, the number format of every Telesthete header. */
module BigEndian {

  type byte = n: int | 0 <= n < 256

  datatype Option<+T> = None | Some(value: T)

  const U16_LIMIT := 0x1_0000
  const U32_LIMIT := 0x1_0000_0000
  const U64_LIMIT := 0x1_0000_0000_0000_0000

  /** `256` to the power `width`: the number of values `width` bytes can hold. */
  function Capacity(width: nat): (c: nat)
    ensures c > 0
  {
    if width == 0 then 1 else 256 * Capacity(width - 1)
  }

  lemma CapacityOfHeaderFields()
    ensures Capacity(2) == U16_LIMIT && Capacity(4) == U32_LIMIT && Capacity(8) == U64_LIMIT
  {
    assert Capacity(2) == 256 * Capacity(1) && Capacity(1) == 256 * Capacity(0);
    assert Capacity(4) == 256 * Capacity(3) && Capacity(3) == 256 * Capacity(2);
    assert Capacity(6) == 256 * Capacity(5) && Capacity(5) == 256 * Capacity(4);
    assert Capacity(8) == 256 * Capacity(7) && Capacity(7) == 256 * Capacity(6);
  }

  function ToBytes(n: nat, width: nat): (s: seq<byte>)
    ensures |s| == width
  {
    if width == 0 then [] else ToBytes(n / 256, width - 1) + [n % 256]
  }

  function FromBytes(s: seq<byte>): nat
  {
    if s == [] then 0 else 256 * FromBytes(s[..|s| - 1]) + s[|s| - 1]
  }

  lemma {:induction false} FromToBytes(n: nat, width: nat)
    requires n < Capacity(width)
    ensures FromBytes(ToBytes(n, width)) == n
  {
    if width > 0 {
      FromToBytes(n / 256, width - 1);
      var s := ToBytes(n, width);
      assert s[..|s| - 1] == ToBytes(n / 256, width - 1);
    }
  }

  lemma {:induction false} ToFromBytes(s: seq<byte>)
    ensures FromBytes(s) < Capacity(|s|)
    ensures ToBytes(FromBytes(s), |s|) == s
  {
    if s != [] {
      ToFromBytes(s[..|s| - 1]);
      assert FromBytes(s) / 256 == FromBytes(s[..|s| - 1]);
      assert s == s[..|s| - 1] + [s[|s| - 1]];
    }
  }
}
