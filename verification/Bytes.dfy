/** Bytes, fixed-width big-endian integers, and the two's-complement reading of a 64-bit word. Go's
    binary.BigEndian, Python's struct ">" formats and numpy's ">u8" layout are all instances of the
    codec below. */
module Bytes {

  type byte = x: int | 0 <= x < 256

  const TWO_31: int := 0x8000_0000
  const TWO_32: int := 0x1_0000_0000
  const TWO_63: int := 0x8000_0000_0000_0000
  const TWO_64: int := 0x1_0000_0000_0000_0000

  type u32 = x: int | 0 <= x < 0x1_0000_0000
  type u64 = x: int | 0 <= x < 0x1_0000_0000_0000_0000
  type i64 = x: int | -0x8000_0000_0000_0000 <= x < 0x8000_0000_0000_0000

  datatype Option<+T> = None | Some(value: T)

  /** 256 to the power n: the number of values of n bytes. */
  function Pow256(n: nat): (p: nat)
    ensures p >= 1
  {
    if n == 0 then 1 else 256 * Pow256(n - 1)
  }

  /** The low n bytes of v, most significant first. */
  function BigEndian(n: nat, v: nat): (s: seq<byte>)
    ensures |s| == n
  {
    if n == 0 then [] else BigEndian(n - 1, v / 256) + [v % 256]
  }

  function FromBigEndian(s: seq<byte>): (v: nat)
    ensures v < Pow256(|s|)
  {
    if s == [] then 0 else FromBigEndian(s[..|s| - 1]) * 256 + s[|s| - 1]
  }

  lemma {:induction false} BigEndianReadsBack(n: nat, v: nat)
    requires v < Pow256(n)
    ensures FromBigEndian(BigEndian(n, v)) == v
  {
    if n > 0 {
      var s := BigEndian(n, v);
      assert s[..n - 1] == BigEndian(n - 1, v / 256);
      BigEndianReadsBack(n - 1, v / 256);
    }
  }

  lemma LowByte(v: nat, b: byte)
    ensures (v * 256 + b) / 256 == v && (v * 256 + b) % 256 == b
  {
  }

  lemma {:induction false} BigEndianOfRead(s: seq<byte>)
    ensures BigEndian(|s|, FromBigEndian(s)) == s
  {
    if s != [] {
      var n := |s| - 1;
      LowByte(FromBigEndian(s[..n]), s[n]);
      BigEndianOfRead(s[..n]);
      assert s == s[..n] + [s[n]];
    }
  }

  lemma Pow256Values()
    ensures Pow256(2) == 0x1_0000 && Pow256(4) == TWO_32 && Pow256(8) == TWO_64
  {
    assert Pow256(2) == 256 * 256 * Pow256(0);
    assert Pow256(4) == 256 * 256 * Pow256(2);
    assert Pow256(8) == 256 * 256 * 256 * 256 * Pow256(4) by {
      assert Pow256(6) == 256 * 256 * Pow256(4);
    }
  }

  /** Go's binary.BigEndian.PutUint64 / Uint64 and struct's ">Q". */
  function PutU64(v: u64): (s: seq<byte>)
    ensures |s| == 8
  {
    BigEndian(8, v)
  }

  function GetU64(s: seq<byte>): u64
    requires |s| == 8
  {
    Pow256Values();
    FromBigEndian(s)
  }

  /** Go's binary.BigEndian.PutUint32 / Uint32 and struct's ">I". */
  function PutU32(v: u32): (s: seq<byte>)
    ensures |s| == 4
  {
    BigEndian(4, v)
  }

  function GetU32(s: seq<byte>): u32
    requires |s| == 4
  {
    Pow256Values();
    FromBigEndian(s)
  }

  lemma U64ReadsBack(v: u64)
    ensures GetU64(PutU64(v)) == v
  {
    Pow256Values();
    BigEndianReadsBack(8, v);
  }

  lemma U32ReadsBack(v: u32)
    ensures GetU32(PutU32(v)) == v
  {
    Pow256Values();
    BigEndianReadsBack(4, v);
  }

  /** The high byte comes first. */
  lemma HighFirst()
    ensures PutU32(0x0102_0304) == [1, 2, 3, 4] && GetU32([1, 2, 3, 4]) == 0x0102_0304
  {
    assert BigEndian(1, 0x01) == [1];
    assert BigEndian(2, 0x0102) == [1, 2];
    assert BigEndian(3, 0x0102_03) == [1, 2, 3];
    U32ReadsBack(0x0102_0304);
  }

  /** Go's int64(x) of a uint64 and uint64(x) of an int64. */
  function ToI64(v: u64): i64 {
    if v < TWO_63 then v else v - TWO_64
  }

  function ToU64(v: i64): u64 {
    if v < 0 then v + TWO_64 else v
  }

  /** What int64 arithmetic leaves of the exact integer x. */
  function Wrap(x: int): (w: i64)
    ensures (w - x) % TWO_64 == 0
    ensures -TWO_63 <= x < TWO_63 ==> w == x
  {
    var u := x % TWO_64;
    ToI64(u)
  }

  /** Two exact integers that differ by a multiple of 2^64 leave the same int64. */
  lemma WrapCongruent(x: int, y: int)
    requires (x - y) % TWO_64 == 0
    ensures Wrap(x) == Wrap(y)
  {
    assert x % TWO_64 == y % TWO_64;
  }

  lemma WrapOfWrap(x: int, y: int)
    ensures Wrap(Wrap(x) + y) == Wrap(x + y)
  {
    assert (Wrap(x) + y - (x + y)) % TWO_64 == 0;
    WrapCongruent(Wrap(x) + y, x + y);
  }
}
