/** Shared vocabulary: optional values, lists, bytes, fixed-width integers and byte strings. */
module Bytes {

  datatype Option<+T> = None | Some(value: T)

  type byte = x: int | 0 <= x < 256

  const U32: int := 0x1_0000_0000

  function Min(a: nat, b: nat): nat {
    if a < b then a else b
  }

  predicate NoRepeats<T(==)>(s: seq<T>) {
    forall i, j :: 0 <= i < j < |s| ==> s[i] != s[j]
  }

  function Listed<T(==)>(s: seq<T>): set<T> {
    set x | x in s
  }

  function Pow(base: nat, e: nat): nat {
    if e == 0 then 1 else base * Pow(base, e - 1)
  }

  // ----- little-endian byte strings -----

  /** The low `len` bytes of `n`, least significant first. Division rounds towards
      minus infinity, so a negative `n` comes out in two's complement. */
  function LeBytes(n: int, len: nat): (bs: seq<byte>)
    ensures |bs| == len
    decreases len
  {
    if len == 0 then [] else [n % 256] + LeBytes(n / 256, len - 1)
  }

  /** The number a byte string spells, least significant byte first. */
  function LeValue(bs: seq<byte>): nat {
    if bs == [] then 0 else bs[0] + 256 * LeValue(bs[1..])
  }

  lemma {:induction false} LeBytesOfValue(bs: seq<byte>)
    ensures LeBytes(LeValue(bs), |bs|) == bs
  {
    if bs != [] {
      LeBytesOfValue(bs[1..]);
      assert LeValue(bs) % 256 == bs[0] && LeValue(bs) / 256 == LeValue(bs[1..]);
    }
  }

  lemma {:induction false} LeValueOfBytes(n: nat, len: nat)
    requires n < Pow(256, len)
    ensures LeValue(LeBytes(n, len)) == n
  {
    if len != 0 {
      assert Pow(256, len) == 256 * Pow(256, len - 1);
      LeValueOfBytes(n / 256, len - 1);
      assert LeBytes(n, len)[1..] == LeBytes(n / 256, len - 1);
    }
  }

  /** Equal byte strings come from numbers that differ by a multiple of 256^len. */
  lemma {:induction false} LeBytesInjective(a: int, b: int, len: nat) returns (k: int)
    requires LeBytes(a, len) == LeBytes(b, len)
    ensures a - b == k * Pow(256, len)
    decreases len
  {
    if len == 0 {
      k := a - b;
    } else {
      assert LeBytes(a, len)[0] == LeBytes(b, len)[0];
      assert LeBytes(a / 256, len - 1) == LeBytes(a, len)[1..] == LeBytes(b, len)[1..] == LeBytes(b / 256, len - 1);
      k := LeBytesInjective(a / 256, b / 256, len - 1);
      var p := Pow(256, len - 1);
      assert a - b == 256 * (a / 256 - b / 256) == 256 * (k * p);
      assert 256 * (k * p) == k * (256 * p);
    }
  }

  function LeU32(n: int): (bs: seq<byte>)
    ensures |bs| == 4
  {
    LeBytes(n, 4)
  }

  /** A 32-bit word is read least significant byte first. */
  lemma WordIsLittleEndian(a: byte, b: byte, c: byte, d: byte)
    ensures LeValue([a, b, c, d]) == a + 0x100 * b + 0x1_0000 * c + 0x100_0000 * d
  {
    assert [a, b, c, d][1..] == [b, c, d] && [b, c, d][1..] == [c, d] && [c, d][1..] == [d] && [d][1..] == [];
    assert LeValue([d]) == d;
    assert LeValue([c, d]) == c + 0x100 * d;
    assert LeValue([b, c, d]) == b + 0x100 * c + 0x1_0000 * d;
  }

  lemma LeU32RoundTrip(n: nat)
    requires n < U32
    ensures LeValue(LeU32(n)) == n
  {
    assert Pow(256, 2) == 0x1_0000;
    assert Pow(256, 4) == U32;
    LeValueOfBytes(n, 4);
  }
}
