/** Byte-order helpers (Util.cs). The host is little-endian: `BitConverter.GetBytes`
    lays a value out least significant byte first and `BitConverter.ToUInt16` /
    `ToUInt64` read it back the same way. `SwapEndianess` reverses the bytes of a
    value, so applied to a little-endian read it yields the big-endian reading that
    the track-identifier format uses. */
module Util {
  import opened Base

  /** 256 to the power n: one more than the largest n-byte unsigned value. */
  function Pow256(n: nat): (p: nat)
    ensures p >= 1
  {
    if n == 0 then 1 else 256 * Pow256(n - 1)
  }

  /** `BitConverter.GetBytes` of an n-byte unsigned value on a little-endian host. */
  function GetBytesLE(v: nat, n: nat): (s: seq<byte>)
    ensures |s| == n
  {
    if n == 0 then [] else [v % 256] + GetBytesLE(v / 256, n - 1)
  }

  /** `BitConverter.ToUInt16` / `ToUInt64` over exactly these bytes, on a little-endian host. */
  function FromBytesLE(s: seq<byte>): nat
  {
    if s == [] then 0 else s[0] + 256 * FromBytesLE(s[1..])
  }

  /** The big-endian reading of a byte sequence, most significant byte first. */
  function FromBytesBE(s: seq<byte>): nat
  {
    if s == [] then 0 else 256 * FromBytesBE(s[..|s| - 1]) + s[|s| - 1]
  }

  /** `Array.Reverse` on a byte array, as a value. */
  function Reverse(s: seq<byte>): (r: seq<byte>)
    ensures |r| == |s|
    ensures forall i :: 0 <= i < |s| ==> r[i] == s[|s| - 1 - i]
  {
    seq(|s|, i requires 0 <= i < |s| => s[|s| - 1 - i])
  }

  /** Byte number i of v, counting from the least significant byte. */
  function ByteOf(v: nat, i: nat): byte
  {
    if i == 0 then v % 256 else ByteOf(v / 256, i - 1)
  }

  lemma {:induction false} FromBytesLEBound(s: seq<byte>)
    ensures FromBytesLE(s) < Pow256(|s|)
  {
    if s != [] {
      FromBytesLEBound(s[1..]);
    }
  }

  lemma {:induction false} FromBytesLEOfGetBytes(v: nat, n: nat)
    requires v < Pow256(n)
    ensures FromBytesLE(GetBytesLE(v, n)) == v
  {
    if n > 0 {
      FromBytesLEOfGetBytes(v / 256, n - 1);
      assert GetBytesLE(v, n)[1..] == GetBytesLE(v / 256, n - 1);
    }
  }

  lemma {:induction false} GetBytesOfFromBytesLE(s: seq<byte>)
    ensures GetBytesLE(FromBytesLE(s), |s|) == s
  {
    if s != [] {
      GetBytesOfFromBytesLE(s[1..]);
      var x := FromBytesLE(s[1..]);
      assert (s[0] + 256 * x) % 256 == s[0];
      assert (s[0] + 256 * x) / 256 == x;
      assert s == [s[0]] + s[1..];
    }
  }

  lemma {:induction false} GetBytesAt(v: nat, n: nat, i: nat)
    requires i < n
    ensures GetBytesLE(v, n)[i] == ByteOf(v, i)
  {
    if i > 0 {
      GetBytesAt(v / 256, n - 1, i - 1);
    }
  }

  /** Reading the bytes back to front is the big-endian reading. */
  lemma {:induction false} FromBytesLEOfReverse(s: seq<byte>)
    ensures FromBytesLE(Reverse(s)) == FromBytesBE(s)
  {
    if s != [] {
      var init := s[..|s| - 1];
      FromBytesLEOfReverse(init);
      assert Reverse(s)[1..] == Reverse(init);
    }
  }

  /** `SwapEndianess(ushort)`: the value with its two bytes exchanged. */
  function SwapEndianess16(value: ushort): (r: ushort)
    ensures r == value / 256 + (value % 256) * 256
  {
    var bytes := GetBytesLE(value, 2);
    FromBytesLEBound(Reverse(bytes));
    assert Pow256(2) == 0x1_0000;
    assert GetBytesLE(value / 256, 1) == [(value / 256) % 256] + GetBytesLE(value / 256 / 256, 0);
    assert bytes == [value % 256, (value / 256) % 256];
    assert Reverse(bytes)[1..] == [value % 256];
    FromBytesLE(Reverse(bytes))
  }

  /** `SwapEndianess(ulong)`: the value with its eight bytes in reverse order. */
  function SwapEndianess64(value: ulong): (r: ulong)
    ensures forall i :: 0 <= i < 8 ==> ByteOf(r, i) == ByteOf(value, 7 - i)
  {
    var reversed := Reverse(GetBytesLE(value, 8));
    FromBytesLEBound(reversed);
    assert Pow256(8) == 0x1_0000_0000_0000_0000;
    var r := FromBytesLE(reversed);
    GetBytesOfFromBytesLE(reversed);
    forall i | 0 <= i < 8
      ensures ByteOf(r, i) == ByteOf(value, 7 - i)
    {
      GetBytesAt(r, 8, i);
      GetBytesAt(value, 8, 7 - i);
    }
    r
  }

  /** Swapping twice gives the value back (16-bit). */
  lemma SwapEndianess16Involutive(v: ushort)
    ensures SwapEndianess16(SwapEndianess16(v)) == v
  {
    var lo, hi := v % 256, v / 256;
    assert SwapEndianess16(v) == hi + 256 * lo;
    DivMod256(hi, lo);
    assert v == lo + 256 * hi;
  }

  /** Swapping twice gives the value back (64-bit). */
  lemma SwapEndianess64Involutive(v: ulong)
    ensures SwapEndianess64(SwapEndianess64(v)) == v
  {
    var bytes := GetBytesLE(v, 8);
    var r := SwapEndianess64(v);
    FromBytesLEBound(Reverse(bytes));
    GetBytesOfFromBytesLE(Reverse(bytes));
    assert Reverse(Reverse(bytes)) == bytes;
    assert Pow256(8) == 0x1_0000_0000_0000_0000;
    FromBytesLEOfGetBytes(v, 8);
  }

  /** A little-endian read followed by the 16-bit swap is the big-endian reading. */
  lemma SwapOfRead16(s: seq<byte>)
    requires |s| == 2
    ensures FromBytesLE(s) < 0x1_0000
    ensures SwapEndianess16(FromBytesLE(s)) == FromBytesBE(s)
  {
    var lo, hi := s[0] as int, s[1] as int;
    assert s[1..][1..] == [];
    assert FromBytesLE(s[1..]) == hi + 256 * FromBytesLE(s[1..][1..]);
    assert FromBytesLE(s) == lo + 256 * hi;
    assert s[..1][..0] == [];
    assert FromBytesBE(s[..1]) == 256 * FromBytesBE(s[..1][..0]) + lo;
    assert FromBytesBE(s) == 256 * FromBytesBE(s[..1]) + hi;
    DivMod256(lo, hi);
  }

  lemma DivMod256(lo: int, hi: int)
    requires 0 <= lo < 256 && 0 <= hi
    ensures (lo + 256 * hi) / 256 == hi && (lo + 256 * hi) % 256 == lo
  {
  }

  /** A little-endian read followed by the 64-bit swap is the big-endian reading. */
  lemma SwapOfRead64(s: seq<byte>)
    requires |s| == 8
    ensures FromBytesLE(s) < 0x1_0000_0000_0000_0000
    ensures SwapEndianess64(FromBytesLE(s)) == FromBytesBE(s)
  {
    FromBytesLEBound(s);
    assert Pow256(8) == 0x1_0000_0000_0000_0000;
    GetBytesOfFromBytesLE(s);
    FromBytesLEOfReverse(s);
  }

  lemma FromBytesBEBound(s: seq<byte>)
    ensures FromBytesBE(s) < Pow256(|s|)
  {
    FromBytesLEOfReverse(s);
    FromBytesLEBound(Reverse(s));
  }

  /** The n big-endian bytes of v, most significant first: the layout of an
      integer in a track message. */
  function GetBytesBE(v: nat, n: nat): (s: seq<byte>)
    ensures |s| == n
  {
    if n == 0 then [] else GetBytesBE(v / 256, n - 1) + [v % 256]
  }

  /** Writing n big-endian bytes and reading them back gives the value. */
  lemma {:induction false} FromBytesBEOfGetBytes(v: nat, n: nat)
    requires v < Pow256(n)
    ensures FromBytesBE(GetBytesBE(v, n)) == v
  {
    if n > 0 {
      var s := GetBytesBE(v, n);
      assert s[..n - 1] == GetBytesBE(v / 256, n - 1);
      FromBytesBEOfGetBytes(v / 256, n - 1);
    }
  }

  /** Reading n big-endian bytes and writing them back gives the bytes. */
  lemma {:induction false} GetBytesOfFromBytesBE(s: seq<byte>)
    ensures GetBytesBE(FromBytesBE(s), |s|) == s
  {
    if s != [] {
      var init := s[..|s| - 1];
      GetBytesOfFromBytesBE(init);
      var x := FromBytesBE(init);
      var last := s[|s| - 1];
      assert (256 * x + last) % 256 == last;
      assert (256 * x + last) / 256 == x;
      assert s == init + [last];
    }
  }
}
