/** Little-endian byte sequences as numbers. */
module Bytes {
  import opened Words

  function FromBytes(bs: seq<byte>): nat {
    if bs == [] then 0 else bs[0] + 256 * FromBytes(bs[1..])
  }

  function ToBytes(v: nat, n: nat): (bs: seq<byte>)
    ensures |bs| == n
  {
    if n == 0 then [] else [v % 256] + ToBytes(v / 256, n - 1)
  }

  lemma Pow2Byte(n: nat)
    requires n > 0
    ensures Pow2(8 * n) == 256 * Pow2(8 * (n - 1))
  {
    Pow2Add(8, 8 * (n - 1));
    assert Pow2(8) == 256;
  }

  lemma {:induction false} FromBytesBound(bs: seq<byte>)
    ensures FromBytes(bs) < Pow2(8 * |bs|)
  {
    if bs != [] {
      Pow2Byte(|bs|);
      FromBytesBound(bs[1..]);
    }
  }

  /** Bit i of byte j is bit 8 * j + i of the number. */
  lemma {:induction false} BitOfBytes(bs: seq<byte>, j: nat, i: nat)
    requires j < |bs| && i < 8
    ensures Bit(FromBytes(bs), 8 * j + i) == Bit(bs[j], i)
  {
    if j == 0 {
      LowByteBit(bs[0], FromBytes(bs[1..]), i);
    } else {
      HighByteBit(bs[0], FromBytes(bs[1..]), 8 * (j - 1) + i);
      BitOfBytes(bs[1..], j - 1, i);
    }
  }

  lemma LowByteBit(b: byte, rest: nat, i: nat)
    requires i < 8
    ensures Bit(b + 256 * rest, i) == Bit(b, i)
  {
    assert Pow2(8) == 256;
    assert (b + 256 * rest) % 256 == b;
    BitMod(b + 256 * rest, 8, i);
    BitMod(b, 8, i);
  }

  lemma HighByteBit(b: byte, rest: nat, k: nat)
    ensures Bit(b + 256 * rest, 8 + k) == Bit(rest, k)
  {
    BitShr(b + 256 * rest, 8, k);
    ShrByte(b + 256 * rest);
  }

  lemma ShrTwo(w: nat)
    ensures Shr(w, 2) == w / 4
  {
    assert Shr(w / 2, 1) == Shr(w / 4, 0);
  }

  lemma ShrByte(w: nat)
    ensures Shr(w, 8) == w / 256
  {
    ShrTwo(w);
    ShrTwo(w / 4);
    ShrAdd(w, 2, 2);
    ShrTwo(w / 16);
    ShrTwo(w / 64);
    ShrAdd(w / 16, 2, 2);
    ShrAdd(w, 4, 4);
  }

  lemma {:induction false} ShrAdd(w: nat, a: nat, b: nat)
    ensures Shr(Shr(w, a), b) == Shr(w, a + b)
  {
    if a > 0 { ShrAdd(w / 2, a - 1, b); }
  }

  // Fields of a message

  function Le16(v: nat): seq<byte> { [v % 0x100, v / 0x100 % 0x100] }

  function Le32(v: nat): seq<byte> {
    [v % 0x100, v / 0x100 % 0x100, v / 0x1_0000 % 0x100, v / 0x100_0000 % 0x100]
  }

  function Word(lo: byte, hi: byte): uint16 {
    var h: nat := hi;
    lo + 0x100 * h
  }

  lemma WordOfLe16(v: uint16)
    ensures Word(Le16(v)[0], Le16(v)[1]) == v
  {
  }

  // Copying

  /** bs with data written at a position. */
  function Over(bs: seq<byte>, at: nat, data: seq<byte>): (r: seq<byte>)
    requires at + |data| <= |bs|
    ensures |r| == |bs|
  {
    bs[..at] + data + bs[at + |data|..]
  }

  method CopyInto(block: array<byte>, at: nat, data: seq<byte>)
    requires at + |data| <= block.Length
    modifies block
    ensures block[..] == Over(old(block[..]), at, data)
  {
    for j := 0 to |data|
      invariant forall k | 0 <= k < block.Length ::
                  block[k] == if at <= k < at + j then data[k - at] else old(block[k])
    {
      block[at + j] := data[j];
    }
  }
}
