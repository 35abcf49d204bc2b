/** Conversions between integers, bytes and bits, least significant bit first (nostr-crypto/src/utils.rs). */
module Bits {
  import opened Common

  function BitsOf(n: nat, width: nat): (bits: seq<bool>)
    ensures |bits| == width
  {
    if width == 0 then [] else [n % 2 == 1] + BitsOf(n / 2, width - 1)
  }

  function BitValue(bits: seq<bool>): nat {
    if bits == [] then 0 else (if bits[0] then 1 else 0) + 2 * BitValue(bits[1..])
  }

  lemma {:induction false} BitsRoundTrip(n: nat, width: nat)
    requires n < Pow(2, width)
    ensures BitValue(BitsOf(n, width)) == n
  {
    if width > 0 {
      BitsRoundTrip(n / 2, width - 1);
      assert BitsOf(n, width)[1..] == BitsOf(n / 2, width - 1);
    }
  }

  lemma {:induction false} ValueRoundTrip(bits: seq<bool>)
    ensures BitValue(bits) < Pow(2, |bits|) && BitsOf(BitValue(bits), |bits|) == bits
  {
    if bits != [] {
      ValueRoundTrip(bits[1..]);
      var v := BitValue(bits[1..]);
      assert (1 + 2 * v) / 2 == v && (2 * v) / 2 == v;
      assert bits == [bits[0]] + bits[1..];
    }
  }

  lemma {:induction false} BitValueMore(bits: seq<bool>, bit: bool)
    ensures BitValue(bits + [bit]) == BitValue(bits) + if bit then Pow(2, |bits|) else 0
  {
    if bits == [] {
      assert bits + [bit] == [bit] && [bit][1..] == [];
    } else {
      BitValueMore(bits[1..], bit);
      assert (bits + [bit])[1..] == bits[1..] + [bit];
    }
  }

  /** `from_bits_to_u64`, `u32` and `u8` are this loop for widths 64, 32 and 8: bits beyond the width are
      ignored. Setting a bit that is still zero is adding its weight. */
  method FromBits(bits: seq<bool>, width: nat) returns (result: nat)
    ensures result == BitValue(if |bits| < width then bits else bits[..width])
    ensures result < Pow(2, width)
  {
    result := 0;
    var shift := 0;
    while shift < |bits| && shift < width
      invariant shift <= |bits| && shift <= width
      invariant result == BitValue(bits[..shift])
    {
      BitValueMore(bits[..shift], bits[shift]);
      assert bits[..shift + 1] == bits[..shift] + [bits[shift]];
      if bits[shift] {
        result := result + Pow(2, shift);
      }
      shift := shift + 1;
    }
    assert |bits| < width ==> bits[..shift] == bits;
    ValueRoundTrip(bits[..shift]);
    Pow2Monotone(shift, width);
  }

  lemma {:induction false} Pow2Monotone(a: nat, b: nat)
    requires a <= b
    ensures 0 < Pow(2, a) <= Pow(2, b)
  {
    if a < b {
      Pow2Monotone(a, b - 1);
    } else if a > 0 {
      Pow2Monotone(a - 1, a - 1);
    }
  }

  /** `n` shifted right by `k`. */
  function Shifted(n: nat, k: nat): nat {
    if k == 0 then n else Shifted(n / 2, k - 1)
  }

  lemma {:induction false} ShiftedOnce(n: nat, k: nat)
    ensures Shifted(n, k + 1) == Shifted(n, k) / 2
  {
    if k > 0 { ShiftedOnce(n / 2, k - 1); }
  }

  lemma {:induction false} BitsOfMore(n: nat, width: nat)
    ensures BitsOf(n, width + 1) == BitsOf(n, width) + [Shifted(n, width) % 2 == 1]
  {
    if width > 0 { BitsOfMore(n / 2, width - 1); }
  }

  /** `u64_to_bits`, `u32_to_bits` and `u8_to_bits` for widths 64, 32 and 8. */
  method ToBits(num: nat, width: nat) returns (bits: seq<bool>)
    ensures bits == BitsOf(num, width)
  {
    bits := [];
    var n := num;
    for i := 0 to width
      invariant bits == BitsOf(num, i) && n == Shifted(num, i)
    {
      BitsOfMore(num, i);
      ShiftedOnce(num, i);
      bits := bits + [n % 2 == 1];
      n := n / 2;
    }
  }

  // ---------------------------------------------------------------- bytes

  /** `bits_to_bytes`: chunks of eight, the last one possibly shorter. */
  function BitsToBytes(bits: seq<bool>): seq<byte> {
    if bits == [] then []
    else
      var chunk := if |bits| < 8 then bits else bits[..8];
      ChunkIsByte(chunk);
      [BitValue(chunk)] + BitsToBytes(bits[|chunk|..])
  }

  lemma Pow2Of8()
    ensures Pow(2, 8) == 256
  {
  }

  lemma ChunkIsByte(chunk: seq<bool>)
    requires |chunk| <= 8
    ensures BitValue(chunk) < 256
  {
    ValueRoundTrip(chunk);
    Pow2Monotone(|chunk|, 8);
    Pow2Of8();
  }

  /** `bytes_to_bits`. */
  function BytesToBits(bytes: seq<byte>, bigEndian: bool): seq<bool> {
    if bytes == [] then []
    else (if bigEndian then Reversed(BitsOf(bytes[0], 8)) else BitsOf(bytes[0], 8)) + BytesToBits(bytes[1..], bigEndian)
  }

  function Reversed(bits: seq<bool>): seq<bool> {
    if bits == [] then [] else Reversed(bits[1..]) + [bits[0]]
  }

  /** Bit `i` counts the 2 to the power of `i` of the number. */
  lemma {:induction false} BitsOfAt(n: nat, width: nat, i: nat)
    requires i < width
    ensures Pow(2, i) > 0 && (BitsOf(n, width)[i] <==> n / Pow(2, i) % 2 == 1)
  {
    if i > 0 {
      BitsOfAt(n / 2, width - 1, i - 1);
      DivideTwice(n, 2, Pow(2, i - 1));
    }
  }

  lemma {:induction false} ReversedAt(bits: seq<bool>, i: nat)
    requires i < |bits|
    ensures |Reversed(bits)| == |bits| && Reversed(bits)[i] == bits[|bits| - 1 - i]
  {
    if |bits| > 1 { ReversedAt(bits[1..], if i < |bits| - 1 then i else 0); }
  }

  lemma ByteAt(bits: seq<bool>, bigEndian: bool, j: nat)
    requires |bits| == 8 && j < 8
    ensures var ordered := if bigEndian then Reversed(bits) else bits;
      |ordered| == 8 && ordered[j] == bits[if bigEndian then 7 - j else j]
  {
    ReversedAt(bits, j);
  }

  lemma {:induction false} ChunkAt(bytes: seq<byte>, bigEndian: bool, i: nat, j: nat)
    requires i < |bytes| && j < 8
    ensures |BytesToBits(bytes, bigEndian)| == 8 * |bytes|
    ensures BytesToBits(bytes, bigEndian)[8 * i + j] == BitsOf(bytes[i], 8)[if bigEndian then 7 - j else j]
  {
    ByteAt(BitsOf(bytes[0], 8), bigEndian, j);
    if i > 0 {
      ChunkAt(bytes[1..], bigEndian, i - 1, j);
    } else if |bytes| > 1 {
      ChunkAt(bytes[1..], bigEndian, 0, j);
    }
  }

  /** Bit `j` of byte `i`, counted from the low end or from the high end. */
  lemma BytesToBitsAt(bytes: seq<byte>, bigEndian: bool, i: nat, j: nat)
    requires i < |bytes| && j < 8
    ensures |BytesToBits(bytes, bigEndian)| == 8 * |bytes|
    ensures var k := if bigEndian then 7 - j else j;
      Pow(2, k) > 0 && (BytesToBits(bytes, bigEndian)[8 * i + j] <==> bytes[i] / Pow(2, k) % 2 == 1)
  {
    ChunkAt(bytes, bigEndian, i, j);
    BitsOfAt(bytes[i], 8, if bigEndian then 7 - j else j);
  }

  /** A last chunk of fewer than eight bits is a byte of its own, its missing bits zero. */
  lemma {:induction false} ShortChunk(bits: seq<bool>, chunk: seq<bool>)
    requires |bits| % 8 == 0 && 0 < |chunk| < 8
    ensures BitValue(chunk) < 256 && BitsToBytes(bits + chunk) == BitsToBytes(bits) + [BitValue(chunk)]
  {
    ChunkIsByte(chunk);
    if bits == [] {
      assert bits + chunk == chunk && chunk[|chunk|..] == [];
    } else {
      ShortChunk(bits[8..], chunk);
      assert (bits + chunk)[..8] == bits[..8] && (bits + chunk)[8..] == bits[8..] + chunk;
    }
  }

  /** Bytes survive the way through bits, and whole bytes of bits survive the way through bytes. */
  lemma {:induction false} BytesRoundTrip(bytes: seq<byte>)
    ensures BitsToBytes(BytesToBits(bytes, false)) == bytes
  {
    if bytes != [] {
      var bits, first := BytesToBits(bytes, false), BitsOf(bytes[0], 8);
      BytesRoundTrip(bytes[1..]);
      Pow2Of8();
      BitsRoundTrip(bytes[0], 8);
      assert bits[..8] == first && bits[8..] == BytesToBits(bytes[1..], false);
    }
  }

  lemma {:induction false} WholeBytesRoundTrip(bits: seq<bool>)
    requires |bits| % 8 == 0
    ensures BytesToBits(BitsToBytes(bits), false) == bits
  {
    if bits != [] {
      WholeBytesRoundTrip(bits[8..]);
      ValueRoundTrip(bits[..8]);
      assert BitsToBytes(bits)[1..] == BitsToBytes(bits[8..]);
      assert bits == bits[..8] + bits[8..];
    }
  }

  lemma {:induction false} BitsSplit(n: nat, a: nat, b: nat)
    ensures BitsOf(n, a + b) == BitsOf(n, a) + BitsOf(Shifted(n, a), b)
  {
    if a > 0 { BitsSplit(n / 2, a - 1, b); }
  }

  lemma Halves(n: nat, low: nat, p: nat, h: nat)
    requires n / 2 == low + p * h
    ensures n == n % 2 + 2 * low + (2 * p) * h
  {
  }

  lemma {:induction false} LowBits(n: nat, width: nat)
    ensures n == BitValue(BitsOf(n, width)) + Pow(2, width) * Shifted(n, width)
  {
    if width > 0 {
      LowBits(n / 2, width - 1);
      assert BitsOf(n, width)[1..] == BitsOf(n / 2, width - 1);
      Halves(n, BitValue(BitsOf(n / 2, width - 1)), Pow(2, width - 1), Shifted(n, width));
    }
  }

  lemma QuotientAndRest(n: nat, rest: nat, h: nat)
    requires n == rest + 256 * h && rest < 256
    ensures rest == n % 256 && h == n / 256
  {
  }

  lemma LowByte(n: nat)
    ensures BitValue(BitsOf(n, 8)) == n % 256 && Shifted(n, 8) == n / 256
  {
    LowBits(n, 8);
    ChunkIsByte(BitsOf(n, 8));
    Pow2Of8();
    QuotientAndRest(n, BitValue(BitsOf(n, 8)), Shifted(n, 8));
  }

  /** Through its bits, an integer becomes its little-endian bytes. */
  lemma {:induction false} BitsGiveLittleEndian(n: nat, size: nat)
    ensures BitsToBytes(BitsOf(n, 8 * size)) == LeBytes(n, size)
  {
    if size > 0 {
      var rest := 8 * size - 8;
      BitsSplit(n, 8, rest);
      LowByte(n);
      BitsGiveLittleEndian(n / 256, size - 1);
      var bits := BitsOf(n, 8 * size);
      assert bits[..8] == BitsOf(n, 8) && bits[8..] == BitsOf(n / 256, rest);
    }
  }
}
