/** Shared vocabulary: optional values, results, bytes, little-endian integers and hexadecimal text.

    A Dafny `string` stands for the UTF-8 bytes of a Rust string, one `char` per byte, so `|s|` is
    the Rust `s.len()`. */
module Common {

  datatype Option<+T> = None | Some(value: T)

  /** A Rust `Result` whose error value is only ever logged. */
  datatype Result<+T> = Ok(value: T) | Err

  /** The outcome of code that may also panic. */
  datatype Outcome<+T> = Return(value: T) | Panic

  type byte = b: int | 0 <= b < 256
  type uint16 = n: int | 0 <= n < 0x1_0000
  type uint64 = n: int | 0 <= n < 0x1_0000_0000_0000_0000
  type uint32 = n: int | 0 <= n < 0x1_0000_0000
  type Bytes20 = b: seq<byte> | |b| == 20 witness seq(20, _ => 0)
  type Bytes32 = b: seq<byte> | |b| == 32 witness seq(32, _ => 0)

  /** Monotone clock readings, in nanoseconds. */
  type Instant = nat
  const SECOND: nat := 1_000_000_000

  function Map<A, B>(f: A -> B, items: seq<A>): (images: seq<B>)
    ensures |images| == |items|
  {
    seq(|items|, i requires 0 <= i < |items| => f(items[i]))
  }

  lemma MapConcat<A, B>(f: A -> B, a: seq<A>, b: seq<A>)
    ensures Map(f, a + b) == Map(f, a) + Map(f, b)
  {
  }

  lemma MapLast<A, B>(f: A -> B, items: seq<A>, x: A)
    ensures Map(f, items + [x]) == Map(f, items) + [f(x)]
  {
  }

  function Pow(base: nat, exponent: nat): nat {
    if exponent == 0 then 1 else base * Pow(base, exponent - 1)
  }

  lemma Associate<T>(x: seq<T>, y: seq<T>, z: seq<T>)
    ensures x + (y + z) == (x + y) + z
  {
  }

  /** The `size` little-endian bytes of `n`, as `to_le_bytes` gives them. */
  function LeBytes(n: nat, size: nat): (bytes: seq<byte>)
    ensures |bytes| == size
  {
    if size == 0 then [] else [n % 256] + LeBytes(n / 256, size - 1)
  }

  function LeValue(bytes: seq<byte>): nat {
    if bytes == [] then 0 else bytes[0] + 256 * LeValue(bytes[1..])
  }

  lemma {:induction false} LeRoundTrip(n: nat, size: nat)
    requires n < Pow(256, size)
    ensures LeValue(LeBytes(n, size)) == n
  {
    if size > 0 {
      assert n / 256 < Pow(256, size - 1);
      LeRoundTrip(n / 256, size - 1);
      assert LeBytes(n, size)[1..] == LeBytes(n / 256, size - 1);
    }
  }

  lemma LowByteAndRest(low: byte, rest: nat)
    ensures (low + 256 * rest) % 256 == low && (low + 256 * rest) / 256 == rest
  {
  }

  lemma {:induction false} LeBytesOfValue(bytes: seq<byte>)
    ensures LeBytes(LeValue(bytes), |bytes|) == bytes
  {
    if bytes != [] {
      LeBytesOfValue(bytes[1..]);
      LowByteAndRest(bytes[0], LeValue(bytes[1..]));
      assert bytes == [bytes[0]] + bytes[1..];
    }
  }

  /** Byte `k` counts the 256 to the power of `k` of the number. */
  lemma {:induction false} LeBytesAt(n: nat, size: nat, k: nat)
    requires k < size
    ensures Pow(256, k) > 0 && LeBytes(n, size)[k] == n / Pow(256, k) % 256
  {
    if k > 0 {
      LeBytesAt(n / 256, size - 1, k - 1);
      DivideTwice(n, 256, Pow(256, k - 1));
    }
  }

  lemma DivideTwice(n: nat, a: nat, b: nat)
    requires a > 0 && b > 0
    ensures a * b > 0 && n / a / b == n / (a * b)
  {
    var m := n / a;
    var q, r, low := m / b, m % b, n % a;
    Recomposed(n, a);
    Recomposed(m, b);
    Expanded(a, b, q, r, low);
    MultipleGrows(a, b);
    QuotientIs(n, a * b, q, a * r + low);
  }

  lemma Recomposed(n: nat, d: nat)
    requires d > 0
    ensures n == d * (n / d) + n % d && n % d < d
  {
  }

  /** A number in terms of its quotients by `a` and then by `b`. */
  lemma Expanded(a: nat, b: nat, q: nat, r: nat, low: nat)
    requires r < b && low < a
    ensures a * (b * q + r) + low == a * b * q + (a * r + low) && a * r + low < a * b
  {
    assert a * (r + 1) <= a * b;
  }

  lemma MultipleGrows(d: int, x: int)
    requires d > 0
    ensures (x >= 1 ==> d * x >= d) && (x <= -1 ==> d * x <= -d)
  {
  }

  lemma QuotientIs(n: nat, d: nat, q: nat, r: nat)
    requires d > 0 && n == d * q + r && r < d
    ensures n / d == q
  {
    MultipleGrows(d, n / d - q);
    assert d * (n / d - q) == r - n % d;
  }

  const HEX_DIGITS: string := "0123456789abcdef"

  function NibbleToHex(n: nat): (c: char)
    requires n < 16
  {
    HEX_DIGITS[n]
  }

  /** `hex::decode` accepts digits of either case. */
  function HexToNibble(c: char): (n: Option<nat>)
    ensures n.Some? ==> n.value < 16
  {
    if '0' <= c <= '9' then Some(c as nat - '0' as nat)
    else if 'a' <= c <= 'f' then Some(c as nat - 'a' as nat + 10)
    else if 'A' <= c <= 'F' then Some(c as nat - 'A' as nat + 10)
    else None
  }

  function HexEncode(bytes: seq<byte>): string {
    if bytes == [] then ""
    else [NibbleToHex(bytes[0] / 16), NibbleToHex(bytes[0] % 16)] + HexEncode(bytes[1..])
  }

  function HexDecode(text: string): Option<seq<byte>> {
    if text == "" then Some([])
    else if |text| == 1 then None
    else
      match (HexToNibble(text[0]), HexToNibble(text[1]), HexDecode(text[2..]))
      case (Some(high), Some(low), Some(rest)) => Some([16 * high + low] + rest)
      case _ => None
  }

  lemma NibbleRoundTrip(n: nat)
    requires n < 16
    ensures HexToNibble(NibbleToHex(n)) == Some(n)
  {
  }

  lemma HexDecodeDigits(high: nat, low: nat, rest: string)
    requires high < 16 && low < 16 && HexDecode(rest).Some?
    ensures HexDecode([NibbleToHex(high), NibbleToHex(low)] + rest) == Some([16 * high + low] + HexDecode(rest).value)
  {
    NibbleRoundTrip(high);
    NibbleRoundTrip(low);
    var text := [NibbleToHex(high), NibbleToHex(low)] + rest;
    assert text[0] == NibbleToHex(high) && text[1] == NibbleToHex(low) && text[2..] == rest;
  }

  /** Bytes are written as two lower-case digits each, the high one first. */
  lemma {:induction false} HexEncodeAt(bytes: seq<byte>, k: nat)
    requires k < |bytes|
    ensures |HexEncode(bytes)| == 2 * |bytes|
    ensures HexEncode(bytes)[2 * k] == "0123456789abcdef"[bytes[k] / 16]
    ensures HexEncode(bytes)[2 * k + 1] == "0123456789abcdef"[bytes[k] % 16]
  {
    if k > 0 {
      HexEncodeAt(bytes[1..], k - 1);
    } else if |bytes| > 1 {
      HexEncodeAt(bytes[1..], 0);
    }
  }

  predicate IsHexDigit(c: char) {
    '0' <= c <= '9' || 'a' <= c <= 'f' || 'A' <= c <= 'F'
  }

  /** Exactly texts of an even number of digits, of either case, are hexadecimal. */
  lemma {:induction false} HexDecodesIff(text: string)
    ensures HexDecode(text).Some? <==> |text| % 2 == 0 && forall i :: 0 <= i < |text| ==> IsHexDigit(text[i])
  {
    if |text| >= 2 {
      HexDecodesIff(text[2..]);
      assert text == [text[0], text[1]] + text[2..];
    }
  }

  lemma {:induction false} HexRoundTrip(bytes: seq<byte>)
    ensures HexDecode(HexEncode(bytes)) == Some(bytes)
  {
    if bytes != [] {
      HexRoundTrip(bytes[1..]);
      var high, low := bytes[0] / 16, bytes[0] % 16;
      HexDecodeDigits(high, low, HexEncode(bytes[1..]));
      assert 16 * high + low == bytes[0];
      assert bytes == [bytes[0]] + bytes[1..];
    }
  }
}
