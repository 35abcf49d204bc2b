/** The RSA signature check (nostr-crypto/src/rsa.rs): RSASSA-PKCS1-v1_5 verification of section 8.2.2 of
    RFC 8017 with the EMSA-PKCS1-v1_5 encoding of section 9.2, for SHA-256 and 256-byte moduli. */
module RsaPadding {
  import opened Common

  const SIZE: nat := 256

  /** The big-endian value of a byte string. */
  function BeValue(bytes: seq<byte>): nat {
    if bytes == [] then 0 else 256 * BeValue(bytes[..|bytes| - 1]) + bytes[|bytes| - 1]
  }

  lemma BeValueMore(bytes: seq<byte>, low: byte)
    ensures BeValue([]) == 0 && BeValue(bytes + [low]) == 256 * BeValue(bytes) + low
  {
    assert (bytes + [low])[..|bytes|] == bytes;
  }

  /** `to_bytes_be`: no leading zero, but one byte for zero. */
  function ToBytesBe(n: nat): (bytes: seq<byte>)
    ensures bytes != []
  {
    if n < 256 then [n] else ToBytesBe(n / 256) + [n % 256]
  }

  lemma {:induction false} ToBytesBeRoundTrip(n: nat)
    ensures BeValue(ToBytesBe(n)) == n
  {
    if n >= 256 {
      ToBytesBeRoundTrip(n / 256);
      assert ToBytesBe(n)[..|ToBytesBe(n)| - 1] == ToBytesBe(n / 256);
    } else {
      assert [n][..0] == [];
    }
  }

  /** A number takes no more bytes than the size exactly when it is below 256 to that power. */
  lemma {:induction false} FitsIff(n: nat, size: nat)
    requires size > 0
    ensures |ToBytesBe(n)| <= size <==> n < Pow(256, size)
  {
    if size == 1 {
      assert Pow(256, 1) == 256;
    } else {
      FitsIff(n / 256, size - 1);
      var p := Pow(256, size - 1);
      assert Pow(256, size) == 256 * p;
      assert n < 256 * p <==> n / 256 < p;
      if n < 256 { PowIsPositive(size - 1); }
    }
  }

  lemma {:induction false} PowIsPositive(k: nat)
    ensures Pow(256, k) > 0
  {
    if k > 0 { PowIsPositive(k - 1); }
  }

  function Zeros(k: nat): (zeros: seq<byte>)
    ensures |zeros| == k && forall i :: 0 <= i < k ==> zeros[i] == 0
  {
    seq(k, _ => 0)
  }

  lemma {:induction false} LeadingZeros(k: nat, bytes: seq<byte>)
    ensures BeValue(Zeros(k) + bytes) == BeValue(bytes)
    decreases k + |bytes|
  {
    var all := Zeros(k) + bytes;
    if bytes != [] {
      LeadingZeros(k, bytes[..|bytes| - 1]);
      assert all[..|all| - 1] == Zeros(k) + bytes[..|bytes| - 1];
    } else if k > 0 {
      LeadingZeros(k - 1, []);
      assert all[..|all| - 1] == Zeros(k - 1) + [];
    }
  }

  /** Byte strings of one length are told apart by their values. */
  lemma {:induction false} SameValueSameBytes(a: seq<byte>, b: seq<byte>)
    requires |a| == |b|
    ensures BeValue(a) == BeValue(b) <==> a == b
  {
    if a != [] {
      SameValueSameBytes(a[..|a| - 1], b[..|b| - 1]);
      assert a == a[..|a| - 1] + [a[|a| - 1]] && b == b[..|b| - 1] + [b[|b| - 1]];
    }
  }

  // ---------------------------------------------------------------- the encoded message

  /** The DER prefix of a SHA-256 digest. */
  const SHA256_PREFIX: seq<byte> :=
    [0x30, 0x31, 0x30, 0x0d, 0x06, 0x09, 0x60, 0x86, 0x48, 0x01, 0x65, 0x03, 0x04, 0x02, 0x01, 0x05, 0x00, 0x04, 0x20]

  function Ones(k: nat): (ones: seq<byte>)
    ensures |ones| == k && forall i :: 0 <= i < k ==> ones[i] == 0xff
  {
    seq(k, _ => 0xff)
  }

  /** EMSA-PKCS1-v1_5: 0x00, 0x01, padding, 0x00, then the digest with its prefix, 256 bytes in all. */
  function Encoded(hash: Bytes32): (em: seq<byte>)
    ensures |em| == SIZE
  {
    [0x00, 0x01] + Ones(SIZE - |SHA256_PREFIX| - 32 - 3) + [0x00] + SHA256_PREFIX + hash
  }

  /** Byte by byte, for SHA-256 and 256 bytes. */
  lemma EncodedBytes(hash: Bytes32)
    ensures var em := Encoded(hash);
      && em[0] == 0 && em[1] == 1 && em[204] == 0
      && (forall i :: 2 <= i < 204 ==> em[i] == 255)
      && em[205..224] == [48, 49, 48, 13, 6, 9, 96, 134, 72, 1, 101, 3, 4, 2, 1, 5, 0, 4, 32]
      && em[224..] == hash
  {
  }

  /** What the three loops and the three single tests check, region by region. */
  ghost predicate Regions(m: seq<byte>, hash: Bytes32) {
    && |m| == SIZE && m[0] == 0x00 && m[1] == 0x01
    && (forall k :: 2 <= k < 204 ==> m[k] == 0xff)
    && m[204] == 0x00
    && (forall i :: 0 <= i < 19 ==> m[205 + i] == SHA256_PREFIX[i])
    && (forall i :: 0 <= i < 32 ==> m[224 + i] == hash[i])
  }

  lemma RegionsAreTheEncoding(m: seq<byte>, hash: Bytes32)
    requires |m| == SIZE
    ensures Regions(m, hash) <==> m == Encoded(hash)
  {
  }

  /** Right-aligned bytes pass the check exactly when they have the value of the encoded hash. */
  lemma PaddedMatches(p: seq<byte>, hash: Bytes32)
    requires |p| <= SIZE
    ensures Regions(Zeros(SIZE - |p|) + p, hash) <==> BeValue(p) == BeValue(Encoded(hash))
  {
    var m := Zeros(SIZE - |p|) + p;
    LeadingZeros(SIZE - |p|, p);
    SameValueSameBytes(m, Encoded(hash));
    RegionsAreTheEncoding(m, hash);
  }

  /** `rsa_verify`: the check accepts exactly when the signature's power, as an integer, is the value of the
      encoded hash. A zero modulus, or a power that does not fit the buffer, panics. */
  method RsaVerify(s: nat, modulus: nat, hash: Bytes32) returns (ok: Outcome<bool>)
    ensures ok == Panic <==> modulus == 0 || Pow(s, 65537) % modulus >= Pow(256, SIZE)
    ensures 0 < modulus <= Pow(256, SIZE) ==> ok.Return?
    ensures ok.Return? ==> (ok.value <==> Pow(s, 65537) % modulus == BeValue(Encoded(hash)))
  {
    if modulus == 0 {
      return Panic;
    }
    var power := Pow(s, 65537) % modulus;
    var p := ToBytesBe(power);
    ToBytesBeRoundTrip(power);
    FitsIff(power, SIZE);
    if |p| > SIZE {
      return Panic;
    }
    var m := new byte[SIZE](_ => 0);
    forall i | 0 <= i < |p| {
      m[SIZE - |p| + i] := p[i];
    }
    assert m[..] == Zeros(SIZE - |p|) + p;
    PaddedMatches(p, hash);
    var accepted := CheckPadding(m, hash);
    ok := Return(accepted);
  }

  method CheckPadding(m: array<byte>, hash: Bytes32) returns (ok: bool)
    requires m.Length == SIZE
    ensures ok <==> Regions(m[..], hash)
  {
    var paddingLen := m.Length - 3 - 19 - 32;
    if m[0] != 0x00 || m[1] != 0x01 {
      return false;
    }
    for i := 0 to paddingLen
      invariant forall k :: 2 <= k < i + 2 ==> m[..][k] == 0xff
    {
      if m[i + 2] != 0xff {
        assert m[..][i + 2] != 0xff;
        return false;
      }
    }
    if m[2 + paddingLen] != 0x00 {
      return false;
    }
    for i := 0 to 19
      invariant forall j :: 0 <= j < i ==> m[..][205 + j] == SHA256_PREFIX[j]
    {
      if m[2 + paddingLen + 1 + i] != SHA256_PREFIX[i] {
        assert m[..][205 + i] != SHA256_PREFIX[i];
        return false;
      }
    }
    for i := 0 to 32
      invariant forall j :: 0 <= j < i ==> m[..][224 + j] == hash[j]
    {
      if m[2 + paddingLen + 1 + 19 + i] != hash[i] {
        assert m[..][224 + i] != hash[i];
        return false;
      }
    }
    ok := true;
  }
}
