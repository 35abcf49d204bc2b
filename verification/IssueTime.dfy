/** The issue time of a token: read back from its ten decimal digits, and as the last eight bytes of the
    hash preimage (nostr-crypto/src/jwt.rs). */
module IssueTime {
  import opened Common
  import Bits
  import Decimal

  const U32: nat := 0x1_0000_0000

  function Digit(c: char): nat
    requires Decimal.IsDigit(c)
  {
    c as nat - '0' as nat
  }

  /** What the digits before `k` contribute to a ten-digit number. */
  function Weighted(text: string, k: nat): nat
    requires Decimal.AllDigits(text) && k <= |text| && k <= 10
  {
    Decimal.Value(text[..k]) * Pow(10, 10 - k)
  }

  function Term(text: string, k: nat): nat
    requires Decimal.AllDigits(text) && k < |text| && k < 10
  {
    Digit(text[k]) * Pow(10, 9 - k)
  }

  lemma Distribute(v: nat, d: nat, p: nat)
    ensures (10 * v + d) * p == v * (10 * p) + d * p
  {
  }

  lemma WeightedMore(text: string, k: nat)
    requires Decimal.AllDigits(text) && k < |text| && k < 10
    ensures Weighted(text, k + 1) == Weighted(text, k) + Term(text, k)
  {
    assert text[..k + 1][..k] == text[..k];
    assert Pow(10, 10 - k) == 10 * Pow(10, 9 - k);
    Distribute(Decimal.Value(text[..k]), Digit(text[k]), Pow(10, 9 - k));
  }

  lemma WeightedEnds(text: string)
    requires Decimal.AllDigits(text) && |text| >= 10
    ensures Weighted(text, 0) == 0 && Weighted(text, 10) == Decimal.Value(text[..10])
  {
  }

  lemma {:induction false} WeightedGrows(text: string, k: nat)
    requires Decimal.AllDigits(text) && k <= 10 <= |text|
    ensures Weighted(text, k) <= Weighted(text, 10)
    decreases 10 - k
  {
    if k < 10 {
      WeightedMore(text, k);
      WeightedGrows(text, k + 1);
    }
  }

  /** `get_iat` with checked 32-bit arithmetic, as a debug build runs it: every product and every partial
      sum must fit. Fewer than ten digits are an index out of range; digits after the tenth are ignored. */
  method GetIat(iat: string) returns (result: Outcome<nat>)
    requires Decimal.AllDigits(iat)
    ensures result == if |iat| >= 10 && Decimal.Value(iat[..10]) < U32 then Return(Decimal.Value(iat[..10])) else Panic
  {
    if |iat| < 10 {
      return Panic;
    }
    var f := 0;
    WeightedEnds(iat);
    for i := 0 to 10
      invariant f == Weighted(iat, i) < U32
    {
      WeightedMore(iat, i);
      WeightedGrows(iat, i + 1);
      var term := (iat[i] as nat - '0' as nat) * Pow(10, 9 - i);
      if term >= U32 || f + term >= U32 {
        return Panic;
      }
      f := f + term;
    }
    result := Return(f);
  }

  /** `get_iat` with wrapping arithmetic, as a release build runs it. */
  method GetIatWrapping(iat: string) returns (f: nat)
    requires Decimal.AllDigits(iat) && |iat| >= 10
    ensures f == Decimal.Value(iat[..10]) % U32
  {
    f := 0;
    WeightedEnds(iat);
    for i := 0 to 10
      invariant f == Weighted(iat, i) % U32
    {
      WeightedMore(iat, i);
      var term := (iat[i] as nat - '0' as nat) * Pow(10, 9 - i);
      WrapSum(Weighted(iat, i), term);
      f := (f + term % U32) % U32;
    }
  }

  lemma WrapSum(a: nat, b: nat)
    ensures (a % U32 + b % U32) % U32 == (a + b) % U32
  {
  }

  /** `output_hash_preimage`: two digests, the nonce, and the issue time through its bits. Anything but ten
      digits, or a nonce that does not fill up 104 bytes, panics. */
  method OutputHashPreimage(keyHash: Bytes32, idHash: Bytes32, nonce: seq<byte>, iat: string)
    returns (result: Outcome<seq<byte>>)
    requires Decimal.AllDigits(iat)
    ensures result == if |iat| == 10 && |nonce| == 32
      then Return(keyHash + idHash + nonce + LeBytes(Decimal.Value(iat), 8)) else Panic
  {
    if |iat| != 10 {
      return Panic;
    }
    var f := 0;
    WeightedEnds(iat);
    for i := 0 to 10
      invariant f == Weighted(iat, i)
    {
      WeightedMore(iat, i);
      f := f + (iat[i] as nat - '0' as nat) * Pow(10, 9 - i);
    }
    assert iat[..10] == iat;
    var bits := Bits.ToBits(f, 64);
    Bits.BitsGiveLittleEndian(f, 8);
    var output := keyHash + idHash;
    output := output + nonce;
    output := output + Bits.BitsToBytes(bits);
    result := if |output| == 104 then Return(output) else Panic;
  }

  // ---------------------------------------------------------------- round trip

  lemma {:induction false} PrintedLength(n: nat, k: nat)
    requires k > 0
    ensures |Decimal.Print(n)| == k <==> (if k == 1 then 0 else Pow(10, k - 1)) <= n < Pow(10, k)
  {
    assert Pow(10, 1) == 10 && Pow(10, 0) == 1;
    if n >= 10 {
      if k > 1 {
        PrintedLength(n / 10, k - 1);
        var p := Pow(10, k - 1);
        assert n < 10 * p <==> n / 10 < p;
        if k > 2 { assert 10 * Pow(10, k - 2) <= n <==> Pow(10, k - 2) <= n / 10; }
      }
    } else if k > 1 {
      Pow10AtLeast10(k - 1);
    }
  }

  lemma {:induction false} Pow10AtLeast10(k: nat)
    requires k > 0
    ensures Pow(10, k) >= 10
  {
    if k > 1 { Pow10AtLeast10(k - 1); } else { assert Pow(10, 1) == 10; }
  }

  /** Every ten-digit issue time comes back from the last eight bytes of the preimage, and from `get_iat`
      exactly when it fits in 32 bits. */
  lemma IssueTimeRoundTrip(n: nat)
    requires 1_000_000_000 <= n < 10_000_000_000
    ensures var iat := Decimal.Print(n);
      && |iat| == 10 && Decimal.AllDigits(iat) && Decimal.Value(iat) == Decimal.Value(iat[..10]) == n
      && LeValue(LeBytes(Decimal.Value(iat), 8)) == n
  {
    Pow10Of9();
    PrintedLength(n, 10);
    Decimal.ValueOfPrint(n);
    assert Decimal.Print(n)[..10] == Decimal.Print(n);
    Pow256Of8();
    LeRoundTrip(n, 8);
  }

  lemma Pow10Of9()
    ensures Pow(10, 9) == 1_000_000_000 && Pow(10, 10) == 10_000_000_000
  {
    assert Pow(10, 3) == 1000;
    assert Pow(10, 6) == 1_000_000;
  }

  lemma Pow256Of8()
    ensures Pow(256, 8) == 0x1_0000_0000_0000_0000
  {
  }

  /** The two readings of the issue time, run on what the program stores. */
  method ReadBack(n: nat, keyHash: Bytes32, idHash: Bytes32, nonce: Bytes32)
    returns (iat: Outcome<nat>, wrapped: nat, preimage: Outcome<seq<byte>>)
    requires 1_000_000_000 <= n < 10_000_000_000
    ensures iat == if n < U32 then Return(n) else Panic
    ensures wrapped == n % U32
    ensures preimage.Return? && |preimage.value| == 104
    ensures LeValue(preimage.value[96..]) == n
  {
    IssueTimeRoundTrip(n);
    var text := Decimal.Print(n);
    iat := GetIat(text);
    wrapped := GetIatWrapping(text);
    preimage := OutputHashPreimage(keyHash, idHash, nonce, text);
    assert preimage.value[96..] == LeBytes(n, 8);
  }
}
