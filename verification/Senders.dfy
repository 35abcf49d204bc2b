/** Sender identities and their byte form (nostr-plus-common/src/sender.rs). */
module Senders {
  import opened Common

  datatype Sender =
    | SchnorrPubKey(key: Bytes32)
    | EoaAddress(address: Bytes20)
    | ContractAddress(chainId: uint32, contract: Bytes20)
    | Ens(node: Bytes32)
  {
    function Prefix(): uint32 {
      match this
      case SchnorrPubKey(_) => 0
      case EoaAddress(_) => 1
      case ContractAddress(_, _) => 2
      case Ens(_) => 3
    }

    function Content(): seq<byte> {
      match this
      case SchnorrPubKey(key) => key
      case EoaAddress(address) => address
      case ContractAddress(chainId, contract) => LeBytes(chainId, 4) + contract
      case Ens(node) => node
    }

    function ToBytes(): seq<byte> {
      LeBytes(Prefix(), 4) + Content()
    }
  }

  /** `Sender::from_bytes`: slicing a text that is too short panics, an unknown prefix is `None`, and
      bytes after the identity are ignored. */
  function FromBytes(bytes: seq<byte>): Outcome<Option<Sender>> {
    if |bytes| < 4 then Panic else FromContent(LeValue(bytes[..4]), bytes[4..])
  }

  function FromContent(prefix: nat, content: seq<byte>): Outcome<Option<Sender>> {
    if prefix == 0 then
      if |content| < 32 then Panic else Return(Some(SchnorrPubKey(content[..32])))
    else if prefix == 1 then
      if |content| < 20 then Panic else Return(Some(EoaAddress(content[..20])))
    else if prefix == 2 then
      if |content| < 24 then Panic
      else
        LeValue4Bound(content[..4]);
        Return(Some(ContractAddress(LeValue(content[..4]), content[4..24])))
    else if prefix == 3 then
      if |content| < 32 then Panic else Return(Some(Ens(content[..32])))
    else Return(None)
  }

  /** The encodings: four bytes for the kind, then its fields, numbers in little-endian order. */
  lemma EncodedKinds(key: Bytes32, address: Bytes20, chainId: uint32)
    ensures SchnorrPubKey(key).ToBytes() == [0, 0, 0, 0] + key
    ensures EoaAddress(address).ToBytes() == [1, 0, 0, 0] + address
    ensures ContractAddress(chainId, address).ToBytes() == [2, 0, 0, 0] + LeBytes(chainId, 4) + address
    ensures Ens(key).ToBytes() == [3, 0, 0, 0] + key
  {
    forall n: nat | n < 256 ensures LeBytes(n, 4) == [n, 0, 0, 0] { LeBytesOfSmall(n); }
  }

  lemma LeBytesOfSmall(n: nat)
    requires n < 256
    ensures LeBytes(n, 4) == [n, 0, 0, 0]
  {
    assert LeBytes(0, 3) == [0] + LeBytes(0, 2) == [0] + ([0] + LeBytes(0, 1));
  }

  /** How many bytes must follow a prefix. */
  function ContentSize(prefix: nat): nat {
    if prefix == 0 || prefix == 3 then 32
    else if prefix == 1 then 20
    else if prefix == 2 then 24
    else 0
  }

  predicate TooShort(bytes: seq<byte>) {
    |bytes| < 4 || |bytes| - 4 < ContentSize(LeValue(bytes[..4]))
  }

  /** Decoding panics exactly on bytes too short for a prefix, or for the content their prefix announces. */
  lemma DecodePanicsIff(bytes: seq<byte>)
    ensures FromBytes(bytes) == Panic <==> TooShort(bytes)
  {
  }

  lemma LeValue4Bound(bytes: seq<byte>)
    requires |bytes| == 4
    ensures LeValue(bytes) < 0x1_0000_0000
  {
    assert LeValue(bytes) == bytes[0] + 256 * LeValue(bytes[1..]);
    assert LeValue(bytes[1..]) == bytes[1] + 256 * LeValue(bytes[2..]) by {
      assert bytes[1..][1..] == bytes[2..];
    }
    assert LeValue(bytes[2..]) == bytes[2] + 256 * LeValue(bytes[3..]) by {
      assert bytes[2..][1..] == bytes[3..];
    }
    assert LeValue(bytes[3..]) == bytes[3] by { assert bytes[3..][1..] == []; }
  }

  lemma Pow256Of4()
    ensures Pow(256, 4) == 0x1_0000_0000
  {
  }

  /** Reading back a four-byte little-endian integer that is followed by anything. */
  lemma ReadUint32(n: uint32, rest: seq<byte>)
    ensures var bytes := LeBytes(n, 4) + rest;
      bytes[4..] == rest && LeValue(bytes[..4]) == n
  {
    Pow256Of4();
    LeRoundTrip(n, 4);
    assert (LeBytes(n, 4) + rest)[..4] == LeBytes(n, 4);
  }

  lemma ContentRoundTrip(s: Sender, tail: seq<byte>)
    ensures FromContent(s.Prefix(), s.Content() + tail) == Return(Some(s))
  {
    if s.ContractAddress? {
      ReadUint32(s.chainId, s.contract + tail);
      assert s.Content() + tail == LeBytes(s.chainId, 4) + (s.contract + tail);
      assert (s.Content() + tail)[4..24] == s.contract;
    }
  }

  /** The byte form is prefix-free: whatever follows it, decoding finds the sender again. */
  lemma DecodeEncoded(s: Sender, tail: seq<byte>)
    ensures FromBytes(s.ToBytes() + tail) == Return(Some(s))
  {
    ReadUint32(s.Prefix(), s.Content() + tail);
    assert s.ToBytes() + tail == LeBytes(s.Prefix(), 4) + (s.Content() + tail);
    ContentRoundTrip(s, tail);
  }

  lemma DecodedContent(s: Sender, prefix: nat, content: seq<byte>)
    requires FromContent(prefix, content) == Return(Some(s))
    ensures prefix == s.Prefix() && s.Content() <= content
  {
    if s.ContractAddress? {
      LeBytesOfValue(content[..4]);
      assert s.Content() == content[..4] + content[4..24] == content[..24];
    }
  }

  lemma DecodedIsPrefix(s: Sender, bytes: seq<byte>)
    requires FromBytes(bytes) == Return(Some(s))
    ensures s.ToBytes() <= bytes
  {
    DecodedContent(s, LeValue(bytes[..4]), bytes[4..]);
    LeBytesOfValue(bytes[..4]);
    assert bytes == bytes[..4] + bytes[4..];
  }

  /** Decoding is exact: it yields `s` on the byte strings that start with the byte form of `s`,
      and on no others. */
  lemma DecodeExact(s: Sender, bytes: seq<byte>)
    ensures FromBytes(bytes) == Return(Some(s)) <==> s.ToBytes() <= bytes
  {
    if FromBytes(bytes) == Return(Some(s)) {
      DecodedIsPrefix(s, bytes);
    }
    if s.ToBytes() <= bytes {
      DecodeEncoded(s, bytes[|s.ToBytes()|..]);
      assert s.ToBytes() + bytes[|s.ToBytes()|..] == bytes;
    }
  }

  /** No byte form is a prefix of another sender's byte form. */
  lemma PrefixFree(a: Sender, b: Sender)
    requires a.ToBytes() <= b.ToBytes()
    ensures a == b
  {
    DecodeExact(a, b.ToBytes());
    DecodeExact(b, b.ToBytes());
  }
}
