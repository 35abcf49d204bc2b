/** Hierarchical name hashing (nostr-crypto/src/hash.rs) against the recursive algorithm of the "namehash
    algorithm" section of ERC-137. `keccak` stands for the hash function. */
module NameHash {
  import opened Common

  type Digest = Bytes32
  type Hash = seq<byte> -> Digest

  function Zero(): (zero: Digest)
    ensures forall i :: 0 <= i < |zero| ==> zero[i] == 0
  {
    seq(32, _ => 0)
  }

  /** `str::split` at dots; the empty string is one empty label. */
  function Split(name: string): (labels: seq<string>)
    ensures labels != []
  {
    if name == "" then [""]
    else
      var rest := Split(name[1..]);
      if name[0] == '.' then [""] + rest else [[name[0]] + rest[0]] + rest[1..]
  }

  predicate IsPart(part: string) { '.' !in part }

  function BytesOf(text: string): seq<byte> {
    seq(|text|, i requires 0 <= i < |text| => text[i] as int % 256)
  }

  /** The recursive definition over labels: the name without its first label, then that label. */
  function LabelsHash(keccak: Hash, labels: seq<string>): Digest {
    if labels == [] then Zero()
    else keccak(LabelsHash(keccak, labels[1..]) + keccak(BytesOf(labels[0])))
  }

  /** ERC-137: the empty name hashes to zeros, every other through its labels. */
  function Erc137(keccak: Hash, name: string): Digest {
    if name == "" then Zero() else LabelsHash(keccak, Split(name))
  }

  lemma {:induction false} SplitFirst(part: string, rest: string)
    requires IsPart(part)
    ensures Split(part + "." + rest) == [part] + Split(rest)
  {
    if part == "" {
      assert (part + "." + rest)[1..] == rest;
    } else {
      SplitFirst(part[1..], rest);
      var name := part + "." + rest;
      assert name[1..] == part[1..] + "." + rest && name[0] == part[0];
      assert part[0] in part;
      assert [part[0]] + part[1..] == part;
      assert ([part[1..]] + Split(rest))[1..] == Split(rest);
    }
  }

  lemma {:induction false} SplitOne(part: string)
    requires IsPart(part)
    ensures Split(part) == [part]
  {
    if part != "" {
      SplitOne(part[1..]);
      assert part[0] in part;
      assert [part[0]] + part[1..] == part;
    }
  }

  /** `mizu_name_hash`: a loop from the last label down to the first. */
  method MizuNameHash(keccak: Hash, name: string) returns (result: Digest)
    ensures result == LabelsHash(keccak, Split(name))
    ensures result == Erc137(keccak, name) <==> name != "" || keccak(Zero() + keccak([])) == Zero()
  {
    result := Zero();
    var labels := Split(name);
    var index := |labels| - 1;
    assert labels[|labels|..] == [];
    while true
      invariant 0 <= index < |labels|
      invariant result == LabelsHash(keccak, labels[index + 1..])
      decreases index
    {
      var hashed := keccak(BytesOf(labels[index]));
      assert labels[index..][1..] == labels[index + 1..];
      result := keccak(result + hashed);
      if index == 0 {
        break;
      }
      index := index - 1;
    }
    assert labels[0..] == labels;
    if name == "" {
      assert labels == [""] && BytesOf("") == [] && labels[1..] == [];
    }
  }

  /** A text is hashed byte by byte. */
  lemma BytesOfAt(text: string, i: nat)
    requires i < |text| && text[i] as int < 256
    ensures |BytesOf(text)| == |text| && BytesOf(text)[i] == text[i] as int
  {
  }

  /** The hash of a name is built from the hash of what follows its first label, as ERC-137 defines it; a
      single label is built on zeros. */
  lemma HashIsHierarchical(keccak: Hash, part: string, rest: string)
    requires IsPart(part)
    ensures LabelsHash(keccak, Split(part + "." + rest))
         == keccak(LabelsHash(keccak, Split(rest)) + keccak(BytesOf(part)))
    ensures LabelsHash(keccak, Split(part)) == keccak(Zero() + keccak(BytesOf(part)))
  {
    SplitFirst(part, rest);
    assert ([part] + Split(rest))[1..] == Split(rest);
    SplitOne(part);
    assert [part][1..] == [];
  }
}
