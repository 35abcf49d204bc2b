/** Messages as they arrive, after JSON parsing (nostr-plus-common/src/wire.rs). */
module Wire {
  import opened Common
  import Senders

  type Timestamp = uint64
  type Tag = seq<string>

  datatype EventOnWire = EventOnWire(
    id: Bytes32, sender: Senders.Sender, createdAt: Timestamp, kind: uint16,
    tags: seq<Tag>, content: string, sig: seq<byte>)

  /** A JSON value under a key the filter does not know: a list of strings, or anything else. */
  datatype TagValue = Strings(items: seq<string>) | OtherJson

  datatype FilterOnWire = FilterOnWire(
    ids: seq<Bytes32>, authors: seq<Senders.Sender>, kinds: seq<uint16>,
    since: Option<Timestamp>, until: Option<Timestamp>, limit: Option<uint64>,
    tags: map<string, TagValue>)

  /** Whether the signature of such a sender can be checked at all. */
  predicate CanSign(sender: Senders.Sender) {
    sender.SchnorrPubKey? || sender.EoaAddress?
  }

  /** `verify`: the id must be the hash of the event, then the signature must be the sender's. Checking that
      of a contract or a name is not implemented, and panics. `signed` is the outcome of the check. */
  function Verify(ev: EventOnWire, idHash: EventOnWire -> Bytes32, signed: bool): Outcome<bool> {
    if ev.id != idHash(ev) then Return(false)
    else if CanSign(ev.sender) then Return(signed)
    else Panic
  }
}
