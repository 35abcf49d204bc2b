/** The relay's subscription table for one connection, and the binary query for its size
    (nostr-relay/src/local/subscriptions.rs, local/serve.rs, nostr-plus-common/src/binary_protocol.rs). */
module RelaySubscriptions {
  import opened Common
  import opened SubscriptionTable

  const MAX_SUBSCRIPTION_ID_LEN: nat := 256
  const MAX_SUBS: nat := 32

  /** `subscribe`: a known id is replaced, a new one needs room, and an overlong one is refused. */
  function Subscribe(t: Table, s: Request): Result<Table> {
    if |s.id| > MAX_SUBSCRIPTION_ID_LEN then Err
    else if s.id in t then Ok((t - {s.id})[s.id := s])
    else if |t| >= MAX_SUBS then Err
    else Ok(t[s.id := s])
  }

  /** A REQ or CLOSE message; a refused REQ is logged and changes nothing. */
  function Receive(t: Table, op: Op): Table {
    match op
    case Put(_, request) => (match Subscribe(t, request) case Ok(t') => t' case Err => t)
    case Delete(id) => t - {id}
    case Skip => t
  }

  function ReceiveAll(ops: seq<Op>): Table {
    if ops == [] then map[] else Receive(ReceiveAll(ops[..|ops| - 1]), ops[|ops| - 1])
  }

  /** Every key is its subscription's id, of an acceptable length. */
  ghost predicate Keyed(t: Table) {
    forall id :: id in t ==> t[id].id == id && |id| <= MAX_SUBSCRIPTION_ID_LEN
  }

  /** Replacing a subscription is a plain update. */
  lemma SubscribeIsUpdate(t: Table, s: Request)
    ensures Subscribe(t, s).Ok? <==> |s.id| <= 256 && (s.id in t || |t| < 32)
    ensures Subscribe(t, s).Ok? ==> Subscribe(t, s).value == t[s.id := s]
  {
  }

  /** Over every stream of messages the relay's table stays within its bound and keyed by the ids of its
      subscriptions. */
  lemma {:induction false} RelayTableStaysWellFormed(ops: seq<Op>)
    ensures Keyed(ReceiveAll(ops)) && |ReceiveAll(ops)| <= 32
  {
    if ops != [] {
      var before := ReceiveAll(ops[..|ops| - 1]);
      RelayTableStaysWellFormed(ops[..|ops| - 1]);
    }
  }

  // ---------------------------------------------------------------- binary messages

  datatype BinaryMessage = QuerySubscription | ReplySubscription(count: byte)
  {
    function ToBytes(): seq<byte> {
      match this
      case QuerySubscription => [1]
      case ReplySubscription(count) => [2, count]
    }
  }

  function FromBytes(bytes: seq<byte>): Result<BinaryMessage> {
    if bytes == [] then Err
    else if bytes[0] == 1 then Ok(QuerySubscription)
    else if bytes[0] == 2 then if |bytes| != 2 then Err else Ok(ReplySubscription(bytes[1]))
    else Err
  }

  /** The count is cut to one byte. */
  function AnswerQuery(t: Table): BinaryMessage {
    ReplySubscription(|t| % 256)
  }

  /** Which byte strings decode to a message: for a query all that start with 1, for a reply exactly 2 and the
      count. Each message decodes from its own bytes. */
  lemma BinaryDecodesIff(bytes: seq<byte>, count: byte)
    ensures FromBytes(bytes) == Ok(QuerySubscription) <==> bytes != [] && bytes[0] == 1
    ensures FromBytes(bytes) == Ok(ReplySubscription(count)) <==> bytes == [2, count]
    ensures FromBytes(QuerySubscription.ToBytes()) == Ok(QuerySubscription)
    ensures ReplySubscription(count).ToBytes() == [2, count]
  {
    if |bytes| == 2 { assert bytes == [bytes[0], bytes[1]]; }
  }

  /** The client reads this size in the relay's answer to a size query. */
  ghost predicate AnswersWith(t: Table, size: nat) {
    var answer := FromBytes(AnswerQuery(t).ToBytes());
    answer.Ok? && answer.value.ReplySubscription? && answer.value.count == size
  }

  lemma AnswersExactlyIff(t: Table)
    ensures AnswersWith(t, |t|) <==> |t| < 256
  {
  }

  /** The one-byte answer to a size query always decodes to the true size. */
  lemma QueriesAreAnsweredExactly(ops: seq<Op>)
    ensures AnswersWith(ReceiveAll(ops), |ReceiveAll(ops)|)
  {
    RelayTableStaysWellFormed(ops);
    AnswersExactlyIff(ReceiveAll(ops));
  }

  // ---------------------------------------------------------------- one connection

  class LocalState {
    var subscriptions: Table

    constructor ()
      ensures subscriptions == map[]
    {
      subscriptions := map[];
    }

    method SubscribeTo(s: Request) returns (ok: bool)
      modifies this
      ensures ok <==> Subscribe(old(subscriptions), s).Ok?
      ensures subscriptions == Receive(old(subscriptions), Put(s.id, s))
    {
      if |s.id| > MAX_SUBSCRIPTION_ID_LEN {
        return false;
      }
      if s.id in subscriptions {
        subscriptions := subscriptions - {s.id};
        subscriptions := subscriptions[s.id := s];
        return true;
      }
      if |subscriptions| >= MAX_SUBS {
        return false;
      }
      subscriptions := subscriptions[s.id := s];
      ok := true;
    }

    method Unsubscribe(id: Id)
      modifies this
      ensures subscriptions == Receive(old(subscriptions), Delete(id))
    {
      subscriptions := subscriptions - {id};
    }

    method HandleBinary(bytes: seq<byte>) returns (reply: Result<seq<byte>>)
      ensures reply == if bytes != [] && bytes[0] == 1 then Ok([2, |subscriptions| % 256]) else Err
    {
      match FromBytes(bytes)
      case Ok(QuerySubscription) => reply := Ok(ReplySubscription(|subscriptions| % 256).ToBytes());
      case Ok(ReplySubscription(_)) => reply := Err;
      case Err => reply := Err;
    }
  }
}
