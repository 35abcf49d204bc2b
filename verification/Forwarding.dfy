/** Which events a connection forwards to its client, and under which subscription
    (nostr-surreal-db/src/message/subscription.rs, nostr-relay/src/local/subscriptions.rs, local/serve.rs). */
module Forwarding {
  import opened Common
  import Wire
  import opened Filters
  import SubscriptionTable

  /** All items parsed, or an error when one does not parse. */
  predicate AllParse<A, B>(parse: A -> Result<B>, items: seq<A>) {
    forall i :: 0 <= i < |items| ==> parse(items[i]).Ok?
  }

  function Parsed<A, B>(parse: A -> Result<B>, items: seq<A>): seq<B>
    requires AllParse(parse, items)
  {
    if items == [] then [] else Parsed(parse, items[..|items| - 1]) + [parse(items[|items| - 1]).value]
  }

  lemma {:induction false} ParsedAt<A, B>(parse: A -> Result<B>, items: seq<A>, i: nat)
    requires AllParse(parse, items) && i < |items|
    ensures |Parsed(parse, items)| == |items| && Parsed(parse, items)[i] == parse(items[i]).value
  {
    if i < |items| - 1 {
      ParsedAt(parse, items[..|items| - 1], i);
    } else if |items| > 1 {
      ParsedAt(parse, items[..|items| - 1], 0);
    }
  }

  /** `parse_filters`: one filter that does not parse spoils them all. */
  method ParseFilters<A, B>(parse: A -> Result<B>, items: seq<A>) returns (result: Result<seq<B>>)
    ensures result == if AllParse(parse, items) then Ok(Parsed(parse, items)) else Err
  {
    var parsed: seq<B> := [];
    for i := 0 to |items|
      invariant AllParse(parse, items[..i]) && parsed == Parsed(parse, items[..i])
    {
      assert items[..i + 1][..i] == items[..i];
      var r := parse(items[i]);
      if r.Err? {
        assert !AllParse(parse, items);
        return Err;
      }
      parsed := parsed + [r.value];
    }
    assert items[..|items|] == items;
    result := Ok(parsed);
  }

  predicate Interested(s: SubscriptionTable.Request, e: Event) {
    AllParse(Normalise, s.filters) && MatchFilters(e, Parsed(Normalise, s.filters))
  }

  /** The subscription under which an event is forwarded: some interested one, whichever the hash map
      yields first, or none. */
  method FindInterested(subscriptions: SubscriptionTable.Table, e: Event) returns (id: Result<SubscriptionTable.Id>)
    ensures id.Ok? ==> id.value in subscriptions && Interested(subscriptions[id.value], e)
    ensures id.Err? <==> forall id :: id in subscriptions ==> !Interested(subscriptions[id], e)
  {
    var left := subscriptions.Keys;
    while left != {}
      invariant left <= subscriptions.Keys
      invariant forall id :: id in subscriptions && id !in left ==> !Interested(subscriptions[id], e)
      decreases left
    {
      var next :| next in left;
      left := left - {next};
      var filters := ParseFilters(Normalise, subscriptions[next].filters);
      if filters.Ok? {
        var matches := MatchAnyFilter(e, filters.value);
        if matches {
          return Ok(next);
        }
      }
    }
    id := Err;
  }

  /** What the subscriber asked for: all its filters are well formed, and the raw event is what one of
      them asks for. */
  ghost predicate Wants(s: SubscriptionTable.Request, ev: Wire.EventOnWire) {
    && (forall i :: 0 <= i < |s.filters| ==> GoodTags(s.filters[i].tags))
    && exists i :: 0 <= i < |s.filters| && RawMatch(ev, s.filters[i])
  }

  /** The relay's decision on indexed data is the subscriber's request on raw data. */
  lemma InterestedMeansWants(s: SubscriptionTable.Request, ev: Wire.EventOnWire,
                             idHash: Wire.EventOnWire -> Bytes32, now: Wire.Timestamp)
    requires Index(ev, idHash, now).Ok?
    ensures Interested(s, Index(ev, idHash, now).value) <==> Wants(s, ev)
  {
    var e, fs := Index(ev, idHash, now).value, s.filters;
    assert AllParse(Normalise, fs) <==> forall i :: 0 <= i < |fs| ==> GoodTags(fs[i].tags);
    if AllParse(Normalise, fs) {
      var parsed := Parsed(Normalise, fs);
      forall i | 0 <= i < |fs| ensures |parsed| == |fs| && (MatchFilter(e, parsed[i]) <==> RawMatch(ev, fs[i])) {
        ParsedAt(Normalise, fs, i);
        IndexingPreservesMeaning(ev, fs[i], idHash, now);
      }
    }
  }
}
