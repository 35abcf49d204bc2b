/** Filters and events as the relay indexes and matches them (nostr-surreal-db/src/message/filter.rs,
    events.rs, subscription.rs and parse_filter_tags of nostr-plus-common/src/wire.rs), against what
    they mean on the raw messages. */
module Filters {
  import opened Common
  import opened Senders
  import opened Wire
  import opened Ordering
  import Decimal

  datatype Filter = Filter(
    ids: seq<Bytes32>, authors: seq<Sender>, kinds: seq<uint16>,
    since: Option<Timestamp>, until: Option<Timestamp>, limit: Option<uint64>,
    tags: map<string, seq<string>>)

  /** An event with its one-letter tags indexed. */
  datatype Event = Event(
    id: Bytes32, sender: Sender, sig: seq<byte>, createdAt: Timestamp, kind: uint16,
    tags: seq<(string, string)>, expiration: Option<uint64>, content: string)

  // ---------------------------------------------------------------- normalising a filter

  function IdKey(id: Bytes32): Key { id }
  function KindKey(kind: uint16): Key { [kind] }
  function TextKey(text: string): Key { seq(|text|, i requires 0 <= i < |text| => text[i] as int) }
  function SenderKey(s: Sender): Key {
    [s.Prefix()] + match s
      case SchnorrPubKey(key) => key
      case EoaAddress(address) => address
      case ContractAddress(chainId, contract) => [chainId] + contract
      case Ens(node) => node
  }

  lemma KeysAreInjective()
    ensures Injective(IdKey) && Injective(KindKey) && Injective(TextKey) && Injective(SenderKey)
  {
    forall x, y | TextKey(x) == TextKey(y) ensures x == y {
      assert |x| == |TextKey(x)| == |TextKey(y)| == |y|;
      forall i | 0 <= i < |x| ensures x[i] == y[i] { assert TextKey(x)[i] == TextKey(y)[i]; }
    }
    forall x, y | SenderKey(x) == SenderKey(y) ensures x == y { SenderKeyInjective(x, y); }
  }

  lemma SenderKeyInjective(x: Sender, y: Sender)
    requires SenderKey(x) == SenderKey(y)
    ensures x == y
  {
    assert SenderKey(x)[0] == SenderKey(y)[0];
    assert SenderKey(x)[1..] == SenderKey(y)[1..];
    match x
    case SchnorrPubKey(key) => assert SenderKey(x)[1..] == key && SenderKey(y)[1..] == y.key;
    case EoaAddress(address) => assert SenderKey(x)[1..] == address && SenderKey(y)[1..] == y.address;
    case ContractAddress(chainId, contract) =>
      assert SenderKey(x)[1] == chainId && SenderKey(y)[1] == y.chainId;
      assert SenderKey(x)[2..] == contract && SenderKey(y)[2..] == y.contract;
    case Ens(node) => assert SenderKey(x)[1..] == node && SenderKey(y)[1..] == y.node;
  }

  /** Keys of the form `#` and one byte are indexed; others are ignored. */
  predicate IsTagKey(rawKey: string) {
    |rawKey| == 2 && rawKey[0] == '#'
  }

  /** `e` and `p` name events and keys, so their values must be hexadecimal. */
  predicate GoodText(name: string, text: string) {
    name == "e" || name == "p" ==> HexDecode(text).Some?
  }

  predicate GoodValue(name: string, value: TagValue) {
    value.Strings? && forall i :: 0 <= i < |value.items| ==> GoodText(name, value.items[i])
  }

  predicate GoodTags(raw: map<string, TagValue>) {
    forall k :: k in raw && IsTagKey(k) ==> GoodValue(k[1..], raw[k])
  }

  /** The tag names with a non-empty list. */
  function TagNames(raw: map<string, TagValue>): (names: set<string>)
    ensures forall name :: name in names <==> RawKey(name) in raw && HasValues(RawKey(name), raw[RawKey(name)])
  {
    var names := set k | k in raw && HasValues(k, raw[k]) :: k[1..];
    assert forall k :: k in raw && HasValues(k, raw[k]) ==> k == RawKey(k[1..]);
    assert forall name :: RawKey(name)[1..] == name;
    names
  }

  function RawKey(name: string): string { ['#'] + name }

  predicate HasValues(k: string, value: TagValue) {
    IsTagKey(k) && value.Strings? && value.items != []
  }

  function IndexedTags(raw: map<string, TagValue>): map<string, seq<string>> {
    map name | name in TagNames(raw) :: Normal(TextKey, raw[RawKey(name)].items)
  }

  /** A filter in normal form, or an error if its tags are malformed. */
  function Normalise(f: FilterOnWire): Result<Filter> {
    if !GoodTags(f.tags) then Err
    else
      Ok(Filter(Normal(IdKey, f.ids), Normal(SenderKey, f.authors), Normal(KindKey, f.kinds),
                f.since, f.until, f.limit, IndexedTags(f.tags)))
  }

  // ---------------------------------------------------------------- indexing an event

  predicate FaultyTag(tag: Tag) {
    |tag| > 1 && (
      || (tag[0] == "expiration" && Decimal.ParseUint64(tag[1]) == None)
      || ((tag[0] == "e" || tag[0] == "p") && HexDecode(tag[1]) == None))
  }

  function IndexTags(tags: seq<Tag>): seq<(string, string)> {
    if tags == [] then []
    else
      var rest, last := IndexTags(tags[..|tags| - 1]), tags[|tags| - 1];
      if |last| > 1 && last[0] != "expiration" && |last[0]| <= 1 then rest + [(last[0], last[1])] else rest
  }

  /** The last expiration wins. */
  function Expiration(tags: seq<Tag>): Option<uint64> {
    if tags == [] then None
    else
      var last := tags[|tags| - 1];
      if |last| > 1 && last[0] == "expiration" then Decimal.ParseUint64(last[1])
      else Expiration(tags[..|tags| - 1])
  }

  /** An indexed event, or an error; `idHash` stands for the hash of the event's content. */
  function Index(ev: EventOnWire, idHash: EventOnWire -> Bytes32, now: Timestamp): Result<Event> {
    if ev.id != idHash(ev) || ev.createdAt > now || exists i :: 0 <= i < |ev.tags| && FaultyTag(ev.tags[i]) then Err
    else
      Ok(Event(ev.id, ev.sender, ev.sig, ev.createdAt, ev.kind, IndexTags(ev.tags), Expiration(ev.tags), ev.content))
  }

  // ---------------------------------------------------------------- matching

  predicate MatchOneTag(tags: seq<(string, string)>, name: string, list: seq<string>) {
    exists i :: 0 <= i < |tags| && tags[i].0 == name && tags[i].1 in list
  }

  predicate MatchTags(wanted: map<string, seq<string>>, tags: seq<(string, string)>) {
    forall name :: name in wanted ==> MatchOneTag(tags, name, wanted[name])
  }

  predicate MatchFilter(e: Event, f: Filter) {
    && (f.ids == [] || e.id in f.ids)
    && (f.authors == [] || e.sender in f.authors)
    && (f.kinds == [] || e.kind in f.kinds)
    && MatchTags(f.tags, e.tags)
  }

  predicate MatchFilters(e: Event, fs: seq<Filter>) {
    exists i :: 0 <= i < |fs| && MatchFilter(e, fs[i])
  }

  /** What a raw filter asks of a raw event, time bounds aside: the event's id, author and kind are among
      those listed, if any are, and for each non-empty list under `#x` the event has a tag called x whose
      value is in the list. */
  ghost predicate RawMatch(ev: EventOnWire, f: FilterOnWire) {
    && (f.ids == [] || ev.id in f.ids)
    && (f.authors == [] || ev.sender in f.authors)
    && (f.kinds == [] || ev.kind in f.kinds)
    && forall k :: k in f.tags && |k| == 2 && k[0] == '#' && f.tags[k].Strings? && f.tags[k].items != [] ==>
         RawTag(ev.tags, [k[1]], f.tags[k].items)
  }

  ghost predicate RawTag(tags: seq<Tag>, name: string, values: seq<string>) {
    exists i :: 0 <= i < |tags| && |tags[i]| >= 2 && tags[i][0] == name && tags[i][1] in values
  }

  lemma {:induction false} IndexedIff(tags: seq<Tag>, name: string, value: string)
    requires |name| == 1
    ensures (name, value) in IndexTags(tags) <==>
      exists i :: 0 <= i < |tags| && |tags[i]| >= 2 && tags[i][0] == name && tags[i][1] == value
  {
    if tags != [] {
      var init, last := tags[..|tags| - 1], tags[|tags| - 1];
      IndexedIff(init, name, value);
      assert tags == init + [last];
      if |last| >= 2 && last[0] == name && last[1] == value {
        assert tags[|init|] == last;
      }
      if (name, value) in IndexTags(init) {
        var i :| 0 <= i < |init| && |init[i]| >= 2 && init[i][0] == name && init[i][1] == value;
        assert tags[i] == init[i];
      }
    }
  }

  lemma OneTagMeansRawTag(tags: seq<Tag>, name: string, values: seq<string>)
    requires |name| == 1
    ensures MatchOneTag(IndexTags(tags), name, Normal(TextKey, values)) <==> RawTag(tags, name, values)
  {
    var indexed, list := IndexTags(tags), Normal(TextKey, values);
    NormalElements(TextKey, values);
    if MatchOneTag(indexed, name, list) {
      var i :| 0 <= i < |indexed| && indexed[i].0 == name && indexed[i].1 in list;
      assert (name, indexed[i].1) in indexed;
      IndexedIff(tags, name, indexed[i].1);
    }
    if RawTag(tags, name, values) {
      var i :| 0 <= i < |tags| && |tags[i]| >= 2 && tags[i][0] == name && tags[i][1] in values;
      IndexedIff(tags, name, tags[i][1]);
      var k :| 0 <= k < |indexed| && indexed[k] == (name, tags[i][1]);
    }
  }

  lemma NormalMembership<T(!new)>(key: T -> Key, items: seq<T>, x: T)
    ensures x in Normal(key, items) <==> x in items
    ensures Normal(key, items) == [] <==> items == []
  {
    NormalElements(key, items);
    assert forall i :: 0 <= i < |items| ==> items[i] in Normal(key, items);
    assert forall i :: 0 <= i < |Normal(key, items)| ==> Normal(key, items)[i] in items;
  }

  lemma TagsMeanRawTags(wanted: map<string, TagValue>, tags: seq<Tag>)
    ensures MatchTags(IndexedTags(wanted), IndexTags(tags)) <==>
      forall k :: k in wanted && |k| == 2 && k[0] == '#' && wanted[k].Strings? && wanted[k].items != [] ==>
        RawTag(tags, [k[1]], wanted[k].items)
  {
    var indexed := IndexedTags(wanted);
    forall name | name in indexed
      ensures MatchOneTag(IndexTags(tags), name, indexed[name]) <==> RawTag(tags, name, wanted[RawKey(name)].items)
    {
      OneTagMeansRawTag(tags, name, wanted[RawKey(name)].items);
    }
    forall k | k in wanted && HasValues(k, wanted[k]) ensures k == RawKey(k[1..]) && k[1..] in indexed {}
    forall name | name in indexed ensures RawKey(name)[1..] == name {}
  }

  /** Indexing preserves meaning: whenever both parse, matching the indexed event against the normalised
      filter is what the raw filter asks of the raw event. */
  lemma IndexingPreservesMeaning(ev: EventOnWire, f: FilterOnWire, idHash: EventOnWire -> Bytes32, now: Timestamp)
    requires Index(ev, idHash, now).Ok? && Normalise(f).Ok?
    ensures MatchFilter(Index(ev, idHash, now).value, Normalise(f).value) <==> RawMatch(ev, f)
  {
    NormalMembership(IdKey, f.ids, ev.id);
    NormalMembership(SenderKey, f.authors, ev.sender);
    NormalMembership(KindKey, f.kinds, ev.kind);
    TagsMeanRawTags(f.tags, ev.tags);
  }

  /** A filter parses exactly when every key of `#` and one byte has a list of strings, hexadecimal ones under
      `#e` and `#p`. */
  lemma FilterParsesIff(f: FilterOnWire)
    ensures Normalise(f).Ok? <==>
      forall k :: k in f.tags && |k| == 2 && k[0] == '#' ==>
        && f.tags[k].Strings?
        && (k[1] == 'e' || k[1] == 'p' ==>
             forall i :: 0 <= i < |f.tags[k].items| ==> HexDecode(f.tags[k].items[i]).Some?)
  {
    forall k | k in f.tags && |k| == 2 && k[0] == '#'
      ensures (k[1..] == "e" <==> k[1] == 'e') && (k[1..] == "p" <==> k[1] == 'p')
    {
      assert k[1..] == [k[1]];
    }
  }

  /** And then keeps its bounds and limit, and has one tag for each such key with a non-empty list, with the
      elements of that list. */
  lemma ParsedFilterKeeps(f: FilterOnWire)
    requires Normalise(f).Ok?
    ensures var g := Normalise(f).value;
      && g.since == f.since && g.until == f.until && g.limit == f.limit
      && (forall name :: name in g.tags <==>
           |name| == 1 && "#" + name in f.tags && f.tags["#" + name].Strings? && f.tags["#" + name].items != [])
      && (forall name :: name in g.tags ==> SameElements(g.tags[name], f.tags["#" + name].items))
  {
    var g := Normalise(f).value;
    forall name ensures RawKey(name) == "#" + name {}
    forall name | name in g.tags ensures SameElements(g.tags[name], f.tags["#" + name].items) {
      NormalElements(TextKey, f.tags[RawKey(name)].items);
    }
  }

  /** Kinds are listed in ascending order, each once. */
  lemma KindsAscend(f: FilterOnWire)
    requires Normalise(f).Ok?
    ensures var kinds := Normalise(f).value.kinds; forall i, j :: 0 <= i < j < |kinds| ==> kinds[i] < kinds[j]
  {
    KeysAreInjective();
    NormalAscending(KindKey, f.kinds);
    KindsOf(Normal(KindKey, f.kinds));
  }

  lemma KindOrder(a: uint16, b: uint16)
    ensures Less(KindKey(a), KindKey(b)) <==> a < b
  {
    var x, y := KindKey(a), KindKey(b);
    assert x == [a] && y == [b] && x[1..] == [] && y[1..] == [];
  }

  lemma {:induction false} KindsOf(kinds: seq<uint16>)
    requires Ascending(KindKey, kinds, true)
    ensures forall i, j :: 0 <= i < j < |kinds| ==> kinds[i] < kinds[j]
  {
    if |kinds| > 1 {
      KindsOf(kinds[1..]);
      KindOrder(kinds[0], kinds[1]);
      forall i, j | 0 <= i < j < |kinds| ensures kinds[i] < kinds[j] {
        if i > 0 { assert kinds[i] == kinds[1..][i - 1] && kinds[j] == kinds[1..][j - 1]; }
        if i == 0 && j > 1 { assert kinds[1] == kinds[1..][0] && kinds[j] == kinds[1..][j - 1]; }
      }
    }
  }

  // ---------------------------------------------------------------- what indexing keeps

  /** An event is accepted exactly when its id is the hash of its content, it is not from the future, and every
      tag of two or more elements called `expiration`, `e` or `p` has a fitting second element. */
  lemma EventIsIndexedIff(ev: EventOnWire, idHash: EventOnWire -> Bytes32, now: Timestamp)
    ensures Index(ev, idHash, now).Ok? <==>
      && ev.id == idHash(ev) && ev.createdAt <= now
      && forall i :: 0 <= i < |ev.tags| && |ev.tags[i]| >= 2 ==>
           && (ev.tags[i][0] == "expiration" ==> Decimal.ParseUint64(ev.tags[i][1]).Some?)
           && (ev.tags[i][0] in ["e", "p"] ==> HexDecode(ev.tags[i][1]).Some?)
    ensures Index(ev, idHash, now).Ok? ==>
      var e := Index(ev, idHash, now).value;
      && e.id == ev.id && e.sender == ev.sender && e.sig == ev.sig && e.createdAt == ev.createdAt
      && e.kind == ev.kind && e.content == ev.content
      && e.tags == IndexTags(ev.tags) && e.expiration == Expiration(ev.tags)
  {
  }

  /** Tags are indexed one by one, in order: those of two or more elements whose name has at most one byte. */
  lemma {:induction false} TagsAreIndexedInOrder(before: seq<Tag>, tag: Tag, after: seq<Tag>)
    ensures IndexTags(before + [tag] + after) == IndexTags(before) + IndexTags([tag]) + IndexTags(after)
    ensures IndexTags([tag]) == if |tag| >= 2 && |tag[0]| <= 1 then [(tag[0], tag[1])] else []
  {
    assert [tag][..0] == [];
    assert IndexTags([]) == [];
    if after == [] {
      assert (before + [tag])[..|before|] == before;
      assert before + [tag] + after == before + [tag];
    } else {
      var init, all := after[..|after| - 1], before + [tag] + after;
      TagsAreIndexedInOrder(before, tag, init);
      assert all[..|all| - 1] == before + [tag] + init;
    }
  }

  /** The last tag called `expiration` with a value is the one that counts; without any there is none. */
  lemma {:induction false} LastExpirationCounts(before: seq<Tag>, tag: Tag, after: seq<Tag>)
    requires forall i :: 0 <= i < |after| ==> |after[i]| < 2 || after[i][0] != "expiration"
    ensures |tag| >= 2 && tag[0] == "expiration" ==>
      Expiration(before + [tag] + after) == Decimal.ParseUint64(tag[1])
    ensures Expiration(after) == None
  {
    if after == [] {
      assert (before + [tag])[..|before|] == before;
      assert before + [tag] + after == before + [tag];
    } else {
      var init, all := after[..|after| - 1], before + [tag] + after;
      LastExpirationCounts(before, tag, init);
      assert all[..|all| - 1] == before + [tag] + init;
    }
  }

  /** The normal form forgets only order and repetition: two filters that parse have the same id, author
      and kind lists exactly when they list the same elements, and normalising again changes nothing. */
  lemma NormalFiltersAreCanonical(f: FilterOnWire, g: FilterOnWire)
    requires GoodTags(f.tags) && GoodTags(g.tags)
    ensures var a, b := Normalise(f).value, Normalise(g).value;
      && (a.ids == b.ids <==> SameElements(f.ids, g.ids))
      && (a.authors == b.authors <==> SameElements(f.authors, g.authors))
      && (a.kinds == b.kinds <==> SameElements(f.kinds, g.kinds))
    ensures var a := Normalise(f).value;
      Normal(IdKey, a.ids) == a.ids && Normal(SenderKey, a.authors) == a.authors && Normal(KindKey, a.kinds) == a.kinds
  {
    KeysAreInjective();
    NormalFormIsCanonical(IdKey, f.ids, g.ids);
    NormalFormIsCanonical(SenderKey, f.authors, g.authors);
    NormalFormIsCanonical(KindKey, f.kinds, g.kinds);
  }

  // ---------------------------------------------------------------- the loops

  method IndexList(name: string, items: seq<string>) returns (list: Result<seq<string>>)
    ensures list == if forall i :: 0 <= i < |items| ==> GoodText(name, items[i]) then Ok(items) else Err
  {
    var collected: seq<string> := [];
    for i := 0 to |items|
      invariant collected == items[..i]
      invariant forall j :: 0 <= j < i ==> GoodText(name, items[j])
    {
      if name == "e" || name == "p" {
        var h := HexDecode(items[i]);
        if h.None? {
          assert !GoodText(name, items[i]);
          return Err;
        }
      }
      collected := collected + [items[i]];
    }
    assert items[..|items|] == items;
    list := Ok(collected);
  }

  /** The tags indexed once all keys but those in `left` have been dealt with. */
  ghost function IndexedBut(raw: map<string, TagValue>, left: set<string>): map<string, seq<string>> {
    map name | name in TagNames(raw) && RawKey(name) !in left :: Normal(TextKey, raw[RawKey(name)].items)
  }

  /** `parse_filter_tags`: whatever order the hash map is walked in, the result is the same. */
  method ParseFilterTags(raw: map<string, TagValue>) returns (tags: Result<map<string, seq<string>>>)
    ensures tags == if GoodTags(raw) then Ok(IndexedTags(raw)) else Err
  {
    var done: map<string, seq<string>> := map[];
    var left := raw.Keys;
    assert IndexedBut(raw, left) == map[];
    while left != {}
      invariant left <= raw.Keys
      invariant forall k :: k in raw && k !in left && IsTagKey(k) ==> GoodValue(k[1..], raw[k])
      invariant done == IndexedBut(raw, left)
      decreases left
    {
      var rawKey :| rawKey in left;
      ghost var before := left;
      left := left - {rawKey};
      var name := if rawKey != "" then rawKey[1..] else "";
      OneKeyLess(raw, before, rawKey);
      if IsTagKey(rawKey) {
        var value := raw[rawKey];
        if !value.Strings? {
          assert !GoodValue(rawKey[1..], raw[rawKey]);
          return Err;
        }
        var list := IndexList(name, value.items);
        if list.Err? {
          assert !GoodValue(rawKey[1..], raw[rawKey]);
          return Err;
        }
        if list.value != [] {
          done := done[name := Normal(TextKey, list.value)];
        }
      }
    }
    assert IndexedBut(raw, {}) == IndexedTags(raw);
    tags := Ok(done);
  }

  /** `TryFrom<FilterOnWire>`. */
  method NormaliseFilter(f: FilterOnWire) returns (filter: Result<Filter>)
    ensures filter == Normalise(f)
  {
    var ids, authors, kinds := Normal(IdKey, f.ids), Normal(SenderKey, f.authors), Normal(KindKey, f.kinds);
    var tags := ParseFilterTags(f.tags);
    if tags.Err? {
      return Err;
    }
    filter := Ok(Filter(ids, authors, kinds, f.since, f.until, f.limit, tags.value));
  }

  lemma OneKeyLess(raw: map<string, TagValue>, left: set<string>, k: string)
    requires k in left && left <= raw.Keys
    ensures var before, after := IndexedBut(raw, left), IndexedBut(raw, left - {k});
      after == if HasValues(k, raw[k]) then before[k[1..] := Normal(TextKey, raw[k].items)] else before
  {
    if HasValues(k, raw[k]) { assert k == RawKey(k[1..]); }
    assert forall name :: RawKey(name)[1..] == name;
  }

  method IndexEventTags(tags: seq<Tag>) returns (result: Result<(seq<(string, string)>, Option<uint64>)>)
    ensures result ==
      if exists i :: 0 <= i < |tags| && FaultyTag(tags[i]) then Err else Ok((IndexTags(tags), Expiration(tags)))
  {
    var indexed: seq<(string, string)> := [];
    var expiration: Option<uint64> := None;
    for i := 0 to |tags|
      invariant forall j :: 0 <= j < i ==> !FaultyTag(tags[j])
      invariant indexed == IndexTags(tags[..i]) && expiration == Expiration(tags[..i])
    {
      var tag := tags[i];
      assert tags[..i + 1][..i] == tags[..i];
      if |tag| > 1 {
        if tag[0] == "expiration" {
          var time := Decimal.ParseUint64(tag[1]);
          if time.None? {
            assert FaultyTag(tags[i]);
            return Err;
          }
          expiration := time;
        } else {
          if (tag[0] == "e" || tag[0] == "p") && HexDecode(tag[1]).None? {
            assert FaultyTag(tags[i]);
            return Err;
          }
          if |tag[0]| <= 1 {
            indexed := indexed + [(tag[0], tag[1])];
          }
        }
      }
    }
    assert tags[..|tags|] == tags;
    result := Ok((indexed, expiration));
  }

  /** `TryFrom<EventOnWire>`. */
  method IndexEvent(ev: EventOnWire, idHash: EventOnWire -> Bytes32, now: Timestamp) returns (event: Result<Event>)
    ensures event == Index(ev, idHash, now)
  {
    if ev.id != idHash(ev) || ev.createdAt > now {
      return Err;
    }
    var indexed := IndexEventTags(ev.tags);
    if indexed.Err? {
      return Err;
    }
    var (tags, expiration) := indexed.value;
    event := Ok(Event(ev.id, ev.sender, ev.sig, ev.createdAt, ev.kind, tags, expiration, ev.content));
  }

  method MatchTagList(tags: seq<(string, string)>, name: string, list: seq<string>) returns (found: bool)
    ensures found <==> MatchOneTag(tags, name, list)
  {
    for i := 0 to |tags|
      invariant forall j :: 0 <= j < i ==> !(tags[j].0 == name && tags[j].1 in list)
    {
      if tags[i].0 == name && tags[i].1 in list {
        return true;
      }
    }
    found := false;
  }

  /** `match_tag`, with its two shortcuts and its walk over the wanted tags in any order. */
  method MatchTag(wanted: map<string, seq<string>>, tags: seq<(string, string)>) returns (ok: bool)
    ensures ok <==> MatchTags(wanted, tags)
  {
    if wanted == map[] {
      return true;
    }
    if |tags| == 0 {
      assert exists name :: name in wanted;
      return false;
    }
    var left := wanted.Keys;
    while left != {}
      invariant left <= wanted.Keys
      invariant forall name :: name in wanted && name !in left ==> MatchOneTag(tags, name, wanted[name])
      decreases left
    {
      var name :| name in left;
      left := left - {name};
      var found := MatchTagList(tags, name, wanted[name]);
      if !found {
        return false;
      }
    }
    ok := true;
  }

  method MatchAnyFilter(e: Event, fs: seq<Filter>) returns (found: bool)
    ensures found <==> MatchFilters(e, fs)
  {
    for i := 0 to |fs|
      invariant forall j :: 0 <= j < i ==> !MatchFilter(e, fs[j])
    {
      var tagsMatch := MatchTag(fs[i].tags, e.tags);
      if (fs[i].ids == [] || e.id in fs[i].ids) && (fs[i].authors == [] || e.sender in fs[i].authors)
         && (fs[i].kinds == [] || e.kind in fs[i].kinds) && tagsMatch {
        return true;
      }
    }
    found := false;
  }
}
